/**
 * Publisher confirms. One sequential publisher sends messages on a channel whose confirmations arrive as one stream in
 * the order of the sends. A wait that ends by timeout or cancellation leaves its confirmation in the stream. The
 * consumer and the operator each have a channel of their own, both used in this way.
 */
module Confirms {
  import opened Outcomes

  /** The verdicts the broker has put into the stream, how many have been read, and whether the channel is open. */
  datatype Channel = Channel(verdicts: seq<bool>, taken: nat, open: bool)

  /**
   * How one publish goes: not sent; sent but not waited for to the end; sent and a confirmation read; or sent and the
   * channel closed before the broker confirmed the message, which may have landed all the same.
   */
  datatype Attempt = NotSent | GaveUp(verdict: bool) | ReadOne(verdict: bool) | Cut(landed: bool)

  const NEW_CHANNEL := Channel([], 0, true)

  /** Nothing is sent on a closed channel. A wait on a closing channel still reads what the stream holds. */
  function After(c: Channel, a: Attempt): Channel {
    if !c.open then c
    else
      match a
      case NotSent => c
      case GaveUp(v) => c.(verdicts := c.verdicts + [v])
      case ReadOne(v) => c.(verdicts := c.verdicts + [v], taken := c.taken + 1)
      case Cut(_) => Channel(c.verdicts, if c.taken < |c.verdicts| then c.taken + 1 else c.taken, false)
  }

  function Run(attempts: seq<Attempt>): Channel {
    if attempts == [] then NEW_CHANNEL else After(Run(attempts[..|attempts| - 1]), attempts[|attempts| - 1])
  }

  /** How many waits were given up on the open channel. */
  function GivenUp(attempts: seq<Attempt>): nat {
    if attempts == [] then 0
    else
      var init := attempts[..|attempts| - 1];
      GivenUp(init) + if attempts[|attempts| - 1].GaveUp? && Run(init).open then 1 else 0
  }

  /** The confirmation read lags behind the message sent by exactly the number of waits given up. */
  lemma {:induction false} ReadsLag(attempts: seq<Attempt>)
    ensures Run(attempts).open ==> Run(attempts).taken + GivenUp(attempts) == |Run(attempts).verdicts|
  {
    if attempts != [] {
      ReadsLag(attempts[..|attempts| - 1]);
    }
  }

  /** The publish reports success: the confirmation it reads is positive. */
  predicate Reports(c: Channel, a: Attempt) {
    && c.open
    && match a
       case ReadOne(v) => c.taken < |c.verdicts| + 1 && (c.verdicts + [v])[c.taken]
       case Cut(_) => c.taken < |c.verdicts| && c.verdicts[c.taken]
       case _ => false
  }

  /** The broker holds the message. */
  predicate Lands(c: Channel, a: Attempt) {
    && c.open
    && match a
       case NotSent => false
       case GaveUp(v) => v
       case ReadOne(v) => v
       case Cut(landed) => landed
  }

  /** How the publish ends, for the delivery protocol. */
  function FateOf(c: Channel, a: Attempt): Fate {
    if Lands(c, a) then if Reports(c, a) then Accepted else LandedUnconfirmed
    else if Reports(c, a) then Misreported else Lost
  }

  /** What the four endings mean: the broker accepted the message, and the verdict that was read is positive. */
  lemma FateTells(c: Channel, a: Attempt)
    ensures Landed(FateOf(c, a)) <==> c.open && (a == GaveUp(true) || a == ReadOne(true) || a == Cut(true))
    ensures Reported(FateOf(c, a)) <==>
              c.open && match a
                        case ReadOne(v) => if c.taken < |c.verdicts| then c.verdicts[c.taken] else c.taken == |c.verdicts| && v
                        case Cut(_) => c.taken < |c.verdicts| && c.verdicts[c.taken]
                        case _ => false
  {
  }

  /** The broker's verdicts on all that was sent, in order. */
  function Verdicts(attempts: seq<Attempt>): seq<bool> {
    if attempts == [] then []
    else
      var a := attempts[|attempts| - 1];
      Verdicts(attempts[..|attempts| - 1]) + if a.GaveUp? || a.ReadOne? then [a.verdict] else []
  }

  function Reads(attempts: seq<Attempt>): nat {
    if attempts == [] then 0
    else Reads(attempts[..|attempts| - 1]) + if attempts[|attempts| - 1].ReadOne? then 1 else 0
  }

  /** An open channel's stream has one verdict for each message sent, of which as many are gone as waits were finished. */
  lemma {:induction false} StreamIs(attempts: seq<Attempt>)
    ensures Run(attempts).open <==> forall i | 0 <= i < |attempts| :: !attempts[i].Cut?
    ensures Run(attempts).open ==> Run(attempts) == Channel(Verdicts(attempts), Reads(attempts), true)
  {
    if attempts != [] {
      var n := |attempts| - 1;
      StreamIs(attempts[..n]);
      assert forall i | 0 <= i < n :: attempts[..n][i] == attempts[i];
    }
  }

  /** Which sent message the next confirmation read belongs to. */
  function ReadIndex(before: seq<Attempt>): nat {
    Run(before).taken
  }

  function OwnIndex(before: seq<Attempt>): nat {
    |Run(before).verdicts|
  }

  /** A confirmation belongs to the message just sent if and only if no earlier wait was given up. */
  lemma PairedIffNeverGivenUp(before: seq<Attempt>)
    requires Run(before).open
    ensures ReadIndex(before) == OwnIndex(before) <==> GivenUp(before) == 0
    ensures ReadIndex(before) == OwnIndex(before) - GivenUp(before)
  {
    ReadsLag(before);
  }

  /** As long as no wait was given up, success means that the broker accepted this very message, and conversely. */
  lemma SuccessMeansAccepted(before: seq<Attempt>, a: Attempt)
    requires GivenUp(before) == 0
    ensures Reports(Run(before), a) ==> Lands(Run(before), a)
    ensures a.ReadOne? && Run(before).open ==> (Reports(Run(before), a) <==> a.verdict)
    ensures FateOf(Run(before), a) != Misreported
  {
    ReadsLag(before);
  }

  /**
   * After a given-up wait success is the verdict on an earlier message. So a refused message is reported as accepted
   * if and only if a wait was given up and that earlier verdict was positive.
   */
  lemma LateConfirmationMisleads(before: seq<Attempt>, verdict: bool)
    requires Run(before).open
    ensures GivenUp(before) > 0 ==>
              && ReadIndex(before) < OwnIndex(before)
              && (Reports(Run(before), ReadOne(verdict)) <==> Run(before).verdicts[ReadIndex(before)])
    ensures FateOf(Run(before), ReadOne(false)) == Misreported <==>
              GivenUp(before) > 0 && ReadIndex(before) < OwnIndex(before) && Run(before).verdicts[ReadIndex(before)]
  {
    ReadsLag(before);
  }

  // ---------------------------------------------------------------------------
  // Whole streams
  // ---------------------------------------------------------------------------

  /** How the publishes on a new channel end, one after the other. */
  function Fates(attempts: seq<Attempt>): seq<Fate> {
    if attempts == [] then []
    else
      var init := attempts[..|attempts| - 1];
      Fates(init) + [FateOf(Run(init), attempts[|attempts| - 1])]
  }

  lemma {:induction false} FateAt(attempts: seq<Attempt>, i: nat)
    requires i < |attempts|
    ensures |Fates(attempts)| == |attempts| && Fates(attempts)[i] == FateOf(Run(attempts[..i]), attempts[i])
    decreases |attempts|
  {
    var n := |attempts| - 1;
    if n > 0 { FateAt(attempts[..n], if i < n then i else 0); }
    if i < n { assert attempts[..n][..i] == attempts[..i] && attempts[..n][i] == attempts[i]; }
  }

  /** A confirmation is read, or the channel closes, after a wait was given up. */
  predicate ReadsLate(attempts: seq<Attempt>, i: nat)
    requires i < |attempts|
  {
    (attempts[i].ReadOne? || attempts[i].Cut?) && GivenUp(attempts[..i]) > 0
  }

  /** After a wait was given up on a channel, no confirmation is read from it any more. */
  predicate StopsReading(attempts: seq<Attempt>) {
    forall i: nat | i < |attempts| :: !ReadsLate(attempts, i)
  }

  lemma StopsReadingInit(attempts: seq<Attempt>)
    requires attempts != []
    ensures
      var n := |attempts| - 1;
      StopsReading(attempts) <==> StopsReading(attempts[..n]) && !ReadsLate(attempts, n)
  {
    var n := |attempts| - 1;
    forall i: nat | i < n ensures ReadsLate(attempts[..n], i) <==> ReadsLate(attempts, i) {
      assert attempts[..n][..i] == attempts[..i];
    }
  }

  lemma {:induction false} FatesAreHonest(attempts: seq<Attempt>)
    requires StopsReading(attempts)
    ensures Misreported !in Fates(attempts)
  {
    if attempts != [] {
      var n := |attempts| - 1;
      StopsReadingInit(attempts);
      FatesAreHonest(attempts[..n]);
      if attempts[n].ReadOne? || attempts[n].Cut? { SuccessMeansAccepted(attempts[..n], attempts[n]); }
    }
  }

  /** The same sends and waits; only the broker's verdicts may differ. */
  predicate SameWait(a: Attempt, b: Attempt) {
    (a.NotSent? <==> b.NotSent?) && (a.GaveUp? <==> b.GaveUp?) && (a.ReadOne? <==> b.ReadOne?) && (a.Cut? <==> b.Cut?)
  }

  predicate SameWaits(xs: seq<Attempt>, ys: seq<Attempt>) {
    |xs| == |ys| && forall i | 0 <= i < |xs| :: SameWait(xs[i], ys[i])
  }

  /** How much is sent, read and given up does not depend on the verdicts. */
  lemma {:induction false} SameWaitsSameRun(xs: seq<Attempt>, ys: seq<Attempt>)
    requires SameWaits(xs, ys)
    ensures
      && Run(xs).open == Run(ys).open && Run(xs).taken == Run(ys).taken
      && |Run(xs).verdicts| == |Run(ys).verdicts| && GivenUp(xs) == GivenUp(ys)
  {
    if xs != [] {
      var n := |xs| - 1;
      SameWaitsSameRun(xs[..n], ys[..n]);
      assert SameWait(xs[n], ys[n]);
    }
  }

  lemma SameWaitsStopAlike(xs: seq<Attempt>, ys: seq<Attempt>)
    requires SameWaits(xs, ys)
    ensures StopsReading(xs) <==> StopsReading(ys)
  {
    forall i: nat | i < |xs| ensures ReadsLate(xs, i) <==> ReadsLate(ys, i) {
      SameWaitsSameRun(xs[..i], ys[..i]);
      assert SameWait(xs[i], ys[i]);
    }
  }

  /** A channel closes with given-up waits only if that closing is a late read itself. */
  lemma {:induction false} ClosedInTime(attempts: seq<Attempt>)
    requires StopsReading(attempts) && !Run(attempts).open
    ensures GivenUp(attempts) == 0
  {
    var n := |attempts| - 1;
    StopsReadingInit(attempts);
    if !Run(attempts[..n]).open { ClosedInTime(attempts[..n]); }
  }

  /** The first late read happens on an open channel. */
  lemma {:induction false} FirstLateRead(attempts: seq<Attempt>) returns (i: nat)
    requires !StopsReading(attempts)
    ensures i < |attempts| && ReadsLate(attempts, i) && Run(attempts[..i]).open
  {
    var n := |attempts| - 1;
    StopsReadingInit(attempts);
    if !StopsReading(attempts[..n]) {
      i := FirstLateRead(attempts[..n]);
      assert attempts[..n][..i] == attempts[..i];
    } else {
      i := n;
      if !Run(attempts[..n]).open { ClosedInTime(attempts[..n]); }
    }
  }

  /** The broker accepts, or refuses, the message. */
  function WithVerdict(a: Attempt, verdict: bool): Attempt {
    match a
    case NotSent => NotSent
    case GaveUp(_) => GaveUp(verdict)
    case ReadOne(_) => ReadOne(verdict)
    case Cut(_) => Cut(verdict)
  }

  /** The verdicts that mislead attempt `i`: all messages before it are accepted, it is refused. */
  function Misleading(attempts: seq<Attempt>, i: nat): seq<Attempt> {
    seq(|attempts|, j requires 0 <= j < |attempts| => WithVerdict(attempts[j], j < i))
  }

  lemma {:induction false} AcceptedSoFar(attempts: seq<Attempt>)
    requires forall j | 0 <= j < |attempts| :: attempts[j] == WithVerdict(attempts[j], true)
    ensures forall v | v in Run(attempts).verdicts :: v
  {
    if attempts != [] {
      AcceptedSoFar(attempts[..|attempts| - 1]);
    }
  }

  lemma MisleadingMisreports(attempts: seq<Attempt>, i: nat)
    requires i < |attempts| && ReadsLate(attempts, i) && Run(attempts[..i]).open
    ensures SameWaits(attempts, Misleading(attempts, i)) && Misreported in Fates(Misleading(attempts, i))
  {
    var bs := Misleading(attempts, i);
    MisleadingPrefix(attempts, i);
    SameWaitsSameRun(attempts[..i], bs[..i]);
    LateReadMisreports(bs[..i]);
    FateAt(bs, i);
    assert Fates(bs)[i] == Misreported;
  }

  lemma MisleadingPrefix(attempts: seq<Attempt>, i: nat)
    requires i < |attempts|
    ensures
      var bs := Misleading(attempts, i);
      && SameWaits(attempts, bs) && SameWaits(attempts[..i], bs[..i]) && bs[i] == WithVerdict(attempts[i], false)
      && forall j | 0 <= j < i :: bs[..i][j] == WithVerdict(bs[..i][j], true)
  {
  }

  /** After a given-up wait and accepted messages only, a refused message is taken for an accepted one. */
  lemma LateReadMisreports(before: seq<Attempt>)
    requires Run(before).open && GivenUp(before) > 0
    requires forall j | 0 <= j < |before| :: before[j] == WithVerdict(before[j], true)
    ensures FateOf(Run(before), ReadOne(false)) == FateOf(Run(before), Cut(false)) == Misreported
  {
    AcceptedSoFar(before);
    ReadsLag(before);
    var c := Run(before);
    assert c.verdicts[c.taken] in c.verdicts;
    OlderVerdictCounts(c);
  }

  lemma OlderVerdictCounts(c: Channel)
    requires c.open && c.taken < |c.verdicts| && c.verdicts[c.taken]
    ensures FateOf(c, ReadOne(false)) == FateOf(c, Cut(false)) == Misreported
  {
    assert (c.verdicts + [false])[c.taken] == c.verdicts[c.taken];
  }

  ghost predicate CanMisreport(attempts: seq<Attempt>) {
    exists bs :: SameWaits(attempts, bs) && Misreported in Fates(bs)
  }

  /** Some verdicts of the broker make a publish misreport if and only if the publisher reads on after giving up. */
  lemma MisreportsIffReadsOn(attempts: seq<Attempt>)
    ensures CanMisreport(attempts) <==> !StopsReading(attempts)
  {
    if CanMisreport(attempts) {
      var bs :| SameWaits(attempts, bs) && Misreported in Fates(bs);
      SameWaitsStopAlike(attempts, bs);
      if StopsReading(bs) { FatesAreHonest(bs); }
    }
    if !StopsReading(attempts) {
      var i := FirstLateRead(attempts);
      MisleadingMisreports(attempts, i);
    }
  }

  /** The publisher's channel, read and written in place. */
  class Publisher {
    var verdicts: seq<bool>
    var taken: nat
    var open: bool

    ghost predicate Valid()
      reads this
    {
      taken <= |verdicts|
    }

    ghost function View(): Channel
      reads this
    {
      Channel(verdicts, taken, open)
    }

    constructor ()
      ensures Valid() && View() == NEW_CHANNEL
    {
      verdicts, taken, open := [], 0, true;
    }

    /** Send, then wait for the next confirmation of the stream, the context, or the end of the channel. */
    method PublishWithConfirmation(a: Attempt) returns (ok: bool)
      requires Valid()
      modifies this
      ensures Valid() && View() == After(old(View()), a)
      ensures ok <==> old(open) && (a.ReadOne? || (a.Cut? && old(taken < |verdicts|))) && verdicts[old(taken)]
      ensures ok <==> Reported(FateOf(old(View()), a))
    {
      if a.NotSent? || !open { return false; }
      match a {
        case GaveUp(v) =>
          verdicts := verdicts + [v];
          return false;
        case ReadOne(v) => verdicts := verdicts + [v];
        case Cut(_) =>
          open := false;
          if taken == |verdicts| { return false; }
      }
      ok := verdicts[taken];
      taken := taken + 1;
    }
  }
}
