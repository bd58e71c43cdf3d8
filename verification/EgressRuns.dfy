/** What a message's standing says of the tries made for it, over whole runs: when it was
    last tried, with what answer, how long it waits, and that it is not given up early. */
module EgressRuns {
  import opened Arithmetic
  import opened Sequences
  import opened Wrappers
  import opened EgressRetry

  /** A try made for a message: when, and whether it went through. */
  datatype Try = Try(at: Time, ok: bool)

  /** The try a step makes for the message, if it makes one: its first send, or the
      redelivery of an attempt in hand. With no sender nothing is tried. */
  function TryMade(c: Config, b: Backlog, s: Step, i: nat): Option<Try> {
    match s
    case Send(peer, _, ok, now) => if peer in c.senders && i == |b.peers| then Some(Try(now, ok)) else None
    case Take(_) => None
    case Handle(ok, at) =>
      if b.hand != [] && b.hand[0].id == i && b.hand[0].peer in c.senders then Some(Try(at, ok)) else None
  }

  /** Every try made for the message in the first n steps, in order. */
  function Tries(c: Config, steps: seq<Step>, states: seq<Backlog>, n: nat, i: nat): seq<Try>
    requires n <= |steps| && n <= |states|
  {
    if n == 0 then []
    else
      var made := TryMade(c, states[n - 1], steps[n - 1], i);
      Tries(c, steps, states, n - 1, i) + (if made.Some? then [made.value] else [])
  }

  /** The service band a message was sent in. */
  function BandOf(c: Config, steps: seq<Step>, states: seq<Backlog>, n: nat, i: nat): int
    requires n <= |steps| && n <= |states|
  {
    if n == 0 then 0
    else
      match steps[n - 1]
      case Send(peer, class_, _, _) =>
        if peer in c.senders && i == |states[n - 1].peers| then class_ else BandOf(c, steps, states, n - 1, i)
      case _ => BandOf(c, steps, states, n - 1, i)
  }

  /** How long a message waits when k tries have failed: two seconds unless the peer says
      otherwise, twice as long after each further try, and from the second try on no
      longer than five minutes or what the peer says. */
  function Wait(p: Policy, k: nat): int
    requires k >= 1
  {
    var first, most := if p.initial > 0 then p.initial else 2_000_000_000, if p.max > 0 then p.max else 300_000_000_000;
    if k == 1 then first else Min(first * Pow2(k - 1), most)
  }

  lemma WaitIsBackoff(p: Policy, k: nat)
    requires k >= 1
    ensures BackoffOf(p, k) == Wait(p, k)
  {
    BackoffIsCapped(p, k);
  }

  /** As many tries as the peer allows, eight unless it says, but two at least. */
  function MostTries(p: Policy): nat {
    var n := if p.maxAttempts > 0 then p.maxAttempts else 8;
    if n < 2 then 2 else n
  }

  /** The message waits for its next try: its last failed, and it waits as long after that
      as so many tries call for, in the band it was sent in. */
  predicate Waits(c: Config, a: Attempt, peers: seq<string>, tries: seq<Try>, band: int) {
    && a.id < |peers| && a.peer == peers[a.id] && a.peer in c.senders && a.class_ == band
    && |tries| == a.tries && 1 <= a.tries < MostTries(PolicyOf(c, a.peer)) && !tries[|tries| - 1].ok
    && a.next == tries[|tries| - 1].at + Wait(PolicyOf(c, a.peer), a.tries)
  }

  predicate Untried(tries: seq<Try>) {
    tries == []
  }

  predicate FailedFirst(tries: seq<Try>) {
    tries != [] && !tries[0].ok
  }

  predicate WentThrough(tries: seq<Try>) {
    |tries| > 1 && tries[|tries| - 1].ok
  }

  predicate Exhausted(c: Config, peer: string, tries: seq<Try>) {
    |tries| == MostTries(PolicyOf(c, peer)) && !tries[|tries| - 1].ok
  }

  /** Messages not sent yet have no tries. */
  ghost predicate UntriedFrom(c: Config, steps: seq<Step>, states: seq<Backlog>, n: nat, k: nat)
    requires n <= |steps| && n <= |states|
  {
    forall i: nat | k <= i :: Untried(Tries(c, steps, states, n, i))
  }

  lemma StillUntried(c: Config, steps: seq<Step>, states: seq<Backlog>, n: nat, k: nat, m: nat)
    requires n < |steps| && n < |states| && k <= m && UntriedFrom(c, steps, states, n, k)
    requires forall i: nat | m <= i :: TryMade(c, states[n], steps[n], i).None?
    ensures UntriedFrom(c, steps, states, n + 1, m)
  {
    hide TryMade;
    var later := n + 1;
    forall i: nat | m <= i ensures Untried(Tries(c, steps, states, later, i)) {
      NotTried(c, steps, states, n, i);
      assert Untried(Tries(c, steps, states, n, i));
    }
  }

  /** Where each message stands says how its tries went. */
  ghost predicate Told(c: Config, steps: seq<Step>, states: seq<Backlog>, n: nat)
    requires n <= |steps| && n < |states|
  {
    var b := states[n];
    && (forall a | a in b.queue || a in b.hand :: Waits(c, a, b.peers, Tries(c, steps, states, n, a.id), BandOf(c, steps, states, n, a.id)))
    && (forall i | i in b.sent :: i < |b.peers| && WentThrough(Tries(c, steps, states, n, i)))
    && (forall i | i in b.givenUp :: i < |b.peers| && Exhausted(c, b.peers[i], Tries(c, steps, states, n, i)))
    && UntriedFrom(c, steps, states, n, |b.peers|)
    && (forall i: nat :: i in b.failed <==> FailedFirst(Tries(c, steps, states, n, i)))
  }

  /** One step on, a message that is not tried has had the same tries. */
  lemma NotTried(c: Config, steps: seq<Step>, states: seq<Backlog>, n: nat, i: nat)
    requires n < |steps| && n < |states|
    requires TryMade(c, states[n], steps[n], i).None?
    ensures Tries(c, steps, states, n + 1, i) == Tries(c, steps, states, n, i)
  {
  }

  lemma Tried(c: Config, steps: seq<Step>, states: seq<Backlog>, n: nat, i: nat, t: Try)
    requires n < |steps| && n < |states|
    requires TryMade(c, states[n], steps[n], i) == Some(t)
    ensures Tries(c, steps, states, n + 1, i) == Tries(c, steps, states, n, i) + [t]
  {
  }

  /** Only a first send gives a message its band. */
  lemma SameBand(c: Config, steps: seq<Step>, states: seq<Backlog>, n: nat, i: nat)
    requires n < |steps| && n < |states| && (steps[n].Send? && steps[n].peer in c.senders ==> i != |states[n].peers|)
    ensures BandOf(c, steps, states, n + 1, i) == BandOf(c, steps, states, n, i)
  {
  }

  lemma SendTells(c: Config, steps: seq<Step>, states: seq<Backlog>, n: nat)
    requires IsRun(c, steps, states) && n < |steps| && steps[n].Send? && Told(c, steps, states, n) && Accounted(c, states[n])
    ensures Told(c, steps, states, n + 1)
  {
    hide Tries, BandOf, BackoffOf, Wait, MostTries, PolicyOf, Accounted, Waits, WentThrough, Exhausted;
    var b, next, s := states[n], states[n + 1], steps[n];
    var id := |b.peers|;
    assert next == AfterSend(c, b, s.peer, s.class_, s.ok, s.now);
    forall i: nat | s.peer !in c.senders || i != id
      ensures Tries(c, steps, states, n + 1, i) == Tries(c, steps, states, n, i)
      ensures BandOf(c, steps, states, n + 1, i) == BandOf(c, steps, states, n, i)
    {
      NotTried(c, steps, states, n, i);
      SameBand(c, steps, states, n, i);
    }
    forall a | a in b.queue || a in b.hand
      ensures a.id < |b.peers| && Waits(c, a, next.peers, Tries(c, steps, states, n, a.id), BandOf(c, steps, states, n, a.id))
    {
      StillWaits(c, a, b.peers, next.peers, Tries(c, steps, states, n, a.id), BandOf(c, steps, states, n, a.id));
    }
    StillUntried(c, steps, states, n, |b.peers|, |next.peers|);
    if s.peer in c.senders {
      Tried(c, steps, states, n, id, Try(s.now, s.ok));
      assert Untried(Tries(c, steps, states, n, id));
      assert [] + [Try(s.now, s.ok)] == [Try(s.now, s.ok)];
      FailedKnown(c, b);
      if !s.ok {
        FirstWaits(c, s.peer, s.class_, s.now, b.peers);
        BandGiven(c, steps, states, n);
      }
    }
  }

  lemma FailedKnown(c: Config, b: Backlog)
    requires Accounted(c, b)
    ensures forall i | i in b.failed :: i < |b.peers|
  {
  }

  lemma BandGiven(c: Config, steps: seq<Step>, states: seq<Backlog>, n: nat)
    requires n < |steps| && n < |states| && steps[n].Send? && steps[n].peer in c.senders
    ensures BandOf(c, steps, states, n + 1, |states[n].peers|) == steps[n].class_
  {
  }

  lemma StillWaits(c: Config, a: Attempt, peers: seq<string>, more: seq<string>, tries: seq<Try>, band: int)
    requires Waits(c, a, peers, tries, band) && peers <= more
    ensures a.id < |peers| && Waits(c, a, more, tries, band)
  {
  }

  lemma FirstWaits(c: Config, peer: string, class_: int, now: Time, peers: seq<string>)
    requires peer in c.senders
    ensures Waits(c, Attempt(|peers|, peer, class_, 1, now + BackoffOf(PolicyOf(c, peer), 1)), peers + [peer], [Try(now, false)], class_)
  {
    WaitIsBackoff(PolicyOf(c, peer), 1);
  }

  lemma TakeTells(c: Config, steps: seq<Step>, states: seq<Backlog>, n: nat)
    requires IsRun(c, steps, states) && n < |steps| && steps[n].Take? && Told(c, steps, states, n)
    ensures Told(c, steps, states, n + 1)
  {
    hide Tries, BandOf, Waits, WentThrough, Exhausted, Due, NotDue, ByClass, AfterTake;
    var b, next := states[n], states[n + 1];
    assert next == AfterTake(b, steps[n].now);
    TakeKeepsAll(b, steps[n].now);
    TakeLeaves(b, steps[n].now);
    forall i: nat
      ensures Tries(c, steps, states, n + 1, i) == Tries(c, steps, states, n, i)
      ensures BandOf(c, steps, states, n + 1, i) == BandOf(c, steps, states, n, i)
    {
      NotTried(c, steps, states, n, i);
      SameBand(c, steps, states, n, i);
    }
    StillUntried(c, steps, states, n, |b.peers|, |b.peers|);
  }

  lemma HandleTells(c: Config, steps: seq<Step>, states: seq<Backlog>, n: nat)
    requires IsRun(c, steps, states) && n < |steps| && steps[n].Handle? && Told(c, steps, states, n) && Accounted(c, states[n])
    ensures Told(c, steps, states, n + 1)
  {
    hide Tries, BandOf, BackoffOf, Wait, MostTries, PolicyOf, Accounted, WentThrough, Exhausted;
    var b, next, s := states[n], states[n + 1], steps[n];
    var a := b.hand[0];
    assert CanStep(b, s) && next == AfterHandle(c, b, s.ok, s.at);
    assert a in b.hand && Waits(c, a, b.peers, Tries(c, steps, states, n, a.id), BandOf(c, steps, states, n, a.id));
    Tried(c, steps, states, n, a.id, Try(s.at, s.ok));
    forall i: nat ensures BandOf(c, steps, states, n + 1, i) == BandOf(c, steps, states, n, i) {
      SameBand(c, steps, states, n, i);
    }
    forall i: nat | i != a.id ensures Tries(c, steps, states, n + 1, i) == Tries(c, steps, states, n, i) {
      NotTried(c, steps, states, n, i);
    }
    StillUntried(c, steps, states, n, |b.peers|, |b.peers|);
    OnlyInHand(c, b);
    forall x | x in b.queue || x in b.hand[1..] ensures x.id != a.id && (x in b.queue || x in b.hand) {
      OtherInHand(b, x);
    }
    TriedAgain(c, a, b.peers, Tries(c, steps, states, n, a.id), BandOf(c, steps, states, n, a.id), Try(s.at, s.ok));
  }

  /** What the next try makes of an attempt. */
  lemma TriedAgain(c: Config, a: Attempt, peers: seq<string>, tries: seq<Try>, band: int, t: Try)
    requires Waits(c, a, peers, tries, band)
    ensures t.ok ==> WentThrough(tries + [t])
    ensures !t.ok && a.tries + 1 >= AttemptsOf(PolicyOf(c, a.peer)) ==> Exhausted(c, a.peer, tries + [t])
    ensures !t.ok && a.tries + 1 < AttemptsOf(PolicyOf(c, a.peer)) ==>
              Waits(c, a.(tries := a.tries + 1, next := t.at + BackoffOf(PolicyOf(c, a.peer), a.tries + 1)), peers, tries + [t], band)
    ensures FailedFirst(tries + [t]) <==> FailedFirst(tries)
  {
    hide BackoffOf, Wait;
    WaitIsBackoff(PolicyOf(c, a.peer), a.tries + 1);
  }

  /** The message in hand stands nowhere else. */
  lemma OnlyInHand(c: Config, b: Backlog)
    requires Accounted(c, b) && b.hand != []
    ensures Standing(b)[b.hand[0].id] <= 1
    ensures b.hand[0].id !in b.sent && b.hand[0].id !in b.givenUp
  {
    var a := b.hand[0];
    IdsHave(b.hand, a);
    assert Standing(b)[a.id] <= 1;
  }

  lemma {:induction false} EveryRunTells(c: Config, steps: seq<Step>, states: seq<Backlog>, n: nat)
    requires IsRun(c, steps, states) && n < |states|
    ensures Told(c, steps, states, n)
    decreases n
  {
    hide Told, Accounted, AfterSend, AfterTake, AfterHandle;
    if n == 0 {
      NothingTold(c, steps, states);
    } else {
      EveryRunTells(c, steps, states, n - 1);
      EveryRunAccounts(c, steps, states, n - 1);
      match steps[n - 1]
      case Send(_, _, _, _) => SendTells(c, steps, states, n - 1);
      case Take(_) => TakeTells(c, steps, states, n - 1);
      case Handle(_, _) => HandleTells(c, steps, states, n - 1);
    }
  }

  lemma NothingTold(c: Config, steps: seq<Step>, states: seq<Backlog>)
    requires IsRun(c, steps, states)
    ensures Told(c, steps, states, 0)
  {
  }

  /** At every moment of every run: a message queued or in hand was last tried in vain, and
      is due as long after that as its tries so far call for, never later and never
      earlier; one that is through after a failure went through on its last try; one given
      up had every try its peer allows, and the last was in vain; and those are the
      messages whose first send failed. */
  lemma StandingTells(c: Config, steps: seq<Step>, states: seq<Backlog>, n: nat, i: nat, a: Attempt)
    requires IsRun(c, steps, states) && n < |states|
    ensures var b, tries := states[n], Tries(c, steps, states, n, i);
            && (a.id == i && (a in b.queue || a in b.hand) ==> Waits(c, a, b.peers, tries, BandOf(c, steps, states, n, i)))
            && (i in b.sent ==> WentThrough(tries))
            && (i in b.givenUp ==> i < |b.peers| && Exhausted(c, b.peers[i], tries))
            && (i in b.failed <==> FailedFirst(tries))
  {
    hide Waits, WentThrough, Exhausted, IsRun;
    EveryRunTells(c, steps, states, n);
  }
}
