/** Redelivery: messages whose first send failed wait out a growing backoff, go out again
    most urgent first, and are given up on after so many tries. */
module EgressRetry {
  import opened Arithmetic
  import opened Sequences

  type Time = int

  /** Of a peer; a number that is not positive means the default. Times in nanoseconds. */
  datatype Policy = Policy(initial: int, max: int, maxAttempts: int)

  const SECOND := 1_000_000_000

  function InitialOf(p: Policy): int {
    if p.initial <= 0 then 2 * SECOND else p.initial
  }

  function MaxOf(p: Policy): int {
    if p.max <= 0 then 300 * SECOND else p.max
  }

  function AttemptsOf(p: Policy): nat {
    if p.maxAttempts > 0 then p.maxAttempts else 8
  }

  const UNSET := Policy(0, 0, 0)

  /** Peers without a policy get the defaults; a message to a peer without a sender has no route. */
  datatype Config = Config(policies: map<string, Policy>, senders: set<string>)

  function PolicyOf(c: Config, peer: string): Policy {
    if peer in c.policies then c.policies[peer] else UNSET
  }

  // ---------------------------------------------------------------- backoff

  function Doubled(d: int, max: int, times: nat): int
    decreases times
  {
    if times == 0 then d else if 2 * d >= max then max else Doubled(2 * d, max, times - 1)
  }

  /** The wait before the next try when `tries` have failed. */
  function BackoffOf(p: Policy, tries: int): int {
    Doubled(InitialOf(p), MaxOf(p), if tries > 1 then tries - 1 else 0)
  }

  function Pow2(n: nat): nat {
    if n == 0 then 1 else 2 * Pow2(n - 1)
  }

  lemma PowerDoubles(d: int, times: nat)
    ensures d * Pow2(times) == if times == 0 then d else 2 * d * Pow2(times - 1)
  {
  }

  lemma AtLeast(d: int, times: nat)
    requires d > 0
    ensures d * Pow2(times) >= d
  {
    PowerIsPositive(times);
  }

  lemma {:induction false} DoubledIsPower(d: int, max: int, times: nat)
    requires 0 < d <= max
    ensures Doubled(d, max, times) == Min(d * Pow2(times), max)
    decreases times
  {
    hide Pow2;
    PowerDoubles(d, times);
    if times > 0 {
      if 2 * d >= max {
        AtLeast(2 * d, times - 1);
      } else {
        DoubledIsPower(2 * d, max, times - 1);
      }
    }
  }

  lemma {:induction false} PowerIsPositive(n: nat)
    ensures Pow2(n) >= 1
    decreases n
  {
    if n > 0 {
      PowerIsPositive(n - 1);
    }
  }

  /** The wait after k failed tries is the initial wait doubled k - 1 times, capped, exactly
      when the initial wait is within the cap or has been doubled at all: the first wait is
      never capped. */
  lemma BackoffIsCapped(p: Policy, k: nat)
    requires k >= 1
    ensures BackoffOf(p, k) == Min(InitialOf(p) * Pow2(k - 1), MaxOf(p)) <==> (InitialOf(p) <= MaxOf(p) || k > 1)
  {
    if InitialOf(p) <= MaxOf(p) {
      DoubledIsPower(InitialOf(p), MaxOf(p), k - 1);
    } else if k > 1 {
      PowerIsPositive(k - 2);
      assert Pow2(k - 1) >= 2;
      assert InitialOf(p) * Pow2(k - 1) >= InitialOf(p);
    }
  }

  // ---------------------------------------------------------------- the backlog

  /** A message waiting for redelivery. The class is its service band, lower more urgent. */
  datatype Attempt = Attempt(id: nat, peer: string, class_: int, tries: nat, next: Time)

  /** The queue, the attempts a drain has taken in hand, every message's peer, every send
      made in order, and how messages whose first send failed have ended. */
  datatype Backlog = Backlog(queue: seq<Attempt>, hand: seq<Attempt>, peers: seq<string>, sends: seq<nat>,
                             failed: set<nat>, sent: seq<nat>, givenUp: seq<nat>)

  const EMPTY := Backlog([], [], [], [], {}, [], [])

  /** A first send; a failure is queued for retry. With no route nothing is sent or queued. */
  function AfterSend(c: Config, b: Backlog, peer: string, class_: int, ok: bool, now: Time): Backlog {
    if peer !in c.senders then b
    else
      var id := |b.peers|;
      var tried := b.(peers := b.peers + [peer], sends := b.sends + [id]);
      if ok then tried
      else
        tried.(failed := b.failed + {id},
               queue := b.queue + [Attempt(id, peer, class_, 1, now + BackoffOf(PolicyOf(c, peer), 1))])
  }

  function Due(queue: seq<Attempt>, now: Time): seq<Attempt> {
    if queue == [] then []
    else Due(queue[..|queue| - 1], now) + (if queue[|queue| - 1].next > now then [] else [queue[|queue| - 1]])
  }

  function NotDue(queue: seq<Attempt>, now: Time): seq<Attempt> {
    if queue == [] then []
    else NotDue(queue[..|queue| - 1], now) + (if queue[|queue| - 1].next > now then [queue[|queue| - 1]] else [])
  }

  /** Where a stable sort puts one more: behind everyone at least as urgent. */
  function PlaceByClass(order: seq<Attempt>, a: Attempt): (k: nat)
    ensures k <= |order|
    ensures forall j | k <= j < |order| :: a.class_ < order[j].class_
    ensures k > 0 ==> order[k - 1].class_ <= a.class_
  {
    if order == [] || order[|order| - 1].class_ <= a.class_ then |order| else PlaceByClass(order[..|order| - 1], a)
  }

  function ByClass(due: seq<Attempt>): seq<Attempt> {
    if due == [] then []
    else
      var order, a := ByClass(due[..|due| - 1]), due[|due| - 1];
      var k := PlaceByClass(order, a);
      order[..k] + [a] + order[k..]
  }

  /** A drain takes what is due in hand, most urgent first. */
  function AfterTake(b: Backlog, now: Time): Backlog {
    b.(queue := NotDue(b.queue, now), hand := ByClass(Due(b.queue, now)))
  }

  /** The first attempt in hand is made again, with the answer it gets and when. */
  function AfterHandle(c: Config, b: Backlog, ok: bool, at: Time): Backlog
    requires b.hand != []
  {
    var a := b.hand[0];
    var rest := b.(hand := b.hand[1..]);
    if a.peer !in c.senders then rest.(givenUp := b.givenUp + [a.id])
    else
      var tried := rest.(sends := b.sends + [a.id]);
      if ok then tried.(sent := b.sent + [a.id])
      else if a.tries + 1 >= AttemptsOf(PolicyOf(c, a.peer)) then tried.(givenUp := b.givenUp + [a.id])
      else
        tried.(queue := b.queue + [a.(tries := a.tries + 1, next := at + BackoffOf(PolicyOf(c, a.peer), a.tries + 1))])
  }

  /** What can happen next: a send at any time, a drain once the last is through, or the
      next redelivery of the drain in progress. */
  datatype Step = Send(peer: string, class_: int, ok: bool, now: Time) | Take(now: Time) | Handle(ok: bool, at: Time)

  predicate CanStep(b: Backlog, s: Step) {
    match s
    case Send(_, _, _, _) => true
    case Take(_) => b.hand == []
    case Handle(_, _) => b.hand != []
  }

  function AfterStep(c: Config, b: Backlog, s: Step): Backlog
    requires CanStep(b, s)
  {
    match s
    case Send(peer, class_, ok, now) => AfterSend(c, b, peer, class_, ok, now)
    case Take(now) => AfterTake(b, now)
    case Handle(ok, at) => AfterHandle(c, b, ok, at)
  }

  /** Any run of sends and drains, interleaved. */
  predicate IsRun(c: Config, steps: seq<Step>, states: seq<Backlog>) {
    && |states| == |steps| + 1 && states[0] == EMPTY
    && forall i | 0 <= i < |steps| :: CanStep(states[i], steps[i]) && states[i + 1] == AfterStep(c, states[i], steps[i])
  }

  // ---------------------------------------------------------------- the router

  class Router {
    const config: Config
    var queue: seq<Attempt>
    var peers: seq<string>
    var sends: seq<nat>
    var failed: set<nat>
    var sent: seq<nat>
    var givenUp: seq<nat>

    /** The backlog while a drain holds the given attempts. */
    function View(hand: seq<Attempt>): Backlog
      reads this
    {
      Backlog(queue, hand, peers, sends, failed, sent, givenUp)
    }

    constructor (config: Config)
      ensures this.config == config && View([]) == EMPTY
    {
      this.config := config;
      queue, peers, sends, failed, sent, givenUp := [], [], [], {}, [], [];
    }

    method Backoff(peer: string, tries: int) returns (d: int)
      ensures d == BackoffOf(PolicyOf(config, peer), tries)
    {
      var p := PolicyOf(config, peer);
      d := InitialOf(p);
      var max := MaxOf(p);
      for i := 1 to if tries > 1 then tries else 1
        invariant BackoffOf(p, tries) == Doubled(d, max, (if tries > 1 then tries else 1) - i)
      {
        d := d * 2;
        if d >= max {
          return max;
        }
      }
    }

    method SendMessage(peer: string, class_: int, ok: bool, now: Time)
      modifies this
      ensures forall hand :: View(hand) == AfterSend(config, old(View(hand)), peer, class_, ok, now)
    {
      hide BackoffOf;
      if peer !in config.senders {
        return;
      }
      var id := |peers|;
      peers, sends := peers + [peer], sends + [id];
      if !ok {
        failed := failed + {id};
        var wait := Backoff(peer, 1);
        queue := queue + [Attempt(id, peer, class_, 1, now + wait)];
      }
    }

    method Split(now: Time) returns (due: seq<Attempt>)
      modifies this
      ensures due == Due(old(queue), now) && View([]) == old(View([])).(queue := NotDue(old(queue), now))
    {
      due := [];
      var keep: seq<Attempt> := [];
      for i := 0 to |queue|
        invariant View([]) == old(View([])) && due == Due(queue[..i], now) && keep == NotDue(queue[..i], now)
      {
        ghost var sofar := queue[..i + 1];
        assert sofar[..i] == queue[..i] && sofar[i] == queue[i];
        if queue[i].next > now {
          keep := keep + [queue[i]];
        } else {
          due := due + [queue[i]];
        }
      }
      assert queue[..|queue|] == queue;
      queue := keep;
    }

    /** Makes the first attempt in hand again. */
    method Redeliver(hand: seq<Attempt>, ok: bool, at: Time)
      requires hand != []
      modifies this
      ensures View(hand[1..]) == AfterHandle(config, old(View(hand)), ok, at)
    {
      hide BackoffOf;
      var a := hand[0];
      if a.peer !in config.senders {
        givenUp := givenUp + [a.id];
        return;
      }
      sends := sends + [a.id];
      if ok {
        sent := sent + [a.id];
        return;
      }
      if a.tries + 1 >= AttemptsOf(PolicyOf(config, a.peer)) {
        givenUp := givenUp + [a.id];
        return;
      }
      var wait := Backoff(a.peer, a.tries + 1);
      queue := queue + [a.(tries := a.tries + 1, next := at + wait)];
    }

    /** One drain with nothing else going on: what is due, in band order, each once. */
    method Drain(now: Time, answers: nat -> (bool, Time))
      modifies this
      ensures View([]) == Drained(config, AfterTake(old(View([])), now), answers, 0)
    {
      hide AfterHandle, Due, NotDue;
      var due := Split(now);
      var hand := SortByClass(due);
      ghost var start := View(hand);
      for i := 0 to |hand|
        invariant Drained(config, View(hand[i..]), answers, i) == Drained(config, start, answers, 0)
      {
        assert hand[i..][1..] == hand[i + 1..];
        Redeliver(hand[i..], answers(i).0, answers(i).1);
      }
      assert hand[|hand|..] == [];
    }
  }

  lemma HandShrinks(c: Config, b: Backlog, ok: bool, at: Time)
    requires b.hand != []
    ensures AfterHandle(c, b, ok, at).hand == b.hand[1..]
  {
  }

  /** Handling everything in hand, in order. */
  function Drained(c: Config, b: Backlog, answers: nat -> (bool, Time), i: nat): Backlog
    decreases |b.hand|
  {
    if b.hand == [] then b
    else
      HandShrinks(c, b, answers(i).0, answers(i).1);
      Drained(c, AfterHandle(c, b, answers(i).0, answers(i).1), answers, i + 1)
  }

  /** Where one more goes: a stable insertion. */
  method PlaceInOrder(order: seq<Attempt>, a: Attempt) returns (k: nat)
    ensures k == PlaceByClass(order, a)
  {
    k := |order|;
    assert order[..k] == order;
    while k > 0 && order[k - 1].class_ > a.class_
      invariant k <= |order| && PlaceByClass(order, a) == PlaceByClass(order[..k], a)
    {
      assert order[..k][..k - 1] == order[..k - 1] && order[..k][k - 1] == order[k - 1];
      k := k - 1;
    }
    assert k > 0 ==> order[..k][k - 1] == order[k - 1];
  }

  method SortByClass(due: seq<Attempt>) returns (order: seq<Attempt>)
    ensures order == ByClass(due)
  {
    hide PlaceByClass;
    order := [];
    for i := 0 to |due|
      invariant order == ByClass(due[..i])
    {
      ghost var sofar := due[..i + 1];
      assert sofar[..i] == due[..i] && sofar[i] == due[i];
      var k := PlaceInOrder(order, due[i]);
      order := order[..k] + [due[i]] + order[k..];
    }
    assert due[..|due|] == due;
  }

  // ---------------------------------------------------------------- band order

  /** The attempts of one band, in order. */
  function Band(xs: seq<Attempt>, class_: int): seq<Attempt> {
    if xs == [] then []
    else Band(xs[..|xs| - 1], class_) + (if xs[|xs| - 1].class_ == class_ then [xs[|xs| - 1]] else [])
  }

  predicate InBandOrder(xs: seq<Attempt>) {
    forall i, j | 0 <= i < j < |xs| :: xs[i].class_ <= xs[j].class_
  }

  lemma {:induction false} BandConcat(xs: seq<Attempt>, ys: seq<Attempt>, class_: int)
    ensures Band(xs + ys, class_) == Band(xs, class_) + Band(ys, class_)
    decreases |ys|
  {
    if ys == [] {
      assert xs + ys == xs;
    } else {
      var init, last := ys[..|ys| - 1], if ys[|ys| - 1].class_ == class_ then [ys[|ys| - 1]] else [];
      assert (xs + ys)[..|xs| + |ys| - 1] == xs + init;
      BandConcat(xs, init, class_);
      AddAssoc(Band(xs, class_), Band(init, class_), last);
    }
  }

  lemma {:induction false} BandOfOthers(xs: seq<Attempt>, class_: int)
    requires forall i | 0 <= i < |xs| :: xs[i].class_ != class_
    ensures Band(xs, class_) == []
    decreases |xs|
  {
    if xs != [] {
      BandOfOthers(xs[..|xs| - 1], class_);
    }
  }

  lemma BandOfOne(a: Attempt, class_: int)
    ensures Band([a], class_) == if a.class_ == class_ then [a] else []
  {
    assert [a][..0] == [];
    assert Band([a][..0], class_) == [];
  }

  lemma PlacedInOrder(order: seq<Attempt>, a: Attempt)
    requires InBandOrder(order)
    ensures var k := PlaceByClass(order, a); InBandOrder(order[..k] + [a] + order[k..])
  {
    hide PlaceByClass;
    var k := PlaceByClass(order, a);
    assert forall j | 0 <= j < k :: order[j].class_ <= order[k - 1].class_ || j == k - 1;
  }

  /** Nobody of its own band stands behind the place. */
  lemma PlacedInBand(order: seq<Attempt>, a: Attempt, class_: int)
    ensures var k := PlaceByClass(order, a);
            Band(order[..k] + [a] + order[k..], class_) == Band(order, class_) + (if a.class_ == class_ then [a] else [])
  {
    hide Band, PlaceByClass;
    var k := PlaceByClass(order, a);
    var x, y := order[..k], order[k..];
    assert order == x + y;
    BandConcat(x + [a], y, class_);
    BandConcat(x, [a], class_);
    BandConcat(x, y, class_);
    BandOfOne(a, class_);
    if a.class_ == class_ {
      BandOfOthers(y, class_);
    }
  }

  lemma {:induction false} ByClassIsStable(due: seq<Attempt>, class_: int)
    ensures InBandOrder(ByClass(due)) && Band(ByClass(due), class_) == Band(due, class_)
    decreases |due|
  {
    hide InBandOrder, PlaceByClass;
    if due == [] {
      NobodyInOrder();
    } else {
      ByClassIsStable(due[..|due| - 1], class_);
      PlacedInOrder(ByClass(due[..|due| - 1]), due[|due| - 1]);
      PlacedInBand(ByClass(due[..|due| - 1]), due[|due| - 1], class_);
    }
  }

  lemma NobodyInOrder()
    ensures InBandOrder([])
  {
  }

  /** A drain goes out most urgent band first and, within each band, in queue order; it
      takes exactly the attempts whose wait is over. */
  lemma DrainGoesOutInBandOrder(b: Backlog, now: Time, class_: int)
    ensures var next := AfterTake(b, now);
            && InBandOrder(next.hand)
            && Band(next.hand, class_) == Band(Due(b.queue, now), class_)
            && (forall a | a in Due(b.queue, now) :: a.next <= now) && (forall a | a in next.queue :: a.next > now)
            && multiset(Due(b.queue, now)) + multiset(next.queue) == multiset(b.queue)
  {
    ByClassIsStable(Due(b.queue, now), class_);
    SplitKeepsAll(b.queue, now);
  }

  lemma {:induction false} SplitKeepsAll(queue: seq<Attempt>, now: Time)
    ensures forall a | a in Due(queue, now) :: a.next <= now
    ensures forall a | a in NotDue(queue, now) :: a.next > now
    ensures multiset(Due(queue, now)) + multiset(NotDue(queue, now)) == multiset(queue)
    decreases |queue|
  {
    if queue != [] {
      var init, a := queue[..|queue| - 1], queue[|queue| - 1];
      SplitKeepsAll(init, now);
      assert queue == init + [a];
    }
  }

  // ---------------------------------------------------------------- accounting

  function Ids(xs: seq<Attempt>): multiset<nat> {
    if xs == [] then multiset{} else Ids(xs[..|xs| - 1]) + multiset{xs[|xs| - 1].id}
  }

  /** Where every failed message stands, with multiplicity. */
  function Standing(b: Backlog): multiset<nat> {
    Ids(b.queue) + Ids(b.hand) + multiset(b.sent) + multiset(b.givenUp)
  }

  /** The tries a message can get: a limit of one still allows a second, because the first
      send is not counted against it. */
  function LimitFor(c: Config, peer: string): nat {
    var n := AttemptsOf(PolicyOf(c, peer));
    if n < 2 then 2 else n
  }

  predicate Underway(c: Config, b: Backlog, a: Attempt) {
    && a.id < |b.peers| && a.peer == b.peers[a.id]
    && 1 <= a.tries < LimitFor(c, a.peer) && a.tries == multiset(b.sends)[a.id]
  }

  /** Each failed message is in exactly one place, has been tried as often as its attempt
      says, and no message has been tried more often than allowed. */
  ghost predicate Accounted(c: Config, b: Backlog) {
    && (forall i: nat :: i in b.failed ==> i < |b.peers|)
    && (forall i: nat :: Standing(b)[i] == if i in b.failed then 1 else 0)
    && (forall a | a in b.queue || a in b.hand :: Underway(c, b, a))
    && (forall i: nat :: multiset(b.sends)[i] <= if i < |b.peers| then LimitFor(c, b.peers[i]) else 0)
  }

  lemma {:induction false} IdsConcat(xs: seq<Attempt>, ys: seq<Attempt>)
    ensures Ids(xs + ys) == Ids(xs) + Ids(ys)
    decreases |ys|
  {
    if ys == [] {
      assert xs + ys == xs;
    } else {
      assert (xs + ys)[..|xs| + |ys| - 1] == xs + ys[..|ys| - 1];
      IdsConcat(xs, ys[..|ys| - 1]);
    }
  }

  lemma IdsOne(a: Attempt)
    ensures Ids([a]) == multiset{a.id}
  {
    assert [a][..0] == [];
    assert Ids([a][..0]) == multiset{};
  }

  /** Sorting keeps everyone. */
  lemma {:induction false} ByClassKeepsAll(due: seq<Attempt>)
    ensures Ids(ByClass(due)) == Ids(due) && forall a :: a in ByClass(due) <==> a in due
    decreases |due|
  {
    hide PlaceByClass, Ids;
    if due != [] {
      var init, a := due[..|due| - 1], due[|due| - 1];
      ByClassKeepsAll(init);
      PlacingKeepsAll(ByClass(init), a, PlaceByClass(ByClass(init), a));
      assert due == init + [a];
      IdsConcat(init, [a]);
    }
  }

  lemma PlacingKeepsAll(order: seq<Attempt>, a: Attempt, k: nat)
    requires k <= |order|
    ensures Ids(order[..k] + [a] + order[k..]) == Ids(order) + Ids([a])
    ensures forall x :: x in order[..k] + [a] + order[k..] <==> x in order || x == a
  {
    hide Ids;
    var x, y := order[..k], order[k..];
    assert order == x + y;
    IdsConcat(x + [a], y);
    IdsConcat(x, [a]);
    IdsConcat(x, y);
  }

  lemma IdsSnoc(xs: seq<Attempt>, a: Attempt)
    ensures Ids(xs + [a]) == Ids(xs) + multiset{a.id}
  {
    assert (xs + [a])[..|xs|] == xs;
  }

  /** So does splitting off what is due. */
  lemma {:induction false} SplitKeepsIds(queue: seq<Attempt>, now: Time)
    ensures Ids(NotDue(queue, now)) + Ids(Due(queue, now)) == Ids(queue)
    decreases |queue|
  {
    hide Ids;
    if queue == [] {
      assert Ids([]) + Ids([]) == Ids([]) by {
        NoIds();
      }
    } else {
      var init, a := queue[..|queue| - 1], queue[|queue| - 1];
      var keep, due := NotDue(init, now), Due(init, now);
      SplitKeepsIds(init, now);
      assert queue == init + [a] && keep + [] == keep && due + [] == due;
      IdsSnoc(init, a);
      if a.next > now {
        IdsSnoc(keep, a);
      } else {
        IdsSnoc(due, a);
      }
    }
  }

  lemma {:induction false} SplitMembers(queue: seq<Attempt>, now: Time, x: Attempt)
    ensures x in NotDue(queue, now) || x in Due(queue, now) <==> x in queue
    decreases |queue|
  {
    if queue != [] {
      var init, a := queue[..|queue| - 1], queue[|queue| - 1];
      SplitMembers(init, now, x);
      assert x in queue <==> x in init || x == a;
    }
  }

  lemma TakeKeepsAll(b: Backlog, now: Time)
    ensures var next := AfterTake(b, now);
            && Ids(next.queue) + Ids(next.hand) == Ids(b.queue)
            && forall a :: a in next.queue || a in next.hand <==> a in b.queue
  {
    hide ByClass, Due, NotDue, Ids;
    SplitKeepsIds(b.queue, now);
    ByClassKeepsAll(Due(b.queue, now));
    forall a ensures a in NotDue(b.queue, now) || a in Due(b.queue, now) <==> a in b.queue {
      SplitMembers(b.queue, now, a);
    }
  }

  lemma TakeAccounts(c: Config, b: Backlog, now: Time)
    requires Accounted(c, b) && b.hand == []
    ensures Accounted(c, AfterTake(b, now))
  {
    hide Ids, Due, NotDue, ByClass, AfterTake;
    TakeKeepsAll(b, now);
    TakeLeaves(b, now);
    var next := AfterTake(b, now);
    NoIds();
    assert Standing(next) == Standing(b);
    forall a | a in next.queue || a in next.hand ensures Underway(c, next, a) {
      assert Underway(c, b, a);
    }
  }

  lemma NoIds()
    ensures Ids([]) == multiset{}
  {
  }

  lemma TakeLeaves(b: Backlog, now: Time)
    ensures AfterTake(b, now) == b.(queue := AfterTake(b, now).queue, hand := AfterTake(b, now).hand)
  {
  }

  lemma SendAccounts(c: Config, b: Backlog, peer: string, class_: int, ok: bool, now: Time)
    requires Accounted(c, b)
    ensures Accounted(c, AfterSend(c, b, peer, class_, ok, now))
  {
    hide Ids, BackoffOf, LimitFor, PolicyOf;
    LimitMeans(c, peer);
    var next, id := AfterSend(c, b, peer, class_, ok, now), |b.peers|;
    if peer in c.senders {
      assert id !in b.failed;
      assert multiset(b.sends)[id] == 0;
      assert multiset(next.sends) == multiset(b.sends) + multiset{id};
      if !ok {
        var a := next.queue[|b.queue|];
        IdsConcat(b.queue, [a]);
        IdsOne(a);
        assert Standing(next) == Standing(b) + multiset{id};
      } else {
        assert Standing(next) == Standing(b);
      }
      forall a | a in b.queue || a in b.hand ensures Underway(c, next, a) {
        assert Underway(c, b, a);
      }
    }
  }

  /** An ID in hand is nowhere else. */
  lemma HandleAccounts(c: Config, b: Backlog, ok: bool, at: Time)
    requires Accounted(c, b) && b.hand != []
    ensures Accounted(c, AfterHandle(c, b, ok, at))
  {
    hide Ids, BackoffOf, LimitFor, Standing, PolicyOf;
    var next, a := AfterHandle(c, b, ok, at), b.hand[0];
    assert a in b.hand && Underway(c, b, a);
    assert b.hand == [a] + b.hand[1..];
    IdsConcat([a], b.hand[1..]);
    IdsOne(a);
    HandleStanding(c, b, ok, at);
    LimitMeans(c, a.peer);
    HandleSends(c, b, ok, at);
    forall x | x in next.queue || x in next.hand ensures Underway(c, next, x) {
      if x in b.queue || x in b.hand[1..] {
        OtherInHand(b, x);
        assert Underway(c, b, x);
      }
    }
  }

  lemma LimitMeans(c: Config, peer: string)
    ensures LimitFor(c, peer) >= 2 && LimitFor(c, peer) >= AttemptsOf(PolicyOf(c, peer))
  {
  }

  lemma HandleSends(c: Config, b: Backlog, ok: bool, at: Time)
    requires b.hand != []
    ensures var a := b.hand[0];
            multiset(AfterHandle(c, b, ok, at).sends)
            == if a.peer in c.senders then multiset(b.sends) + multiset{a.id} else multiset(b.sends)
  {
    hide BackoffOf;
  }

  lemma HandleStanding(c: Config, b: Backlog, ok: bool, at: Time)
    requires b.hand != []
    ensures Standing(AfterHandle(c, b, ok, at)) == Standing(b)
  {
    hide Ids, BackoffOf;
    var next, a := AfterHandle(c, b, ok, at), b.hand[0];
    assert b.hand == [a] + b.hand[1..];
    IdsConcat([a], b.hand[1..]);
    IdsOne(a);
    if |next.queue| > |b.queue| {
      var again := next.queue[|b.queue|];
      assert next.queue == b.queue + [again];
      IdsConcat(b.queue, [again]);
      IdsOne(again);
    }
  }

  lemma {:induction false} IdsHave(xs: seq<Attempt>, x: Attempt)
    requires x in xs
    ensures Ids(xs)[x.id] >= 1
    decreases |xs|
  {
    if x != xs[|xs| - 1] {
      assert x in xs[..|xs| - 1];
      IdsHave(xs[..|xs| - 1], x);
    }
  }

  /** Nothing else waiting has the ID of the first in hand. */
  lemma OtherInHand(b: Backlog, x: Attempt)
    requires b.hand != [] && (x in b.queue || x in b.hand[1..]) && Standing(b)[b.hand[0].id] <= 1
    ensures x.id != b.hand[0].id
  {
    hide Ids;
    var a := b.hand[0];
    assert b.hand == [a] + b.hand[1..];
    IdsConcat([a], b.hand[1..]);
    IdsOne(a);
    if x in b.queue {
      IdsHave(b.queue, x);
    } else {
      IdsHave(b.hand[1..], x);
    }
  }

  lemma {:induction false} EveryRunAccounts(c: Config, steps: seq<Step>, states: seq<Backlog>, n: nat)
    requires IsRun(c, steps, states) && n < |states|
    ensures Accounted(c, states[n])
    decreases n
  {
    hide Accounted, AfterSend, AfterTake, AfterHandle;
    if n == 0 {
      NothingYet(c);
    } else {
      EveryRunAccounts(c, steps, states, n - 1);
      var b := states[n - 1];
      match steps[n - 1]
      case Send(peer, class_, ok, now) => SendAccounts(c, b, peer, class_, ok, now);
      case Take(now) => TakeAccounts(c, b, now);
      case Handle(ok, at) => HandleAccounts(c, b, ok, at);
    }
  }

  lemma NothingYet(c: Config)
    ensures Accounted(c, EMPTY)
  {
  }

  /** At every moment of every run each message whose first send failed is in exactly one
      of queued, in hand, sent or given up, nothing else is, and every message has been
      tried within its peer's limit, unless that limit is one. */
  lemma ExactlyOnePlace(c: Config, steps: seq<Step>, states: seq<Backlog>, n: nat, i: nat)
    requires IsRun(c, steps, states) && n < |states|
    ensures var b := states[n];
            && Ids(b.queue)[i] + Ids(b.hand)[i] + multiset(b.sent)[i] + multiset(b.givenUp)[i]
               == (if i in b.failed then 1 else 0)
            && (i < |b.peers| && AttemptsOf(PolicyOf(c, b.peers[i])) >= 2 ==>
                  multiset(b.sends)[i] <= AttemptsOf(PolicyOf(c, b.peers[i])))
            && (i < |b.peers| ==> multiset(b.sends)[i] <= LimitFor(c, b.peers[i]))
  {
    hide IsRun, Ids;
    EveryRunAccounts(c, steps, states, n);
    assert Standing(states[n])[i] == if i in states[n].failed then 1 else 0;
  }

  lemma OneIsDue(a: Attempt, now: Time)
    requires a.next <= now
    ensures Due([a], now) == [a] && NotDue([a], now) == [] && ByClass([a]) == [a]
  {
    assert [a][..0] == [];
    assert Due([a][..0], now) == [] && NotDue([a][..0], now) == [] && ByClass([a][..0]) == [];
  }

  /** A limit of one is exceeded: the first failure is always queued, and tried again. */
  lemma LimitOfOneIsTwo(c: Config, peer: string, class_: int, now: Time)
    requires peer in c.senders && AttemptsOf(PolicyOf(c, peer)) == 1
    ensures var later := now + BackoffOf(PolicyOf(c, peer), 1);
            var taken := AfterTake(AfterSend(c, EMPTY, peer, class_, false, now), later);
            && taken.hand != []
            && AfterHandle(c, taken, false, later).sends == [0, 0] && AfterHandle(c, taken, false, later).givenUp == [0]
  {
    hide BackoffOf, Due, NotDue, ByClass, PolicyOf;
    var later := now + BackoffOf(PolicyOf(c, peer), 1);
    var a := Attempt(0, peer, class_, 1, later);
    OneIsDue(a, later);
    assert AfterSend(c, EMPTY, peer, class_, false, now).queue == [a];
  }
}
