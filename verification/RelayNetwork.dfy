/** A network of relaying switches carrying one message: a bag of copies in flight
    over an acyclic graph of trunks, delivered in any order. */
module RelayNetwork {
  import opened Wrappers
  import opened Text
  import opened Sequences
  import opened RelayGateway
  import opened RelayWalks

  /** The switches, their routes, and for each trunk the link record at either end. */
  datatype Net = Net(routes: map<Switch, Routes>, trunks: map<Switch, map<Switch, Peer>>)

  function GraphOf(net: Net): Graph {
    map s | s in net.trunks :: net.trunks[s].Keys
  }

  /** The message as every switch sees it: the bytes, address line included, are
      never rewritten. The origin is in normal form. */
  datatype Message = Message(origin: string, line: seq<string>)

  predicate Wanted(m: Message, a: string) {
    a in m.line && Normalise(a) != m.origin
  }

  // ---------------------------------------------------------------- the network is sound

  /** One link record per trunk, each with its own name. */
  ghost predicate Linked(net: Net) {
    && net.trunks.Keys == net.routes.Keys
    && (forall s, t | s in net.trunks && t in net.trunks[s] :: net.trunks[s][t].trunk && net.trunks[s][t].via == "")
    && (forall s, t | s in net.trunks && t in net.trunks[s] :: t in net.trunks)
    && (forall s, t, u | s in net.trunks && t in net.trunks[s] && u in net.trunks[s] ::
          net.trunks[s][t].name == net.trunks[s][u].name ==> t == u)
  }

  /** At its home an address is the switch's own, or a subscriber's on a link of
      its own; no trunk goes by that link's name. */
  predicate ServedHere(net: Net, s: Switch, a: string)
    requires s in net.routes && s in net.trunks
  {
    var p := PeerByAddress(net.routes[s], a);
    || IsSelf(net.routes[s], a)
    || (p.Some? && !Onward(p.value) && forall t | t in net.trunks[s] :: net.trunks[s][t].name != p.value.name)
  }

  /** Elsewhere it resolves to a peer reached over the trunk towards its home. */
  ghost predicate RoutedOn(net: Net, s: Switch, a: string, home: Switch)
    requires s in net.routes && s in net.trunks
  {
    var p := PeerByAddress(net.routes[s], a);
    && !IsSelf(net.routes[s], a)
    && p.Some? && Onward(p.value)
    && exists t :: t in net.trunks[s] && net.trunks[s][t].name == LinkOf(p.value) && Towards(GraphOf(net), s, t, home)
  }

  ghost predicate Reachable(net: Net, s: Switch, t: Switch) {
    exists w :: Joins(GraphOf(net), w, s, t)
  }

  /** Every address on the line has a home and every switch that can reach it
      routes it towards that home; the origin is no switch's own address. */
  ghost predicate Routed(net: Net, m: Message, homes: map<string, Switch>) {
    && net.trunks.Keys == net.routes.Keys
    && (forall a | a in m.line :: a in homes && homes[a] in net.routes)
    && (forall a, s | a in m.line && s in net.routes && Reachable(net, s, homes[a]) ::
          if s == homes[a] then ServedHere(net, s, a) else RoutedOn(net, s, a, homes[a]))
    && (forall a, s | a in m.line && s in net.routes && Normalise(a) == m.origin :: !IsSelf(net.routes[s], a))
  }

  ghost predicate Sound(net: Net, m: Message, homes: map<string, Switch>) {
    Linked(net) && Symmetric(GraphOf(net)) && Acyclic(GraphOf(net)) && Routed(net, m, homes)
  }

  /** Where the message enters: a subscriber's link at a switch that can reach every home. */
  ghost predicate Entry(net: Net, m: Message, homes: map<string, Switch>, start: Switch, subscriber: Peer) {
    start in net.routes && !subscriber.trunk && forall a | a in m.line :: a in homes && Reachable(net, start, homes[a])
  }

  // ---------------------------------------------------------------- one switch's work

  /** No send fails: every peer an address resolves to is up. */
  function UpAt(r: Routes, m: Message): set<string> {
    set a | a in m.line && PeerByAddress(r, a).Some? :: PeerByAddress(r, a).value.name
  }

  function WorkAt(net: Net, s: Switch, from: Peer, m: Message): Outcome
    requires s in net.routes
  {
    Relayed(net.routes[s], UpAt(net.routes[s], m), from, m.origin, [], m.line)
  }

  /** What is delivered: a copy to a subscriber's address, or the message itself
      applied at the switch it was also addressed to. */
  datatype Event = Delivered(at: Switch, address: string) | AppliedAt(at: Switch)

  function LocalEvents(s: Switch, log: seq<Transmission>): seq<Event> {
    if log == [] then []
    else
      var x := log[|log| - 1];
      LocalEvents(s, log[..|log| - 1]) + (if Onward(x.peer) then [] else [Delivered(s, x.address)])
  }

  /** The links copies leave on, in the order they were sent. */
  function OnwardLinks(log: seq<Transmission>): seq<string> {
    if log == [] then []
    else
      var x := log[|log| - 1];
      OnwardLinks(log[..|log| - 1]) + (if Onward(x.peer) then [LinkOf(x.peer)] else [])
  }

  function EventsAt(net: Net, s: Switch, from: Peer, m: Message): seq<Event>
    requires s in net.routes
  {
    LocalEvents(s, WorkAt(net, s, from, m).log) + AppliedEvents(s, AnyFor(net.routes[s], m.line))
  }

  /** The switch at the other end of a link. */
  ghost function NeighbourOn(net: Net, s: Switch, link: string): Switch
    requires s in net.trunks
  {
    if t :| t in net.trunks[s] && net.trunks[s][t].name == link then t else s
  }

  ghost function Neighbours(net: Net, s: Switch, links: seq<string>): (r: seq<Switch>)
    requires s in net.trunks
    ensures |r| == |links| && forall i | 0 <= i < |r| :: r[i] == NeighbourOn(net, s, links[i])
  {
    seq(|links|, i requires 0 <= i < |links| => NeighbourOn(net, s, links[i]))
  }

  ghost function CopiesTo(net: Net, s: Switch, from: Peer, m: Message): seq<Switch>
    requires s in net.routes && s in net.trunks
  {
    Neighbours(net, s, OnwardLinks(WorkAt(net, s, from, m).log))
  }

  // ---------------------------------------------------------------- runs

  /** The copies in flight and those that have arrived, each with the walk it took,
      and everything delivered so far. */
  datatype State = State(flight: seq<Walk>, arrived: seq<Walk>, delivered: seq<Event>)

  function Extended(w: Walk, ts: seq<Switch>): (r: seq<Walk>)
    ensures |r| == |ts| && forall i | 0 <= i < |r| :: r[i] == w + [ts[i]]
  {
    seq(|ts|, i requires 0 <= i < |ts| => w + [ts[i]])
  }

  ghost function Start(net: Net, m: Message, start: Switch, subscriber: Peer): State
    requires start in net.routes && start in net.trunks
  {
    State(Extended([start], CopiesTo(net, start, subscriber, m)), [[start]], EventsAt(net, start, subscriber, m))
  }

  /** A copy that can arrive: it came over a trunk both ends know. */
  ghost predicate CanArrive(net: Net, w: Walk) {
    && |w| > 1
    && var s, t := w[|w| - 2], w[|w| - 1];
       t in net.routes && t in net.trunks && s in net.trunks[t]
  }

  /** Copy k arrives and is relayed. */
  ghost function Arrive(net: Net, m: Message, st: State, k: nat): State
    requires k < |st.flight| && CanArrive(net, st.flight[k])
  {
    var w := st.flight[k];
    var s, t := w[|w| - 2], w[|w| - 1];
    var from := net.trunks[t][s];
    State(st.flight[..k] + st.flight[k + 1..] + Extended(w, CopiesTo(net, t, from, m)),
          st.arrived + [w],
          st.delivered + EventsAt(net, t, from, m))
  }

  ghost predicate Step(net: Net, m: Message, st: State, next: State) {
    exists k: nat :: k < |st.flight| && CanArrive(net, st.flight[k]) && next == Arrive(net, m, st, k)
  }

  /** Any run: copies in flight arrive one at a time, in any order. */
  ghost predicate IsRun(net: Net, m: Message, start: Switch, subscriber: Peer, run: seq<State>)
    requires start in net.routes && start in net.trunks
  {
    && run != [] && run[0] == Start(net, m, start, subscriber)
    && forall i | 0 <= i < |run| - 1 :: Step(net, m, run[i], run[i + 1])
  }

  // ---------------------------------------------------------------- counting

  function Count<T(==)>(xs: seq<T>, x: T): nat {
    if xs == [] then 0 else Count(xs[..|xs| - 1], x) + (if xs[|xs| - 1] == x then 1 else 0)
  }

  lemma {:induction false} CountConcat<T>(xs: seq<T>, ys: seq<T>, x: T)
    ensures Count(xs + ys, x) == Count(xs, x) + Count(ys, x)
    decreases |ys|
  {
    if ys == [] {
      assert xs + ys == xs;
    } else {
      assert (xs + ys)[..|xs| + |ys| - 1] == xs + ys[..|ys| - 1];
      CountConcat(xs, ys[..|ys| - 1], x);
    }
  }

  lemma {:induction false} CountZero<T>(xs: seq<T>, x: T)
    ensures Count(xs, x) > 0 <==> x in xs
    decreases |xs|
  {
    if xs != [] {
      CountZero(xs[..|xs| - 1], x);
      assert x in xs <==> x in xs[..|xs| - 1] || xs[|xs| - 1] == x;
    }
  }

  lemma {:induction false} CountDistinct<T>(xs: seq<T>, x: T)
    requires Distinct(xs)
    ensures Count(xs, x) == if x in xs then 1 else 0
    decreases |xs|
  {
    if xs != [] {
      CountDistinct(xs[..|xs| - 1], x);
      assert x in xs <==> x in xs[..|xs| - 1] || xs[|xs| - 1] == x;
    }
  }

  /** Distinct members of a set are no more than the set has. */
  lemma {:induction false} DistinctFits(xs: seq<Switch>, all: set<Switch>)
    requires Distinct(xs) && forall i | 0 <= i < |xs| :: xs[i] in all
    ensures |xs| <= |all|
    decreases |xs|
  {
    if xs != [] {
      var init, x := xs[..|xs| - 1], xs[|xs| - 1];
      forall i | 0 <= i < |init| ensures init[i] in all - {x} {
        assert xs[i] != xs[|xs| - 1];
      }
      DistinctFits(init, all - {x});
    }
  }

  // ---------------------------------------------------------------- what one fan-out sends

  lemma {:induction false} OnwardOfCounts(r: Routes, from: Peer, origin: string, dests: seq<string>, a: string)
    ensures Count(OnwardOf(r, from, origin, dests), a)
         == if Judge(r, from, origin, a) == Forward then Count(dests, a) else 0
    decreases |dests|
  {
    hide Judge;
    if dests != [] {
      var init, x := dests[..|dests| - 1], dests[|dests| - 1];
      OnwardOfCounts(r, from, origin, init, a);
      if Judge(r, from, origin, x) == Forward {
        CountConcat(OnwardOf(r, from, origin, init), [x], a);
        assert [x][..0] == [];
        assert Count([x][..0], a) == 0;
      } else {
        assert OnwardOf(r, from, origin, init) + [] == OnwardOf(r, from, origin, init);
      }
    }
  }

  lemma OnwardOfMembers(r: Routes, from: Peer, origin: string, dests: seq<string>, a: string)
    ensures a in OnwardOf(r, from, origin, dests) <==> a in dests && Judge(r, from, origin, a) == Forward
  {
    OnwardOfCounts(r, from, origin, dests, a);
    CountZero(OnwardOf(r, from, origin, dests), a);
    CountZero(dests, a);
  }

  /** An address that is not the switch's own and resolves to a peer that is up. */
  predicate Sendable(r: Routes, up: set<string>, a: string) {
    !IsSelf(r, a) && PeerByAddress(r, a).Some? && PeerByAddress(r, a).value.name in up
  }

  predicate AllSendable(r: Routes, up: set<string>, dests: seq<string>) {
    forall i | 0 <= i < |dests| :: Sendable(r, up, dests[i])
  }

  /** Whether an address leaves on a link to another switch. */
  predicate LeavesOn(r: Routes, a: string, link: string) {
    PeerByAddress(r, a).Some? && Onward(PeerByAddress(r, a).value) && LinkOf(PeerByAddress(r, a).value) == link
  }

  predicate SomeLeavesOn(r: Routes, dests: seq<string>, link: string) {
    exists i | 0 <= i < |dests| :: LeavesOn(r, dests[i], link)
  }

  predicate IsLocal(r: Routes, a: string) {
    PeerByAddress(r, a).Some? && !Onward(PeerByAddress(r, a).value)
  }

  lemma OnwardLinksSnoc(log: seq<Transmission>, x: Transmission)
    ensures OnwardLinks(log + [x]) == OnwardLinks(log) + (if Onward(x.peer) then [LinkOf(x.peer)] else [])
  {
    assert (log + [x])[..|log|] == log;
  }

  lemma LocalEventsSnoc(s: Switch, log: seq<Transmission>, x: Transmission)
    ensures LocalEvents(s, log + [x]) == LocalEvents(s, log) + (if Onward(x.peer) then [] else [Delivered(s, x.address)])
  {
    assert (log + [x])[..|log|] == log;
  }

  lemma SomeLeavesSnoc(r: Routes, dests: seq<string>, a: string, link: string)
    ensures SomeLeavesOn(r, dests + [a], link) <==> SomeLeavesOn(r, dests, link) || LeavesOn(r, a, link)
  {
    hide LeavesOn;
    var all := dests + [a];
    assert all[|dests|] == a;
    if i :| 0 <= i < |dests| && LeavesOn(r, dests[i], link) {
      assert all[i] == dests[i];
    }
  }

  /** One copy on each link some address leaves on, and no more. */
  ghost predicate LinksRight(r: Routes, dests: seq<string>, f: Fan) {
    && Distinct(OnwardLinks(f.log))
    && (forall link :: link in f.sentOn <==> link in OnwardLinks(f.log))
    && (forall link :: link in OnwardLinks(f.log) <==> SomeLeavesOn(r, dests, link))
  }

  lemma FanLinksStep(r: Routes, up: set<string>, dests: seq<string>, f: Fan, a: string)
    requires LinksRight(r, dests, f) && Sendable(r, up, a)
    ensures LinksRight(r, dests + [a], FanOne(r, up, f, a))
  {
    var p := PeerByAddress(r, a).value;
    var next := FanOne(r, up, f, a);
    OnwardLinksSnoc(f.log, Transmission(p, a));
    forall link ensures SomeLeavesOn(r, dests + [a], link) <==> SomeLeavesOn(r, dests, link) || LeavesOn(r, a, link) {
      SomeLeavesSnoc(r, dests, a, link);
    }
    if Onward(p) && LinkOf(p) !in f.sentOn {
      LinkAdded(OnwardLinks(f.log), LinkOf(p));
      assert OnwardLinks(next.log) == OnwardLinks(f.log) + [LinkOf(p)];
    } else {
      assert OnwardLinks(f.log) + [] == OnwardLinks(f.log);
      assert OnwardLinks(next.log) == OnwardLinks(f.log);
    }
  }

  lemma LinkAdded<T>(xs: seq<T>, x: T)
    requires Distinct(xs) && x !in xs
    ensures Distinct(xs + [x]) && forall y :: y in xs + [x] <==> y in xs || y == x
  {
  }

  lemma NoLinks(r: Routes, up: set<string>)
    ensures LinksRight(r, [], FanAll(r, up, [], []))
  {
  }

  /** A trunk gets one copy however many addresses lie behind it. */
  lemma {:induction false} FanLinks(r: Routes, up: set<string>, dests: seq<string>)
    requires AllSendable(r, up, dests)
    ensures LinksRight(r, dests, FanAll(r, up, [], dests))
    decreases |dests|
  {
    hide LinksRight, Sendable, FanOne;
    if dests == [] {
      NoLinks(r, up);
    } else {
      var init, a := dests[..|dests| - 1], dests[|dests| - 1];
      FanLinks(r, up, init);
      assert dests == init + [a];
      FanLinksStep(r, up, init, FanAll(r, up, [], init), a);
    }
  }

  /** A subscriber gets one copy for each of its addresses, as often as it is listed. */
  lemma {:induction false} FanLocals(s: Switch, r: Routes, up: set<string>, dests: seq<string>, a: string)
    requires AllSendable(r, up, dests)
    ensures Count(LocalEvents(s, FanAll(r, up, [], dests).log), Delivered(s, a))
         == if IsLocal(r, a) then Count(dests, a) else 0
    decreases |dests|
  {
    if dests != [] {
      var init, b := dests[..|dests| - 1], dests[|dests| - 1];
      FanLocals(s, r, up, init, a);
      var before := FanAll(r, up, [], init);
      assert Sendable(r, up, b);
      var x := Transmission(PeerByAddress(r, b).value, b);
      LocalEventsSnoc(s, before.log, x);
      CountOneMore(LocalEvents(s, before.log), Delivered(s, b), Delivered(s, a));
      assert LocalEvents(s, before.log) + [] == LocalEvents(s, before.log);
    }
  }

  lemma CountOneMore<T>(xs: seq<T>, y: T, x: T)
    ensures Count(xs + [y], x) == Count(xs, x) + (if y == x then 1 else 0)
  {
    assert (xs + [y])[..|xs|] == xs;
  }

  /** Local events are deliveries here, of addresses on the line. */
  lemma {:induction false} FanOnlyLocals(s: Switch, r: Routes, up: set<string>, dests: seq<string>, e: Event)
    ensures e in LocalEvents(s, FanAll(r, up, [], dests).log) ==> e.Delivered? && e.at == s && e.address in dests
    decreases |dests|
  {
    if dests != [] {
      var init, b := dests[..|dests| - 1], dests[|dests| - 1];
      FanOnlyLocals(s, r, up, init, e);
      var before := FanAll(r, up, [], init);
      if PeerByAddress(r, b).Some? {
        LocalEventsSnoc(s, before.log, Transmission(PeerByAddress(r, b).value, b));
      }
    }
  }

  // ---------------------------------------------------------------- what one switch does

  /** The message came in on a subscriber's link, or over the trunk from `back`. */
  ghost predicate CameFrom(net: Net, t: Switch, back: Option<Switch>, from: Peer)
    requires t in net.trunks
  {
    match back
    case None => !from.trunk
    case Some(s) => s in net.trunks[t] && from == net.trunks[t][s]
  }

  /** Everything a switch needs to know to relay the message right. */
  ghost predicate AtWork(net: Net, m: Message, homes: map<string, Switch>, t: Switch, back: Option<Switch>, from: Peer) {
    && Sound(net, m, homes) && t in net.routes && t in net.trunks && CameFrom(net, t, back, from)
    && forall a | a in m.line :: a in homes && Reachable(net, t, homes[a])
  }

  /** The trunk an address leaves on, where it is not at home. */
  ghost function NextHop(net: Net, t: Switch, a: string, home: Switch): (u: Switch)
    requires t in net.routes && t in net.trunks && RoutedOn(net, t, a, home)
    ensures u in net.trunks[t] && net.trunks[t][u].name == LinkOf(PeerByAddress(net.routes[t], a).value)
    ensures Towards(GraphOf(net), t, u, home)
  {
    var p := PeerByAddress(net.routes[t], a);
    var u :| u in net.trunks[t] && net.trunks[t][u].name == LinkOf(p.value) && Towards(GraphOf(net), t, u, home);
    u
  }

  /** The origin is never served. */
  lemma JudgeOrigin(net: Net, m: Message, homes: map<string, Switch>, t: Switch, back: Option<Switch>, from: Peer, a: string)
    requires AtWork(net, m, homes, t, back, from) && a in m.line && !Wanted(m, a)
    ensures Judge(net.routes[t], from, m.origin, a) == IsOrigin && !IsSelf(net.routes[t], a)
  {
  }

  lemma JudgeHome(net: Net, m: Message, homes: map<string, Switch>, t: Switch, back: Option<Switch>, from: Peer, a: string)
    requires AtWork(net, m, homes, t, back, from) && Wanted(m, a) && homes[a] == t
    ensures Judge(net.routes[t], from, m.origin, a) == if IsSelf(net.routes[t], a) then ForUs else Forward
    ensures !IsSelf(net.routes[t], a) ==> IsLocal(net.routes[t], a)
  {
    assert ServedHere(net, t, a);
  }

  /** Away from home: forwarded on, unless it lies behind the trunk it came from. */
  lemma JudgeAway(net: Net, m: Message, homes: map<string, Switch>, t: Switch, back: Option<Switch>, from: Peer, a: string)
    requires AtWork(net, m, homes, t, back, from) && Wanted(m, a) && homes[a] != t
    ensures !IsSelf(net.routes[t], a) && !IsLocal(net.routes[t], a) && PeerByAddress(net.routes[t], a).Some?
    ensures RoutedOn(net, t, a, homes[a])
    ensures var behind := back.Some? && Towards(GraphOf(net), t, back.value, homes[a]);
            Judge(net.routes[t], from, m.origin, a) == if behind then ServedBehind else Forward
  {
    hide Towards, Reachable, Acyclic, Symmetric, IsSelf;
    assert RoutedOn(net, t, a, homes[a]);
    var u := NextHop(net, t, a, homes[a]);
    if back.Some? && Towards(GraphOf(net), t, back.value, homes[a]) {
      TowardsUnique(GraphOf(net), t, u, back.value, homes[a]);
      assert net.trunks[t][u].trunk;
    }
  }

  /** What is forwarded can be sent. */
  lemma ForwardedIsSendable(net: Net, m: Message, homes: map<string, Switch>, t: Switch, back: Option<Switch>, from: Peer)
    requires AtWork(net, m, homes, t, back, from)
    ensures AllSendable(net.routes[t], UpAt(net.routes[t], m), OnwardOf(net.routes[t], from, m.origin, m.line))
  {
    var r := net.routes[t];
    var onward := OnwardOf(r, from, m.origin, m.line);
    forall i | 0 <= i < |onward| ensures Sendable(r, UpAt(r, m), onward[i]) {
      var a := onward[i];
      assert a in onward;
      OnwardOfMembers(r, from, m.origin, m.line, a);
      if !Wanted(m, a) {
        JudgeOrigin(net, m, homes, t, back, from, a);
      } else if homes[a] == t {
        JudgeHome(net, m, homes, t, back, from, a);
      } else {
        JudgeAway(net, m, homes, t, back, from, a);
      }
    }
  }

  lemma WorkLog(net: Net, m: Message, t: Switch, from: Peer)
    requires t in net.routes
    ensures var r := net.routes[t];
            WorkAt(net, t, from, m).log == FanAll(r, UpAt(r, m), [], OnwardOf(r, from, m.origin, m.line)).log
  {
  }

  /** Some wanted address lies beyond a neighbour, and not where the message came from. */
  ghost predicate NeededAt(net: Net, m: Message, homes: map<string, Switch>, t: Switch, back: Option<Switch>, u: Switch) {
    && back != Some(u)
    && exists a :: Wanted(m, a) && a in homes && homes[a] != t && Towards(GraphOf(net), t, u, homes[a])
  }

  lemma TowardsOnly(g: Graph, s: Switch, t: Switch, home: Switch)
    requires Symmetric(g) && Acyclic(g) && Towards(g, s, t, home)
    ensures forall u :: Towards(g, s, u, home) ==> u == t
  {
    forall u | Towards(g, s, u, home) ensures u == t {
      TowardsUnique(g, s, t, u, home);
    }
  }

  lemma LinkNeeded(net: Net, m: Message, homes: map<string, Switch>, t: Switch, back: Option<Switch>, from: Peer, u: Switch)
    requires AtWork(net, m, homes, t, back, from) && u in net.trunks[t]
    ensures SomeLeavesOn(net.routes[t], OnwardOf(net.routes[t], from, m.origin, m.line), net.trunks[t][u].name)
       <==> NeededAt(net, m, homes, t, back, u)
  {
    var r := net.routes[t];
    var onward := OnwardOf(r, from, m.origin, m.line);
    var link := net.trunks[t][u].name;
    if i :| 0 <= i < |onward| && LeavesOn(r, onward[i], link) {
      var a := onward[i];
      assert a in onward;
      OnwardOfMembers(r, from, m.origin, m.line, a);
      LeavesMeansNeeded(net, m, homes, t, back, from, u, a);
    }
    if NeededAt(net, m, homes, t, back, u) {
      var a :| Wanted(m, a) && a in homes && homes[a] != t && Towards(GraphOf(net), t, u, homes[a]);
      JudgeAway(net, m, homes, t, back, from, a);
      TowardsUnique(GraphOf(net), t, u, NextHop(net, t, a, homes[a]), homes[a]);
      TowardsOnly(GraphOf(net), t, u, homes[a]);
      OnwardOfMembers(r, from, m.origin, m.line, a);
      var i :| 0 <= i < |onward| && onward[i] == a;
      assert LeavesOn(r, onward[i], link);
    }
  }

  lemma LeavesMeansNeeded(net: Net, m: Message, homes: map<string, Switch>, t: Switch, back: Option<Switch>, from: Peer,
                          u: Switch, a: string)
    requires AtWork(net, m, homes, t, back, from) && u in net.trunks[t]
    requires a in m.line && Judge(net.routes[t], from, m.origin, a) == Forward
    requires LeavesOn(net.routes[t], a, net.trunks[t][u].name)
    ensures NeededAt(net, m, homes, t, back, u)
  {
    assert Wanted(m, a);
    if homes[a] == t {
      JudgeHome(net, m, homes, t, back, from, a);
    } else {
      JudgeAway(net, m, homes, t, back, from, a);
      var v := NextHop(net, t, a, homes[a]);
      assert v == u;
    }
  }

  /** Every link a copy leaves on is a trunk of this switch. */
  lemma LinksAreTrunks(net: Net, m: Message, homes: map<string, Switch>, t: Switch, back: Option<Switch>, from: Peer, link: string)
    requires AtWork(net, m, homes, t, back, from)
    requires SomeLeavesOn(net.routes[t], OnwardOf(net.routes[t], from, m.origin, m.line), link)
    ensures exists u :: u in net.trunks[t] && net.trunks[t][u].name == link
  {
    var r := net.routes[t];
    var onward := OnwardOf(r, from, m.origin, m.line);
    var i :| 0 <= i < |onward| && LeavesOn(r, onward[i], link);
    var a := onward[i];
    assert a in onward;
    OnwardOfMembers(r, from, m.origin, m.line, a);
    if homes[a] == t {
      JudgeHome(net, m, homes, t, back, from, a);
    } else {
      JudgeAway(net, m, homes, t, back, from, a);
      var u := NextHop(net, t, a, homes[a]);
      assert u in net.trunks[t] && net.trunks[t][u].name == link;
    }
  }

  /** One copy to each neighbour some wanted address lies beyond, none straight back. */
  lemma CopiesRight(net: Net, m: Message, homes: map<string, Switch>, t: Switch, back: Option<Switch>, from: Peer)
    requires AtWork(net, m, homes, t, back, from)
    ensures var copies := CopiesTo(net, t, from, m);
            && Distinct(copies)
            && (forall u :: u in copies <==> Adjacent(GraphOf(net), t, u) && NeededAt(net, m, homes, t, back, u))
  {
    var r := net.routes[t];
    var onward := OnwardOf(r, from, m.origin, m.line);
    WorkLog(net, m, t, from);
    ForwardedIsSendable(net, m, homes, t, back, from);
    FanLinks(r, UpAt(r, m), onward);
    var links := OnwardLinks(WorkAt(net, t, from, m).log);
    forall link | link in links ensures exists u :: u in net.trunks[t] && net.trunks[t][u].name == link {
      LinksAreTrunks(net, m, homes, t, back, from, link);
    }
    forall u | u in net.trunks[t] ensures net.trunks[t][u].name in links <==> NeededAt(net, m, homes, t, back, u) {
      LinkNeeded(net, m, homes, t, back, from, u);
    }
    NeighboursRight(net, m, homes, t, back, links);
  }

  lemma NeighboursRight(net: Net, m: Message, homes: map<string, Switch>, t: Switch, back: Option<Switch>, links: seq<string>)
    requires Linked(net) && t in net.trunks && Distinct(links)
    requires forall link | link in links :: exists u :: u in net.trunks[t] && net.trunks[t][u].name == link
    requires forall u | u in net.trunks[t] :: net.trunks[t][u].name in links <==> NeededAt(net, m, homes, t, back, u)
    ensures var copies := Neighbours(net, t, links);
            && Distinct(copies)
            && (forall u :: u in copies <==> Adjacent(GraphOf(net), t, u) && NeededAt(net, m, homes, t, back, u))
  {
    hide NeededAt;
    var copies := Neighbours(net, t, links);
    forall i | 0 <= i < |links|
      ensures copies[i] in net.trunks[t] && net.trunks[t][copies[i]].name == links[i]
    {
      assert links[i] in links;
    }
    forall u | Adjacent(GraphOf(net), t, u) && NeededAt(net, m, homes, t, back, u) ensures u in copies {
      var i :| 0 <= i < |links| && links[i] == net.trunks[t][u].name;
      assert copies[i] == u;
    }
  }

  /** What is delivered here: every wanted address served here, as often as listed. */
  lemma EventsRight(net: Net, m: Message, homes: map<string, Switch>, t: Switch, back: Option<Switch>, from: Peer, a: string)
    requires AtWork(net, m, homes, t, back, from) && a in m.line
    ensures Count(EventsAt(net, t, from, m), Delivered(t, a))
         == if Wanted(m, a) && homes[a] == t && !IsSelf(net.routes[t], a) then Count(m.line, a) else 0
  {
    var r := net.routes[t];
    WorkLog(net, m, t, from);
    ForwardedIsSendable(net, m, homes, t, back, from);
    var onward := OnwardOf(r, from, m.origin, m.line);
    FanLocals(t, r, UpAt(r, m), onward, a);
    OnwardOfCounts(r, from, m.origin, m.line, a);
    AppliedNotDelivered(t, AnyFor(r, m.line), a);
    CountConcat(LocalEvents(t, WorkAt(net, t, from, m).log), AppliedEvents(t, AnyFor(r, m.line)), Delivered(t, a));
    if !Wanted(m, a) {
      JudgeOrigin(net, m, homes, t, back, from, a);
    } else if homes[a] == t {
      JudgeHome(net, m, homes, t, back, from, a);
    } else {
      JudgeAway(net, m, homes, t, back, from, a);
    }
  }

  function AppliedEvents(t: Switch, when: bool): seq<Event> {
    if when then [AppliedAt(t)] else []
  }

  lemma AppliedNotDelivered(t: Switch, when: bool, a: string)
    ensures Count(AppliedEvents(t, when), Delivered(t, a)) == 0
  {
    CountZero(AppliedEvents(t, when), Delivered(t, a));
  }

  /** Some wanted address is the switch's own. */
  ghost predicate Addressed(net: Net, m: Message, homes: map<string, Switch>, s: Switch) {
    s in net.routes && exists a :: Wanted(m, a) && a in homes && homes[a] == s && IsSelf(net.routes[s], a)
  }

  lemma ForUsIsAddressed(net: Net, m: Message, homes: map<string, Switch>, t: Switch, back: Option<Switch>, from: Peer)
    requires AtWork(net, m, homes, t, back, from) && AnyFor(net.routes[t], m.line)
    ensures Addressed(net, m, homes, t)
  {
    hide IsSelf, Reachable, Acyclic, Symmetric;
    var i :| 0 <= i < |m.line| && IsSelf(net.routes[t], m.line[i]);
    var a := m.line[i];
    assert a in m.line && Wanted(m, a);
    assert homes[a] != t ==> RoutedOn(net, t, a, homes[a]);
  }

  /** Everything delivered at a switch happens at that switch, to its own addresses. */
  lemma EventsHere(net: Net, m: Message, homes: map<string, Switch>, t: Switch, back: Option<Switch>, from: Peer, e: Event)
    requires AtWork(net, m, homes, t, back, from) && e in EventsAt(net, t, from, m)
    ensures e.at == t && (e.Delivered? ==> e.address in m.line && Wanted(m, e.address) && homes[e.address] == t)
    ensures e.AppliedAt? ==> Addressed(net, m, homes, t)
  {
    hide Addressed;
    var r := net.routes[t];
    WorkLog(net, m, t, from);
    FanOnlyLocals(t, r, UpAt(r, m), OnwardOf(r, from, m.origin, m.line), e);
    if AnyFor(r, m.line) {
      ForUsIsAddressed(net, m, homes, t, back, from);
    }
    if e.Delivered? {
      OnwardOfMembers(r, from, m.origin, m.line, e.address);
      EventsRight(net, m, homes, t, back, from, e.address);
      CountZero(EventsAt(net, t, from, m), e);
    }
  }

  /** The message is applied once at a switch it is addressed to. */
  lemma AppliedRight(net: Net, m: Message, t: Switch, from: Peer)
    requires t in net.routes
    ensures Count(EventsAt(net, t, from, m), AppliedAt(t)) == if AnyFor(net.routes[t], m.line) then 1 else 0
  {
    var r := net.routes[t];
    var local := LocalEvents(t, WorkAt(net, t, from, m).log);
    WorkLog(net, m, t, from);
    FanOnlyLocals(t, r, UpAt(r, m), OnwardOf(r, from, m.origin, m.line), AppliedAt(t));
    CountZero(local, AppliedAt(t));
    CountConcat(local, AppliedEvents(t, AnyFor(r, m.line)), AppliedAt(t));
    CountDistinct(AppliedEvents(t, AnyFor(r, m.line)), AppliedAt(t));
  }

  // ---------------------------------------------------------------- what every run keeps

  function LastOf(w: Walk): Switch
    requires w != []
  {
    w[|w| - 1]
  }

  /** How many copies in flight are on their way to a home. */
  ghost function Carrying(g: Graph, flight: seq<Walk>, home: Switch): nat {
    if flight == [] then 0
    else
      var w := flight[|flight| - 1];
      Carrying(g, flight[..|flight| - 1], home)
      + (if |w| > 1 && Towards(g, w[|w| - 2], w[|w| - 1], home) then 1 else 0)
  }

  /** The walks are real, and no two copies ever sent took the same one. */
  ghost predicate WalksRight(net: Net, start: Switch, st: State) {
    && (forall w | w in st.flight :: |w| > 1)
    && (forall w | w in st.flight + st.arrived :: IsWalk(GraphOf(net), w) && w[0] == start && LastOf(w) in net.routes)
    && (forall w | w in st.flight + st.arrived :: |w| > 1 ==> w[..|w| - 1] in st.arrived)
    && Distinct(st.flight + st.arrived)
  }

  /** Where one wanted address stands: on its way in exactly one copy, or served. */
  ghost predicate AddressRight(net: Net, m: Message, homes: map<string, Switch>, st: State, a: string)
    requires a in homes && homes[a] in net.routes
  {
    var home := homes[a];
    var carrying := Carrying(GraphOf(net), st.flight, home);
    && carrying <= 1
    && (if IsSelf(net.routes[home], a) then Count(st.delivered, AppliedAt(home)) == 1 - carrying
        else Count(st.delivered, Delivered(home, a)) == if carrying == 0 then Count(m.line, a) else 0)
  }

  /** Whether an event is due: a wanted address served at home, or a switch applying
      what is addressed to it. */
  ghost predicate Due(net: Net, m: Message, homes: map<string, Switch>, e: Event) {
    match e
    case Delivered(s, a) => Wanted(m, a) && a in homes && s == homes[a]
    case AppliedAt(s) => Addressed(net, m, homes, s)
  }

  /** Nothing is delivered that was not wanted, or anywhere but at home. */
  ghost predicate NothingElse(net: Net, m: Message, homes: map<string, Switch>, st: State) {
    forall e | e in st.delivered :: Due(net, m, homes, e)
  }

  ghost predicate Right(net: Net, m: Message, homes: map<string, Switch>, start: Switch, st: State) {
    && WalksRight(net, start, st)
    && (forall a | Wanted(m, a) :: a in homes && homes[a] in net.routes && AddressRight(net, m, homes, st, a))
    && NothingElse(net, m, homes, st)
  }

  lemma {:induction false} CarryingConcat(g: Graph, x: seq<Walk>, y: seq<Walk>, home: Switch)
    ensures Carrying(g, x + y, home) == Carrying(g, x, home) + Carrying(g, y, home)
    decreases |y|
  {
    hide Towards;
    if y == [] {
      assert x + y == x;
    } else {
      assert (x + y)[..|x| + |y| - 1] == x + y[..|y| - 1];
      CarryingConcat(g, x, y[..|y| - 1], home);
    }
  }

  lemma CarryingOne(g: Graph, w: Walk, home: Switch)
    ensures Carrying(g, [w], home) == if |w| > 1 && Towards(g, w[|w| - 2], w[|w| - 1], home) then 1 else 0
  {
    hide Towards;
    assert [w][..0] == [];
    assert Carrying(g, [w][..0], home) == 0;
  }

  /** Taking one copy out of the bag. */
  lemma CarryingRemoved(g: Graph, flight: seq<Walk>, k: nat, home: Switch)
    requires k < |flight|
    ensures Carrying(g, flight[..k] + flight[k + 1..], home) + Carrying(g, [flight[k]], home) == Carrying(g, flight, home)
  {
    assert flight == flight[..k] + ([flight[k]] + flight[k + 1..]);
    CarryingConcat(g, flight[..k], [flight[k]] + flight[k + 1..], home);
    CarryingConcat(g, [flight[k]], flight[k + 1..], home);
    CarryingConcat(g, flight[..k], flight[k + 1..], home);
  }

  /** Of the copies sent to distinct neighbours, at most one is on its way home. */
  lemma {:induction false} CarryingExtended(g: Graph, w: Walk, ts: seq<Switch>, home: Switch)
    requires w != [] && Symmetric(g) && Acyclic(g) && Distinct(ts)
    ensures Carrying(g, Extended(w, ts), home) == if exists u :: u in ts && Towards(g, LastOf(w), u, home) then 1 else 0
    decreases |ts|
  {
    hide Towards, Symmetric, Acyclic;
    if ts != [] {
      var init, t := ts[..|ts| - 1], ts[|ts| - 1];
      CarryingExtended(g, w, init, home);
      assert Extended(w, ts)[..|ts| - 1] == Extended(w, init);
      assert Extended(w, ts)[|ts| - 1] == w + [t];
      assert forall u :: u in ts <==> u in init || u == t;
      assert t !in init;
      if Towards(g, LastOf(w), t, home) {
        TowardsOnly(g, LastOf(w), t, home);
      }
    }
  }

  /** One address, across one switch's work: if the copy was bringing it, it is
      served here or sent on once; if not, it lies behind and nothing happens. */
  lemma AddressAcross(net: Net, m: Message, homes: map<string, Switch>, t: Switch, back: Option<Switch>, from: Peer,
                      w: Walk, a: string)
    requires AtWork(net, m, homes, t, back, from) && Wanted(m, a) && w != [] && LastOf(w) == t
    requires back.Some? ==> Adjacent(GraphOf(net), back.value, t)
    ensures var home := homes[a];
            var brought := back.None? || Towards(GraphOf(net), back.value, t, home);
            var sent := Carrying(GraphOf(net), Extended(w, CopiesTo(net, t, from, m)), home);
            && (home == t ==> brought)
            && sent == (if brought && home != t then 1 else 0)
            && Count(EventsAt(net, t, from, m), Delivered(home, a))
               == (if brought && home == t && !IsSelf(net.routes[t], a) then Count(m.line, a) else 0)
            && Count(EventsAt(net, t, from, m), AppliedAt(home))
               == (if home == t && AnyFor(net.routes[t], m.line) then 1 else 0)
  {
    var g, home := GraphOf(net), homes[a];
    var copies := CopiesTo(net, t, from, m);
    CopiesRight(net, m, homes, t, back, from);
    CarryingExtended(g, w, copies, home);
    HomeEvents(net, m, homes, t, back, from, a);
    if home == t {
      if back.Some? {
        NeighbourTowards(g, back.value, t);
      }
      forall u ensures !Towards(g, t, u, home) {
        HomeStays(g, u, home);
      }
    } else {
      JudgeAway(net, m, homes, t, back, from, a);
      var u := NextHop(net, t, a, home);
      TowardsOnly(g, t, u, home);
      if back.Some? {
        TrunkDivides(g, back.value, t, home) by {
          var v :| Joins(g, v, t, home);
          ReachAcross(g, t, back.value, home, v);
        }
      }
      assert Adjacent(g, t, u);
      assert u in copies <==> back != Some(u);
    }
  }

  /** What one switch delivers, counted for one address. */
  lemma HomeEvents(net: Net, m: Message, homes: map<string, Switch>, t: Switch, back: Option<Switch>, from: Peer, a: string)
    requires AtWork(net, m, homes, t, back, from) && Wanted(m, a)
    ensures Count(EventsAt(net, t, from, m), Delivered(homes[a], a))
         == if homes[a] == t && !IsSelf(net.routes[t], a) then Count(m.line, a) else 0
    ensures Count(EventsAt(net, t, from, m), AppliedAt(homes[a]))
         == if homes[a] == t && AnyFor(net.routes[t], m.line) then 1 else 0
  {
    var events := EventsAt(net, t, from, m);
    if homes[a] == t {
      EventsRight(net, m, homes, t, back, from, a);
      AppliedRight(net, m, t, from);
    } else {
      CountZero(events, Delivered(homes[a], a));
      CountZero(events, AppliedAt(homes[a]));
      forall e | e in events ensures e.at == t {
        EventsHere(net, m, homes, t, back, from, e);
      }
    }
  }

  // ---------------------------------------------------------------- the start and every step

  lemma {:induction false} DistinctMultiset<T>(xs: seq<T>)
    ensures Distinct(xs) <==> forall x :: multiset(xs)[x] <= 1
    decreases |xs|
  {
    if xs != [] {
      var init, x := xs[..|xs| - 1], xs[|xs| - 1];
      DistinctMultiset(init);
      assert xs == init + [x];
      assert x in init <==> multiset(init)[x] > 0;
      if Distinct(xs) {
        assert Distinct(init) && x !in init;
      } else if Distinct(init) {
        assert x in init;
        assert multiset(xs)[x] > 1;
      } else {
        var y :| multiset(init)[y] > 1;
        assert multiset(xs)[y] > 1;
      }
    }
  }

  lemma ExtendedDistinct(w: Walk, ts: seq<Switch>)
    requires Distinct(ts)
    ensures Distinct(Extended(w, ts))
  {
    var ext := Extended(w, ts);
    forall i, j | 0 <= i < j < |ext| ensures ext[i] != ext[j] {
      assert ext[i][|w|] == ts[i] && ext[j][|w|] == ts[j];
    }
  }

  /** Moving one entry of a bag from flight to arrived, and adding fresh ones. */
  lemma BagDistinct<T>(flight: seq<T>, arrived: seq<T>, k: nat, ext: seq<T>)
    requires k < |flight| && Distinct(flight + arrived) && Distinct(ext)
    requires forall x | x in ext :: x !in flight + arrived
    ensures Distinct(flight[..k] + flight[k + 1..] + ext + (arrived + [flight[k]]))
  {
    var next := flight[..k] + flight[k + 1..] + ext + (arrived + [flight[k]]);
    DistinctMultiset(flight + arrived);
    DistinctMultiset(ext);
    DistinctMultiset(next);
    assert flight == flight[..k] + [flight[k]] + flight[k + 1..];
    assert multiset(next) == multiset(flight + arrived) + multiset(ext);
    forall x ensures multiset(next)[x] <= 1 {
      assert x in ext ==> multiset(flight + arrived)[x] == 0;
      assert x !in ext ==> multiset(ext)[x] == 0;
    }
  }

  lemma InFlightNotArrived<T>(flight: seq<T>, arrived: seq<T>, k: nat)
    requires k < |flight| && Distinct(flight + arrived)
    ensures flight[k] !in arrived
  {
    forall i | 0 <= i < |arrived| ensures arrived[i] != flight[k] {
      assert (flight + arrived)[k] == flight[k] && (flight + arrived)[|flight| + i] == arrived[i];
    }
  }

  /** A copy still in flight has not been extended yet. */
  lemma WalkFresh(net: Net, start: Switch, st: State, k: nat, v: Walk)
    requires WalksRight(net, start, st) && k < |st.flight| && |v| > 1 && v[..|v| - 1] == st.flight[k]
    ensures v !in st.flight + st.arrived
  {
    InFlightNotArrived(st.flight, st.arrived, k);
  }

  /** The copies a switch sends on: real walks nobody has taken. */
  lemma NewWalks(net: Net, m: Message, homes: map<string, Switch>, start: Switch, st: State, k: nat, s: Switch, v: Walk)
    requires WalksRight(net, start, st) && k < |st.flight|
    requires var w := st.flight[k];
             && |w| > 1 && s == w[|w| - 2] && LastOf(w) in net.trunks && s in net.trunks[LastOf(w)]
             && AtWork(net, m, homes, LastOf(w), Some(s), net.trunks[LastOf(w)][s])
    requires var w := st.flight[k]; v in Extended(w, CopiesTo(net, LastOf(w), net.trunks[LastOf(w)][s], m))
    ensures |v| > 1 && IsWalk(GraphOf(net), v) && v[0] == start && LastOf(v) in net.routes
    ensures v[..|v| - 1] == st.flight[k] && v !in st.flight + st.arrived
  {
    var w := st.flight[k];
    assert w in st.flight && w in st.flight + st.arrived;
    var t := LastOf(w);
    var copies := CopiesTo(net, t, net.trunks[t][s], m);
    CopiesRight(net, m, homes, t, Some(s), net.trunks[t][s]);
    var i :| 0 <= i < |copies| && Extended(w, copies)[i] == v;
    assert copies[i] in copies;
    StepIsWalk(GraphOf(net), w, copies[i]);
    WalkFresh(net, start, st, k, v);
  }

  /** The walks after copy k has arrived and been sent on. */
  lemma WalksAcross(net: Net, m: Message, homes: map<string, Switch>, start: Switch, st: State, k: nat)
    requires WalksRight(net, start, st) && k < |st.flight| && CanArrive(net, st.flight[k])
    requires var w := st.flight[k];
             var s, t := w[|w| - 2], LastOf(w);
             AtWork(net, m, homes, t, Some(s), net.trunks[t][s])
    ensures WalksRight(net, start, Arrive(net, m, st, k))
  {
    hide AtWork, IsWalk, CopiesTo;
    var w := st.flight[k];
    var s, t := w[|w| - 2], LastOf(w);
    var from := net.trunks[t][s];
    var ext := Extended(w, CopiesTo(net, t, from, m));
    var next := Arrive(net, m, st, k);
    CopiesRight(net, m, homes, t, Some(s), from);
    ExtendedDistinct(w, CopiesTo(net, t, from, m));
    forall v | v in ext
      ensures |v| > 1 && IsWalk(GraphOf(net), v) && v[0] == start && LastOf(v) in net.routes
      ensures v[..|v| - 1] == w && v !in st.flight + st.arrived
    {
      NewWalks(net, m, homes, start, st, k, s, v);
    }
    BagDistinct(st.flight, st.arrived, k, ext);
    BagMembers(st.flight, st.arrived, k, ext);
    assert w in next.arrived;
  }

  lemma BagMembers<T>(flight: seq<T>, arrived: seq<T>, k: nat, ext: seq<T>)
    requires k < |flight|
    ensures forall x | x in flight[..k] + flight[k + 1..] + ext + (arrived + [flight[k]]) :: x in ext || x in flight + arrived
    ensures forall x | x in flight[..k] + flight[k + 1..] + ext :: x in ext || x in flight
  {
  }

  lemma {:induction false} ReachAlong(net: Net, w: Walk, home: Switch)
    requires Symmetric(GraphOf(net)) && IsWalk(GraphOf(net), w) && Reachable(net, w[0], home)
    ensures Reachable(net, LastOf(w), home)
    decreases |w|
  {
    if |w| > 1 {
      var v :| Joins(GraphOf(net), v, w[0], home);
      ReachAcross(GraphOf(net), w[0], w[1], home, v);
      TailIsWalk(GraphOf(net), w);
      ReachAlong(net, w[1..], home);
    }
  }

  /** Wherever a copy arrives, the switch can do its work. */
  lemma ArrivalAtWork(net: Net, m: Message, homes: map<string, Switch>, start: Switch, subscriber: Peer, w: Walk)
    requires Sound(net, m, homes) && Entry(net, m, homes, start, subscriber)
    requires IsWalk(GraphOf(net), w) && |w| > 1 && w[0] == start && LastOf(w) in net.routes
    ensures CanArrive(net, w)
    ensures var s, t := w[|w| - 2], LastOf(w);
            Adjacent(GraphOf(net), s, t) && AtWork(net, m, homes, t, Some(s), net.trunks[t][s])
  {
    var i := |w| - 2;
    assert Adjacent(GraphOf(net), w[i], w[i + 1]);
    forall a | a in m.line ensures Reachable(net, LastOf(w), homes[a]) {
      ReachAlong(net, w, homes[a]);
    }
  }

  /** What a switch does adds only what is due. */
  lemma EventsAreDue(net: Net, m: Message, homes: map<string, Switch>, t: Switch, back: Option<Switch>, from: Peer)
    requires AtWork(net, m, homes, t, back, from)
    ensures forall e | e in EventsAt(net, t, from, m) :: Due(net, m, homes, e)
  {
    hide EventsAt, Addressed, Reachable, Acyclic, Symmetric, Linked, CameFrom;
    forall e | e in EventsAt(net, t, from, m) ensures Due(net, m, homes, e) {
      EventsHere(net, m, homes, t, back, from, e);
    }
  }

  lemma AtWorkFirst(net: Net, m: Message, homes: map<string, Switch>, start: Switch, subscriber: Peer)
    requires Sound(net, m, homes) && Entry(net, m, homes, start, subscriber)
    ensures AtWork(net, m, homes, start, None, subscriber)
  {
  }

  /** The first copies: one trunk long. */
  lemma FirstWalk(net: Net, m: Message, homes: map<string, Switch>, start: Switch, subscriber: Peer, v: Walk)
    requires AtWork(net, m, homes, start, None, subscriber) && v in Extended([start], CopiesTo(net, start, subscriber, m))
    ensures |v| == 2 && IsWalk(GraphOf(net), v) && v[0] == start && LastOf(v) in net.routes && v[..|v| - 1] == [start]
  {
    hide CopiesTo, NeededAt, Reachable, Acyclic, Routed;
    var w: Walk, copies := [start], CopiesTo(net, start, subscriber, m);
    CopiesRight(net, m, homes, start, None, subscriber);
    var i :| 0 <= i < |copies| && v == w + [copies[i]];
    assert copies[i] in copies;
    StepIsWalk(GraphOf(net), w, copies[i]);
  }

  lemma StartWalks(net: Net, m: Message, homes: map<string, Switch>, start: Switch, subscriber: Peer)
    requires AtWork(net, m, homes, start, None, subscriber)
    ensures WalksRight(net, start, Start(net, m, start, subscriber))
  {
    hide Sound, CopiesTo, EventsAt, Reachable;
    var w: Walk, copies := [start], CopiesTo(net, start, subscriber, m);
    CopiesRight(net, m, homes, start, None, subscriber);
    ExtendedDistinct(w, copies);
    forall v | v in Extended(w, copies)
      ensures |v| == 2 && IsWalk(GraphOf(net), v) && v[0] == start && LastOf(v) in net.routes && v[..|v| - 1] == w
    {
      FirstWalk(net, m, homes, start, subscriber, v);
    }
  }

  lemma StartServes(net: Net, m: Message, homes: map<string, Switch>, start: Switch, subscriber: Peer, a: string)
    requires AtWork(net, m, homes, start, None, subscriber) && Wanted(m, a)
    ensures a in homes && homes[a] in net.routes && AddressRight(net, m, homes, Start(net, m, start, subscriber), a)
  {
    hide CopiesTo, EventsAt, Carrying, Reachable, Acyclic, Symmetric, Linked, PeerByAddress;
    AddressAcross(net, m, homes, start, None, subscriber, [start], a);
  }

  lemma StartIsRight(net: Net, m: Message, homes: map<string, Switch>, start: Switch, subscriber: Peer)
    requires Sound(net, m, homes) && Entry(net, m, homes, start, subscriber)
    ensures Right(net, m, homes, start, Start(net, m, start, subscriber))
  {
    hide Sound, WalksRight, CopiesTo, EventsAt, Due, Carrying;
    AtWorkFirst(net, m, homes, start, subscriber);
    StartWalks(net, m, homes, start, subscriber);
    EventsAreDue(net, m, homes, start, None, subscriber);
    forall a | Wanted(m, a)
      ensures a in homes && homes[a] in net.routes && AddressRight(net, m, homes, Start(net, m, start, subscriber), a)
    {
      StartServes(net, m, homes, start, subscriber, a);
    }
  }

  /** One address, across one step. */
  lemma AddressStep(net: Net, m: Message, homes: map<string, Switch>, st: State, k: nat, a: string)
    requires k < |st.flight| && CanArrive(net, st.flight[k]) && Wanted(m, a)
    requires var w := st.flight[k];
             var s, t := w[|w| - 2], LastOf(w);
             Adjacent(GraphOf(net), s, t) && AtWork(net, m, homes, t, Some(s), net.trunks[t][s])
    requires a in homes && homes[a] in net.routes
    requires AddressRight(net, m, homes, st, a)
    ensures AddressRight(net, m, homes, Arrive(net, m, st, k), a)
  {
    hide AtWork, CopiesTo, EventsAt, Towards, Carrying, Count, IsSelf, Adjacent;
    var w := st.flight[k];
    var s, t := w[|w| - 2], LastOf(w);
    var from := net.trunks[t][s];
    var g, home := GraphOf(net), homes[a];
    var ext := Extended(w, CopiesTo(net, t, from, m));
    AddressAcross(net, m, homes, t, Some(s), from, w, a);
    CarryingRemoved(g, st.flight, k, home);
    CarryingOne(g, w, home);
    CarryingConcat(g, st.flight[..k] + st.flight[k + 1..], ext, home);
    CountConcat(st.delivered, EventsAt(net, t, from, m), Delivered(home, a));
    CountConcat(st.delivered, EventsAt(net, t, from, m), AppliedAt(home));
  }

  lemma StepIsRight(net: Net, m: Message, homes: map<string, Switch>, start: Switch, subscriber: Peer, st: State, k: nat)
    requires Sound(net, m, homes) && Entry(net, m, homes, start, subscriber)
    requires Right(net, m, homes, start, st) && k < |st.flight|
    ensures CanArrive(net, st.flight[k]) && Right(net, m, homes, start, Arrive(net, m, st, k))
  {
    var w := st.flight[k];
    assert w in st.flight && w in st.flight + st.arrived;
    ArrivalAtWork(net, m, homes, start, subscriber, w);
    var s, t := w[|w| - 2], LastOf(w);
    WalksAcross(net, m, homes, start, st, k);
    forall a | Wanted(m, a) ensures AddressRight(net, m, homes, Arrive(net, m, st, k), a) {
      AddressStep(net, m, homes, st, k, a);
    }
    EventsAreDue(net, m, homes, t, Some(s), net.trunks[t][s]);
  }

  /** Which copy arrived in a step. */
  ghost function ArrivedIn(net: Net, m: Message, st: State, next: State): (k: nat)
    requires Step(net, m, st, next)
    ensures k < |st.flight| && CanArrive(net, st.flight[k]) && next == Arrive(net, m, st, k)
  {
    var k: nat :| k < |st.flight| && CanArrive(net, st.flight[k]) && next == Arrive(net, m, st, k);
    k
  }

  /** Every state of every run is right, and its length is the number of arrivals. */
  lemma {:induction false} RunIsRight(net: Net, m: Message, homes: map<string, Switch>, start: Switch, subscriber: Peer,
                                      run: seq<State>, i: nat)
    requires Sound(net, m, homes) && Entry(net, m, homes, start, subscriber)
    requires start in net.trunks && IsRun(net, m, start, subscriber, run) && i < |run|
    ensures Right(net, m, homes, start, run[i]) && |run[i].arrived| == i + 1
    decreases i
  {
    hide Sound, Right, CopiesTo, EventsAt;
    if i == 0 {
      StartIsRight(net, m, homes, start, subscriber);
    } else {
      RunIsRight(net, m, homes, start, subscriber, run, i - 1);
      assert Step(net, m, run[i - 1], run[i]);
      var k := ArrivedIn(net, m, run[i - 1], run[i]);
      StepIsRight(net, m, homes, start, subscriber, run[i - 1], k);
    }
  }

  // ---------------------------------------------------------------- the laws

  function Ends(ws: seq<Walk>): (r: seq<Switch>)
    requires forall w | w in ws :: w != []
    ensures |r| == |ws| && forall i | 0 <= i < |ws| :: ws[i] in ws && r[i] == LastOf(ws[i])
  {
    seq(|ws|, i requires 0 <= i < |ws| => assert ws[i] in ws; LastOf(ws[i]))
  }

  /** Copies never meet: no two of them ever reach the same switch. */
  lemma EndsDistinct(net: Net, m: Message, homes: map<string, Switch>, start: Switch, st: State)
    requires Sound(net, m, homes) && WalksRight(net, start, st)
    ensures var all := st.flight + st.arrived;
            forall i, j | 0 <= i < j < |all| :: all[i] in all && all[j] in all && LastOf(all[i]) != LastOf(all[j])
  {
    var all := st.flight + st.arrived;
    forall i, j | 0 <= i < j < |all| ensures all[i] in all && all[j] in all && LastOf(all[i]) != LastOf(all[j]) {
      assert all[i] in all && all[j] in all;
      if LastOf(all[i]) == LastOf(all[j]) {
        UniqueWalk(GraphOf(net), all[i], all[j]);
      }
    }
  }

  /** A message is relayed finitely often: no run has more states than the network
      has switches, because every arrival is at a switch the message had not reached. */
  lemma RelayTerminates(net: Net, m: Message, homes: map<string, Switch>, start: Switch, subscriber: Peer, run: seq<State>)
    requires Sound(net, m, homes) && Entry(net, m, homes, start, subscriber) && IsRun(net, m, start, subscriber, run)
    ensures |run| <= |net.routes|
  {
    var last := run[|run| - 1];
    RunIsRight(net, m, homes, start, subscriber, run, |run| - 1);
    ArrivalsFit(net, m, homes, start, last);
  }

  lemma ArrivalsFit(net: Net, m: Message, homes: map<string, Switch>, start: Switch, st: State)
    requires Sound(net, m, homes) && WalksRight(net, start, st)
    ensures |st.arrived| <= |net.routes|
  {
    hide Sound;
    EndsDistinct(net, m, homes, start, st);
    var all := st.flight + st.arrived;
    forall i | 0 <= i < |st.arrived| ensures st.arrived[i] == all[|st.flight| + i] && st.arrived[i] in all {
    }
    forall w | w in st.arrived ensures w in all && w != [] && LastOf(w) in net.routes {
    }
    var ends := Ends(st.arrived);
    forall i, j | 0 <= i < j < |ends| ensures ends[i] != ends[j] {
      assert all[|st.flight| + i] == st.arrived[i] && all[|st.flight| + j] == st.arrived[j];
    }
    DistinctFits(ends, net.routes.Keys);
    assert |net.routes.Keys| == |net.routes|;
  }

  /** It never gets stuck: a copy in flight can always arrive. */
  lemma RelayProgresses(net: Net, m: Message, homes: map<string, Switch>, start: Switch, subscriber: Peer, run: seq<State>)
    requires Sound(net, m, homes) && Entry(net, m, homes, start, subscriber) && IsRun(net, m, start, subscriber, run)
    requires run[|run| - 1].flight != []
    ensures exists next :: IsRun(net, m, start, subscriber, run + [next])
  {
    var last := run[|run| - 1];
    RunIsRight(net, m, homes, start, subscriber, run, |run| - 1);
    StepIsRight(net, m, homes, start, subscriber, last, 0);
    var next := Arrive(net, m, last, 0);
    var longer := run + [next];
    assert Step(net, m, last, next);
    forall i | 0 <= i < |longer| - 1 ensures Step(net, m, longer[i], longer[i + 1]) {
      if i < |run| - 1 {
        assert Step(net, m, run[i], run[i + 1]);
      }
    }
    assert IsRun(net, m, start, subscriber, longer);
  }

  /** The trunk a copy came over. */
  function Crossed(w: Walk): set<Switch>
    requires |w| > 1
  {
    {w[|w| - 2], w[|w| - 1]}
  }

  /** Two copies cross one trunk only together or against each other. */
  lemma SameTrunk(p: Walk, q: Walk)
    requires |p| > 1 && |q| > 1 && Crossed(p) == Crossed(q)
    ensures LastOf(p) == LastOf(q) || (p[|p| - 2] == q[|q| - 1] && p[|p| - 1] == q[|q| - 2])
  {
    assert p[|p| - 2] in Crossed(q) && p[|p| - 1] in Crossed(q) && q[|q| - 2] in Crossed(p) && q[|q| - 1] in Crossed(p);
  }

  /** Each trunk is crossed at most once, in either direction, in any state of any run. */
  lemma TrunksCrossedOnce(net: Net, m: Message, homes: map<string, Switch>, start: Switch, subscriber: Peer,
                          run: seq<State>, n: nat, i: nat, j: nat)
    requires Sound(net, m, homes) && Entry(net, m, homes, start, subscriber) && IsRun(net, m, start, subscriber, run)
    requires n < |run|
    requires var all := run[n].flight + run[n].arrived; i < j < |all| && |all[i]| > 1 && |all[j]| > 1
    ensures var all := run[n].flight + run[n].arrived; Crossed(all[i]) != Crossed(all[j])
  {
    hide Acyclic, Symmetric, Routed, WalksRight, NothingElse, AddressRight, Crossed;
    var st := run[n];
    var all := st.flight + st.arrived;
    RunIsRight(net, m, homes, start, subscriber, run, n);
    EndsDistinct(net, m, homes, start, st);
    if Crossed(all[i]) == Crossed(all[j]) {
      SameTrunk(all[i], all[j]);
      NotBothWays(net, m, homes, start, st, all[i], all[j]);
    }
  }

  lemma NotBothWays(net: Net, m: Message, homes: map<string, Switch>, start: Switch, st: State, p: Walk, q: Walk)
    requires Sound(net, m, homes) && WalksRight(net, start, st)
    requires p in st.flight + st.arrived && q in st.flight + st.arrived && |p| > 1 && |q| > 1
    ensures p[|p| - 2] != q[|q| - 1] || p[|p| - 1] != q[|q| - 2]
  {
    if p[|p| - 2] == q[|q| - 1] {
      var prefix := p[..|p| - 1];
      assert prefix in st.arrived;
      assert prefix in st.flight + st.arrived;
      UniqueWalk(GraphOf(net), prefix, q);
      assert |p| == |q| + 1 && p[|p| - 3] == q[|q| - 2] && p[|p| - 3] != p[|p| - 1];
    }
  }

  /** When nothing is in flight any more, every wanted address has been served at its
      home exactly as often as the line lists it, every switch the message is addressed
      to has applied it exactly once and no other switch has, and nobody else, the origin
      least of all, has received anything. */
  lemma EveryoneServedOnce(net: Net, m: Message, homes: map<string, Switch>, start: Switch, subscriber: Peer,
                           run: seq<State>, a: string, s: Switch)
    requires Sound(net, m, homes) && Entry(net, m, homes, start, subscriber) && IsRun(net, m, start, subscriber, run)
    requires run[|run| - 1].flight == [] && a in m.line
    ensures var delivered := run[|run| - 1].delivered;
            && a in homes && homes[a] in net.routes
            && Count(delivered, Delivered(s, a))
               == (if Wanted(m, a) && s == homes[a] && !IsSelf(net.routes[s], a) then Count(m.line, a) else 0)
            && Count(delivered, AppliedAt(s)) == (if Addressed(net, m, homes, s) then 1 else 0)
  {
    hide Acyclic, Symmetric, Routed, WalksRight, AddressRight, Wanted, IsSelf, CopiesTo, EventsAt;
    var last := run[|run| - 1];
    RunIsRight(net, m, homes, start, subscriber, run, |run| - 1);
    HomesKnown(net, m, homes);
    CountZero(last.delivered, Delivered(s, a));
    CountZero(last.delivered, AppliedAt(s));
    if Wanted(m, a) && s == homes[a] {
      ServedAtRest(net, m, homes, last, a);
      if IsSelf(net.routes[s], a) {
        SelfNotDelivered(net, m, homes, start, subscriber, run, |run| - 1, a);
      }
    }
    if Addressed(net, m, homes, s) {
      var b :| Wanted(m, b) && b in homes && homes[b] == s && IsSelf(net.routes[s], b);
      ServedAtRest(net, m, homes, last, b);
    }
  }

  lemma HomesKnown(net: Net, m: Message, homes: map<string, Switch>)
    requires Sound(net, m, homes)
    ensures forall a | a in m.line :: a in homes && homes[a] in net.routes
  {
  }

  /** With nothing in flight an address on its way to nowhere has been served. */
  lemma ServedAtRest(net: Net, m: Message, homes: map<string, Switch>, st: State, a: string)
    requires a in homes && homes[a] in net.routes && AddressRight(net, m, homes, st, a) && st.flight == []
    ensures if IsSelf(net.routes[homes[a]], a) then Count(st.delivered, AppliedAt(homes[a])) == 1
            else Count(st.delivered, Delivered(homes[a], a)) == Count(m.line, a)
  {
  }

  /** A switch's own address is applied, never delivered. */
  lemma {:induction false} SelfNotDelivered(net: Net, m: Message, homes: map<string, Switch>, start: Switch, subscriber: Peer,
                                            run: seq<State>, i: nat, a: string)
    requires Sound(net, m, homes) && Entry(net, m, homes, start, subscriber)
    requires start in net.trunks && IsRun(net, m, start, subscriber, run) && i < |run|
    requires Wanted(m, a) && homes[a] in net.routes && IsSelf(net.routes[homes[a]], a)
    ensures Count(run[i].delivered, Delivered(homes[a], a)) == 0
    decreases i
  {
    hide Sound, Entry, Right, CopiesTo, EventsAt, Wanted, IsSelf;
    if i == 0 {
      SelfNotDeliveredStart(net, m, homes, start, subscriber, a);
    } else {
      SelfNotDelivered(net, m, homes, start, subscriber, run, i - 1, a);
      RunIsRight(net, m, homes, start, subscriber, run, i - 1);
      assert Step(net, m, run[i - 1], run[i]);
      var k := ArrivedIn(net, m, run[i - 1], run[i]);
      SelfNotDeliveredStep(net, m, homes, start, subscriber, run[i - 1], k, a);
    }
  }

  lemma SelfNotDeliveredStart(net: Net, m: Message, homes: map<string, Switch>, start: Switch, subscriber: Peer, a: string)
    requires Sound(net, m, homes) && Entry(net, m, homes, start, subscriber)
    requires Wanted(m, a) && IsSelf(net.routes[homes[a]], a)
    ensures Count(Start(net, m, start, subscriber).delivered, Delivered(homes[a], a)) == 0
  {
    hide CopiesTo, EventsAt;
    assert AtWork(net, m, homes, start, None, subscriber);
    HomeEvents(net, m, homes, start, None, subscriber, a);
  }

  lemma SelfNotDeliveredStep(net: Net, m: Message, homes: map<string, Switch>, start: Switch, subscriber: Peer,
                             st: State, k: nat, a: string)
    requires Sound(net, m, homes) && Entry(net, m, homes, start, subscriber)
    requires Right(net, m, homes, start, st) && k < |st.flight| && CanArrive(net, st.flight[k])
    requires Wanted(m, a) && IsSelf(net.routes[homes[a]], a) && Count(st.delivered, Delivered(homes[a], a)) == 0
    ensures Count(Arrive(net, m, st, k).delivered, Delivered(homes[a], a)) == 0
  {
    var w := st.flight[k];
    assert w in st.flight + st.arrived;
    ArrivalAtWork(net, m, homes, start, subscriber, w);
    var s, t := w[|w| - 2], LastOf(w);
    HomeEvents(net, m, homes, t, Some(s), net.trunks[t][s], a);
    CountConcat(st.delivered, EventsAt(net, t, net.trunks[t][s], m), Delivered(homes[a], a));
  }

  /** At every moment of every run, nothing has reached the message's own origin, or
      anyone who is not on its line, or anyone away from home. */
  lemma OriginNeverReached(net: Net, m: Message, homes: map<string, Switch>, start: Switch, subscriber: Peer,
                           run: seq<State>, n: nat, s: Switch, a: string)
    requires Sound(net, m, homes) && Entry(net, m, homes, start, subscriber) && IsRun(net, m, start, subscriber, run)
    requires n < |run| && Delivered(s, a) in run[n].delivered
    ensures Normalise(a) != m.origin && a in m.line && a in homes && s == homes[a]
  {
    RunIsRight(net, m, homes, start, subscriber, run, n);
  }
}
