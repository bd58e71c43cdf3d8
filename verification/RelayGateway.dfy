/** One switch: which link serves an address, what a message is relayed to, and
    how it is fanned out, one copy per trunk and one per subscriber address. */
module RelayGateway {
  import opened Wrappers
  import opened Text

  /** A configured partner link. `via` names the link that carries this peer's
      traffic when it has none of its own; `trunk` marks a link to another switch. */
  datatype Peer = Peer(
    name: string, carrier: string, via: string, trunk: bool,
    ttyAddress: string, addresses: seq<string>, icao: string, aftn: bool)

  // ---------------------------------------------------------------- addresses

  predicate IsUpper(b: char) {
    'A' <= b <= 'Z'
  }

  predicate IsUpperOrDigit(b: char) {
    IsUpper(b) || '0' <= b <= '9'
  }

  /** An AFTN addressee indicator: eight letters. */
  predicate IsIndicator(a: string) {
    |a| == 8 && forall b | b in a :: IsUpper(b)
  }

  /** A Type B address: location, department and carrier, and possibly more. */
  predicate IsTypeB(a: string) {
    |a| >= 7 && forall b | b in a :: IsUpperOrDigit(b)
  }

  // ---------------------------------------------------------------- routing

  /** What a switch knows about who is where. */
  datatype Routes = Routes(
    self: string, selfAftn: string,
    byAddress: map<string, Peer>, byCarrier: map<string, Peer>, byIcao: map<string, Peer>,
    aftnPeer: Option<Peer>)

  function Lookup(m: map<string, Peer>, key: string): Option<Peer> {
    if key in m then Some(m[key]) else None
  }

  /** The link that serves an address: an explicit registration wins, then the
      carrier whose designator the address carries. */
  function PeerByAddress(r: Routes, addr: string): Option<Peer> {
    var a := Normalise(addr);
    if a in r.byAddress then Some(r.byAddress[a])
    else if IsIndicator(a) then
      if a[4..7] in r.byIcao then Some(r.byIcao[a[4..7]]) else r.aftnPeer
    else if IsTypeB(a) then Lookup(r.byCarrier, a[5..7])
    else None
  }

  predicate IsSelf(r: Routes, addr: string) {
    var a := Normalise(addr);
    a != "" && (a == Normalise(r.self) || (r.selfAftn != "" && a == Normalise(r.selfAftn)))
  }

  /** The link a peer's traffic leaves on. */
  function LinkOf(p: Peer): string {
    if p.via != "" then p.via else p.name
  }

  /** Whether the traffic leaves for another switch, which fans out by itself. */
  predicate Onward(p: Peer) {
    p.via != "" || p.trunk
  }

  function Registered(m: map<string, Peer>, addresses: seq<string>, p: Peer): map<string, Peer> {
    if addresses == [] then m
    else
      var before := Registered(m, addresses[..|addresses| - 1], p);
      var a := Normalise(addresses[|addresses| - 1]);
      if a != "" then before[a := p] else before
  }

  function WithPeer(r: Routes, p: Peer): Routes {
    r.(byCarrier := if p.carrier != "" then r.byCarrier[p.carrier := p] else r.byCarrier,
       byAddress := Registered(r.byAddress, [p.ttyAddress] + p.addresses, p),
       byIcao := if p.icao != "" then r.byIcao[Normalise(p.icao) := p] else r.byIcao,
       aftnPeer := if p.aftn then Some(p) else r.aftnPeer)
  }

  lemma {:induction false} RegisteredAll(m: map<string, Peer>, addresses: seq<string>, p: Peer, a: string)
    requires a != ""
    ensures if exists i :: 0 <= i < |addresses| && Normalise(addresses[i]) == a
            then a in Registered(m, addresses, p) && Registered(m, addresses, p)[a] == p
            else Lookup(Registered(m, addresses, p), a) == Lookup(m, a)
    decreases |addresses|
  {
    if addresses != [] {
      var init := addresses[..|addresses| - 1];
      RegisteredAll(m, init, p, a);
      if i :| 0 <= i < |addresses| && Normalise(addresses[i]) == a {
        assert i < |init| ==> init[i] == addresses[i];
      }
    }
  }

  /** Adding a peer makes it serve exactly its own addresses; every other explicit
      registration stands. */
  lemma PeerServesItsAddresses(r: Routes, p: Peer, addr: string)
    requires Normalise(addr) != ""
    ensures var own := [p.ttyAddress] + p.addresses;
            if exists i :: 0 <= i < |own| && Normalise(own[i]) == Normalise(addr)
            then PeerByAddress(WithPeer(r, p), addr) == Some(p)
            else Normalise(addr) in r.byAddress ==> PeerByAddress(WithPeer(r, p), addr) == PeerByAddress(r, addr)
  {
    RegisteredAll(r.byAddress, [p.ttyAddress] + p.addresses, p, Normalise(addr));
  }

  // ---------------------------------------------------------------- fan-out

  /** What happened to one addressee. */
  datatype Delivery =
    | ToSelf(address: string)
    | NotRouted(address: string)
    | Failed(address: string, peer: string)
    | Sent(address: string, peer: string, id: nat)

  /** One transmission: the peer it was for and the address that caused it. Its
      position in the log is its id. */
  datatype Transmission = Transmission(peer: Peer, address: string)

  /** A fan-out under way. */
  datatype Fan = Fan(deliveries: seq<Delivery>, log: seq<Transmission>, sentOn: map<string, nat>)

  /** One addressee. `up` is the set of peers a send succeeds to. */
  function FanOne(r: Routes, up: set<string>, f: Fan, addr: string): Fan {
    if IsSelf(r, addr) then f.(deliveries := f.deliveries + [ToSelf(addr)])
    else
      match PeerByAddress(r, addr)
      case None => f.(deliveries := f.deliveries + [NotRouted(addr)])
      case Some(p) =>
        if Onward(p) && LinkOf(p) in f.sentOn then
          f.(deliveries := f.deliveries + [Sent(addr, p.name, f.sentOn[LinkOf(p)])])
        else if p.name !in up then f.(deliveries := f.deliveries + [Failed(addr, p.name)])
        else
          Fan(f.deliveries + [Sent(addr, p.name, |f.log|)], f.log + [Transmission(p, addr)],
              if Onward(p) then f.sentOn[LinkOf(p) := |f.log|] else f.sentOn)
  }

  function FanAll(r: Routes, up: set<string>, before: seq<Transmission>, dests: seq<string>): Fan {
    if dests == [] then Fan([], before, map[])
    else FanOne(r, up, FanAll(r, up, before, dests[..|dests| - 1]), dests[|dests| - 1])
  }

  // ---------------------------------------------------------------- relay

  /** Why an addressee is, or is not, forwarded. */
  datatype Verdict = ForUs | IsOrigin | ServedBehind | Forward

  /** An address on a message that arrived from `from`. A message is never carried
      back to its origin, nor back down the trunk it came from. */
  function Judge(r: Routes, from: Peer, origin: string, addr: string): Verdict {
    if IsSelf(r, addr) then ForUs
    else if Normalise(addr) == origin then IsOrigin
    else
      match PeerByAddress(r, addr)
      case Some(p) => if from.trunk && LinkOf(p) == from.name then ServedBehind else Forward
      case None => Forward
  }

  function OnwardOf(r: Routes, from: Peer, origin: string, dests: seq<string>): seq<string> {
    if dests == [] then []
    else
      var addr := dests[|dests| - 1];
      OnwardOf(r, from, origin, dests[..|dests| - 1]) + (if Judge(r, from, origin, addr) == Forward then [addr] else [])
  }

  predicate AnyFor(r: Routes, dests: seq<string>) {
    exists i | 0 <= i < |dests| :: IsSelf(r, dests[i])
  }

  predicate AnyReflected(r: Routes, from: Peer, origin: string, dests: seq<string>) {
    exists i | 0 <= i < |dests| :: Judge(r, from, origin, dests[i]) in {IsOrigin, ServedBehind}
  }

  datatype Status = Unchanged | Applied | Undeliverable

  /** What relaying did: whether the message needs no further processing here, the
      status it got, and the transmissions made. */
  datatype Outcome = Outcome(done: bool, status: Status, deliveries: seq<Delivery>, log: seq<Transmission>)

  predicate IsSent(d: Delivery) {
    d.Sent?
  }

  predicate AnySent(deliveries: seq<Delivery>) {
    exists i | 0 <= i < |deliveries| :: IsSent(deliveries[i])
  }

  function Relayed(r: Routes, up: set<string>, from: Peer, origin: string, before: seq<Transmission>, dests: seq<string>): Outcome {
    var onward := OnwardOf(r, from, origin, dests);
    var forUs := AnyFor(r, dests);
    if onward == [] then
      if !forUs && AnyReflected(r, from, origin, dests) then Outcome(true, Undeliverable, [], before)
      else Outcome(false, Unchanged, [], before)
    else
      var fan := FanAll(r, up, before, onward);
      if forUs then Outcome(false, Unchanged, fan.deliveries, fan.log)
      else Outcome(true, if AnySent(fan.deliveries) then Applied else Undeliverable, fan.deliveries, fan.log)
  }

  /** A relaying switch. */
  class Gateway {
    var routes: Routes
    var peers: map<string, Peer>
    var log: seq<Transmission>

    constructor (self: string, selfAftn: string)
      ensures routes == Routes(self, selfAftn, map[], map[], map[], None) && peers == map[] && log == []
    {
      routes := Routes(self, selfAftn, map[], map[], map[], None);
      peers, log := map[], [];
    }

    /** Registers a link. */
    method AddPeer(p: Peer)
      modifies this`routes, this`peers
      ensures routes == WithPeer(old(routes), p) && peers == old(peers)[p.name := p]
    {
      peers := peers[p.name := p];
      if p.carrier != "" {
        routes := routes.(byCarrier := routes.byCarrier[p.carrier := p]);
      }
      var all := [p.ttyAddress] + p.addresses;
      ghost var was := routes;
      for i := 0 to |all|
        invariant peers == old(peers)[p.name := p]
        invariant routes == was.(byAddress := Registered(was.byAddress, all[..i], p))
      {
        ghost var sofar := all[..i + 1];
        assert sofar[..i] == all[..i] && sofar[i] == all[i];
        var a := Normalise(all[i]);
        if a != "" {
          routes := routes.(byAddress := routes.byAddress[a := p]);
        }
      }
      assert all[..|all|] == all;
      if p.icao != "" {
        routes := routes.(byIcao := routes.byIcao[Normalise(p.icao) := p]);
      }
      if p.aftn {
        routes := routes.(aftnPeer := Some(p));
      }
    }

    /** Delivers one message to every address on its line. */
    method Fanout(dests: seq<string>, up: set<string>) returns (out: seq<Delivery>)
      modifies this`log
      ensures var fan := FanAll(routes, up, old(log), dests);
              out == fan.deliveries && log == fan.log
    {
      out := [];
      var sentOn: map<string, nat> := map[];
      for i := 0 to |dests|
        invariant Fan(out, log, sentOn) == FanAll(routes, up, old(log), dests[..i])
      {
        ghost var sofar := dests[..i + 1];
        assert sofar[..i] == dests[..i] && sofar[i] == dests[i];
        var addr := dests[i];
        if IsSelf(routes, addr) {
          out := out + [ToSelf(addr)];
          continue;
        }
        var peer := PeerByAddress(routes, addr);
        if peer.Some? && Onward(peer.value) && LinkOf(peer.value) in sentOn {
          out := out + [Sent(addr, peer.value.name, sentOn[LinkOf(peer.value)])];
          continue;
        }
        if peer.None? {
          out := out + [NotRouted(addr)];
          continue;
        }
        var p := peer.value;
        if p.name !in up {
          out := out + [Failed(addr, p.name)];
        } else {
          var id := |log|;
          log := log + [Transmission(p, addr)];
          if Onward(p) {
            sentOn := sentOn[LinkOf(p) := id];
          }
          out := out + [Sent(addr, p.name, id)];
        }
      }
      assert dests[..|dests|] == dests;
    }

    /** Forwards a message to the addressees that are not this node, less those the
        switch that sent it serves itself. The origin is turned away before any link is
        looked up, so a link to the origin needs no test of its own. */
    method Relay(from: Peer, origin: string, dests: seq<string>, up: set<string>) returns (outcome: Outcome)
      modifies this`log
      ensures outcome == Relayed(routes, up, from, origin, old(log), dests) && log == outcome.log
    {
      var forUs := false;
      var onward: seq<string> := [];
      var reflected := 0;
      for i := 0 to |dests|
        invariant log == old(log)
        invariant forUs == AnyFor(routes, dests[..i])
        invariant onward == OnwardOf(routes, from, origin, dests[..i])
        invariant reflected >= 0 && (reflected > 0 <==> AnyReflected(routes, from, origin, dests[..i]))
      {
        ghost var sofar := dests[..i + 1];
        assert sofar[..i] == dests[..i] && sofar[i] == dests[i];
        AnySnoc(routes, from, origin, dests[..i], dests[i]);
        assert dests[..i] + [dests[i]] == sofar;
        var addr := dests[i];
        if IsSelf(routes, addr) {
          forUs := true;
          continue;
        }
        if Normalise(addr) == origin {
          reflected := reflected + 1;
          continue;
        }
        var p := PeerByAddress(routes, addr);
        if p.Some? && from.trunk && LinkOf(p.value) == from.name {
          reflected := reflected + 1;
          continue;
        }
        onward := onward + [addr];
      }
      assert dests[..|dests|] == dests;
      if onward == [] {
        if !forUs && reflected > 0 {
          return Outcome(true, Undeliverable, [], log);
        }
        return Outcome(false, Unchanged, [], log);
      }
      var deliveries := Fanout(onward, up);
      var sent := CountSent(deliveries);
      if forUs {
        return Outcome(false, Unchanged, deliveries, log);
      }
      return Outcome(true, if sent == 0 then Undeliverable else Applied, deliveries, log);
    }
  }

  method CountSent(deliveries: seq<Delivery>) returns (n: nat)
    ensures n > 0 <==> AnySent(deliveries)
    ensures n <= |deliveries|
  {
    n := 0;
    for i := 0 to |deliveries|
      invariant n <= i && (n > 0 <==> exists k | 0 <= k < i :: IsSent(deliveries[k]))
    {
      if IsSent(deliveries[i]) {
        n := n + 1;
      }
    }
  }

  lemma AnySnoc(r: Routes, from: Peer, origin: string, dests: seq<string>, addr: string)
    ensures AnyFor(r, dests + [addr]) == (AnyFor(r, dests) || IsSelf(r, addr))
    ensures AnyReflected(r, from, origin, dests + [addr])
         == (AnyReflected(r, from, origin, dests) || Judge(r, from, origin, addr) in {IsOrigin, ServedBehind})
  {
    var all := dests + [addr];
    assert all[|dests|] == addr;
    assert forall i | 0 <= i < |dests| :: all[i] == dests[i];
    if AnyFor(r, dests) {
      var i :| 0 <= i < |dests| && IsSelf(r, dests[i]);
      assert IsSelf(r, all[i]);
    }
    if AnyReflected(r, from, origin, dests) {
      var i :| 0 <= i < |dests| && Judge(r, from, origin, dests[i]) in {IsOrigin, ServedBehind};
      assert Judge(r, from, origin, all[i]) in {IsOrigin, ServedBehind};
    }
  }
}
