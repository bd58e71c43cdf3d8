/** Which link an address goes out on, told by the parts of the address and the links
    that were added; what becomes of each address of a line, told by its link; and what
    becomes of the message. */
module RelayRouting {
  import opened Wrappers
  import opened Text
  import opened RelayGateway

  // ---------------------------------------------------------------- a configured switch

  /** The routes after a list of links has been added, in order. */
  function Configured(self: string, selfAftn: string, ps: seq<Peer>): Routes {
    if ps == [] then Routes(self, selfAftn, map[], map[], map[], None)
    else WithPeer(Configured(self, selfAftn, ps[..|ps| - 1]), ps[|ps| - 1])
  }

  /** The link lists the address as its own. */
  predicate Lists(p: Peer, a: string) {
    a != "" && (Normalise(p.ttyAddress) == a || exists i | 0 <= i < |p.addresses| :: Normalise(p.addresses[i]) == a)
  }

  /** What a link may be chosen for: an address it lists, the two characters of its
      carrier's code, the three letters of its designator, or air traffic services. */
  datatype Claim = Listing(address: string) | CarrierCode(code: string) | Designator(letters: string) | AirTraffic

  predicate Meets(p: Peer, claim: Claim) {
    match claim
    case Listing(a) => Lists(p, a)
    case CarrierCode(code) => p.carrier == code && code != ""
    case Designator(letters) => p.icao != "" && Normalise(p.icao) == letters
    case AirTraffic => p.aftn
  }

  /** The last added of the links that meet a claim. */
  function LastAdded(ps: seq<Peer>, claim: Claim): Option<Peer> {
    if ps == [] then None
    else if Meets(ps[|ps| - 1], claim) then Some(ps[|ps| - 1])
    else LastAdded(ps[..|ps| - 1], claim)
  }

  function Else<T>(first: Option<T>, second: Option<T>): Option<T> {
    if first.Some? then first else second
  }

  lemma OwnAddresses(p: Peer, a: string)
    requires a != ""
    ensures var own := [p.ttyAddress] + p.addresses; Lists(p, a) <==> exists i :: 0 <= i < |own| && Normalise(own[i]) == a
  {
    var own := [p.ttyAddress] + p.addresses;
    if Lists(p, a) {
      if Normalise(p.ttyAddress) == a {
        assert Normalise(own[0]) == a;
      } else {
        var i :| 0 <= i < |p.addresses| && Normalise(p.addresses[i]) == a;
        assert own[i + 1] == p.addresses[i];
      }
    }
  }

  /** A key no address reaches is never registered. */
  lemma {:induction false} NeverBlank(m: map<string, Peer>, addresses: seq<string>, p: Peer)
    requires "" !in m
    ensures "" !in Registered(m, addresses, p)
    decreases |addresses|
  {
    if addresses != [] {
      NeverBlank(m, addresses[..|addresses| - 1], p);
    }
  }

  /** What the tables hold is the last link added for each key. */
  lemma {:induction false} TablesHold(self: string, selfAftn: string, ps: seq<Peer>, a: string, code: string, designator: string)
    requires code != ""
    ensures var r := Configured(self, selfAftn, ps);
            && Lookup(r.byAddress, a) == LastAdded(ps, Listing(a))
            && Lookup(r.byCarrier, code) == LastAdded(ps, CarrierCode(code))
            && Lookup(r.byIcao, designator) == LastAdded(ps, Designator(designator))
            && r.aftnPeer == LastAdded(ps, AirTraffic)
            && "" !in r.byAddress
    decreases |ps|
  {
    hide Lists, Normalise;
    if ps != [] {
      var init, p := ps[..|ps| - 1], ps[|ps| - 1];
      TablesHold(self, selfAftn, init, a, code, designator);
      var before, own := Configured(self, selfAftn, init).byAddress, [p.ttyAddress] + p.addresses;
      NeverBlank(before, own, p);
      if a != "" {
        OwnAddresses(p, a);
        RegisteredAll(before, own, p, a);
      } else {
        assert !Lists(p, a) by {
          BlankUnlisted(p);
        }
      }
    }
  }

  lemma BlankUnlisted(p: Peer)
    ensures !Lists(p, "")
  {
  }

  /** An address made of a three-character location, a two-character department and a
      two-character carrier code goes to the link that lists it, and failing that to its
      carrier's; of several, to the one added last. */
  lemma CarrierAddress(self: string, selfAftn: string, ps: seq<Peer>, addr: string,
                       location: string, department: string, carrier: string, extra: string)
    requires |location| == 3 && |department| == 2 && |carrier| == 2
    requires var a := location + department + carrier + extra;
             && Normalise(addr) == a && (forall i | 0 <= i < |a| :: 'A' <= a[i] <= 'Z' || '0' <= a[i] <= '9')
             && (|a| != 8 || exists i :: 0 <= i < |a| && '0' <= a[i] <= '9')
    ensures PeerByAddress(Configured(self, selfAftn, ps), addr)
         == Else(LastAdded(ps, Listing(location + department + carrier + extra)),
                 LastAdded(ps, CarrierCode(carrier)))
  {
    var a := location + department + carrier + extra;
    assert a[5..7] == carrier;
    assert IsTypeB(a);
    if |a| == 8 {
      var i :| 0 <= i < |a| && '0' <= a[i] <= '9';
      assert a[i] in a;
    }
    TablesHold(self, selfAftn, ps, a, carrier, "");
  }

  /** An addressee indicator, a four-letter location, a three-letter designator and a
      department letter, goes to the link that lists it, failing that to the one its
      designator names, and failing that to the air traffic link. */
  lemma IndicatorAddress(self: string, selfAftn: string, ps: seq<Peer>, addr: string,
                         location: string, designator: string, department: string)
    requires |location| == 4 && |designator| == 3 && |department| == 1
    requires var a := location + designator + department;
             Normalise(addr) == a && forall i | 0 <= i < |a| :: 'A' <= a[i] <= 'Z'
    ensures PeerByAddress(Configured(self, selfAftn, ps), addr)
         == Else(LastAdded(ps, Listing(location + designator + department)),
                 Else(LastAdded(ps, Designator(designator)), LastAdded(ps, AirTraffic)))
  {
    var a := location + designator + department;
    assert a[4..7] == designator;
    assert IsIndicator(a);
    TablesHold(self, selfAftn, ps, a, "-", designator);
  }

  /** Anything else goes only to a link that lists it. */
  lemma OtherAddress(self: string, selfAftn: string, ps: seq<Peer>, addr: string)
    requires var a := Normalise(addr);
             |a| < 7 || exists i :: 0 <= i < |a| && !('A' <= a[i] <= 'Z') && !('0' <= a[i] <= '9')
    ensures PeerByAddress(Configured(self, selfAftn, ps), addr) == LastAdded(ps, Listing(Normalise(addr)))
  {
    var a := Normalise(addr);
    TablesHold(self, selfAftn, ps, a, "-", "");
    if |a| >= 7 {
      var i :| 0 <= i < |a| && !('A' <= a[i] <= 'Z') && !('0' <= a[i] <= '9');
      assert a[i] in a;
    }
  }

  // ---------------------------------------------------------------- what becomes of each address

  /** The address is another spelling of one of the switch's own. */
  predicate Ours(r: Routes, addr: string) {
    Normalise(addr) != "" && Normalise(addr) in {Normalise(r.self), if r.selfAftn == "" then "" else Normalise(r.selfAftn)}
  }

  /** The k-th transmission left on the link that p's traffic leaves on. */
  predicate LeftOn(log: seq<Transmission>, k: nat, p: Peer) {
    k < |log| && LinkOf(log[k].peer) == LinkOf(p)
  }

  /** What the i-th address of a line got: the message is this switch's, or no link
      serves it, or the send failed, or a transmission carries it. The transmission is
      its own, unless the link leads to another switch and carries the message already. */
  predicate Settled(r: Routes, up: set<string>, log: seq<Transmission>, first: nat, addr: string, d: Delivery) {
    var p := PeerByAddress(r, addr);
    && d.address == addr
    && (d.ToSelf? <==> Ours(r, addr))
    && (d.NotRouted? <==> !Ours(r, addr) && p.None?)
    && (d.Failed? || d.Sent? ==> p.Some? && d.peer == p.value.name)
    && (d.Failed? ==> d.peer !in up)
    && (d.Sent? ==>
          && first <= d.id < |log| && LeftOn(log, d.id, p.value)
          && (log[d.id] == Transmission(p.value, addr) || (Onward(p.value) && Onward(log[d.id].peer))))
  }

  /** Each transmission was caused by an address it was sent for, over a link that is up. */
  predicate Caused(r: Routes, up: set<string>, dests: seq<string>, deliveries: seq<Delivery>, k: nat, x: Transmission) {
    x.peer.name in up && exists i :: 0 <= i < |dests| && i < |deliveries| && dests[i] == x.address && PeerByAddress(r, dests[i]) == Some(x.peer)
                                     && deliveries[i] == Sent(x.address, x.peer.name, k)
  }

  predicate OncePerTrunk(log: seq<Transmission>, first: nat) {
    forall j, k | first <= j < k < |log| && Onward(log[j].peer) && Onward(log[k].peer) :: LinkOf(log[j].peer) != LinkOf(log[k].peer)
  }

  ghost predicate FanRight(r: Routes, up: set<string>, before: seq<Transmission>, dests: seq<string>, f: Fan) {
    && |f.deliveries| == |dests| && before <= f.log
    && (forall i | 0 <= i < |dests| :: Settled(r, up, f.log, |before|, dests[i], f.deliveries[i]))
    && (forall k | |before| <= k < |f.log| :: Caused(r, up, dests, f.deliveries, k, f.log[k]))
    && OncePerTrunk(f.log, |before|)
  }

  /** The transmissions to other switches are the ones remembered. */
  ghost predicate Remembered(before: seq<Transmission>, f: Fan) {
    && (forall k | |before| <= k < |f.log| && Onward(f.log[k].peer) ::
          LinkOf(f.log[k].peer) in f.sentOn && f.sentOn[LinkOf(f.log[k].peer)] == k)
    && forall link | link in f.sentOn ::
         |before| <= f.sentOn[link] < |f.log| && Onward(f.log[f.sentOn[link]].peer) && LinkOf(f.log[f.sentOn[link]].peer) == link
  }

  lemma OursIs(r: Routes, addr: string)
    ensures IsSelf(r, addr) <==> Ours(r, addr)
  {
  }

  lemma SettledStays(r: Routes, up: set<string>, log: seq<Transmission>, x: Transmission, first: nat, addr: string, d: Delivery)
    requires Settled(r, up, log, first, addr, d)
    ensures Settled(r, up, log + [x], first, addr, d)
  {
  }

  lemma CausedStays(r: Routes, up: set<string>, dests: seq<string>, deliveries: seq<Delivery>, a: string, d: Delivery,
                    k: nat, x: Transmission)
    requires Caused(r, up, dests, deliveries, k, x) && |dests| == |deliveries|
    ensures Caused(r, up, dests + [a], deliveries + [d], k, x)
  {
    var i :| 0 <= i < |dests| && dests[i] == x.address && PeerByAddress(r, dests[i]) == Some(x.peer)
             && deliveries[i] == Sent(x.address, x.peer.name, k);
    assert (dests + [a])[i] == dests[i] && (deliveries + [d])[i] == deliveries[i];
  }

  /** An address that costs no transmission. */
  lemma FanQuiet(r: Routes, up: set<string>, before: seq<Transmission>, dests: seq<string>, f: Fan, a: string, d: Delivery)
    requires FanRight(r, up, before, dests, f) && Settled(r, up, f.log, |before|, a, d)
    ensures FanRight(r, up, before, dests + [a], f.(deliveries := f.deliveries + [d]))
  {
    hide Settled, Caused, OncePerTrunk;
    forall k | |before| <= k < |f.log| ensures Caused(r, up, dests + [a], f.deliveries + [d], k, f.log[k]) {
      CausedStays(r, up, dests, f.deliveries, a, d, k, f.log[k]);
    }
  }

  /** An address that costs one. */
  lemma FanSends(r: Routes, up: set<string>, before: seq<Transmission>, dests: seq<string>, f: Fan, a: string)
    requires FanRight(r, up, before, dests, f) && Remembered(before, f) && !Ours(r, a)
    requires PeerByAddress(r, a).Some? && PeerByAddress(r, a).value.name in up
    requires var p := PeerByAddress(r, a).value; Onward(p) ==> LinkOf(p) !in f.sentOn
    ensures var p := PeerByAddress(r, a).value;
            FanRight(r, up, before, dests + [a],
                     f.(deliveries := f.deliveries + [Sent(a, p.name, |f.log|)], log := f.log + [Transmission(p, a)]))
  {
    hide Ours, PeerByAddress, LinkOf, Onward;
    var p := PeerByAddress(r, a).value;
    var x, d, all := Transmission(p, a), Sent(a, p.name, |f.log|), dests + [a];
    var log, deliveries := f.log + [x], f.deliveries + [d];
    forall i | 0 <= i < |all| ensures Settled(r, up, log, |before|, all[i], deliveries[i]) {
      if i < |dests| {
        SettledStays(r, up, f.log, x, |before|, dests[i], f.deliveries[i]);
      }
    }
    forall k | |before| <= k < |log| ensures Caused(r, up, all, deliveries, k, log[k]) {
      if k < |f.log| {
        CausedStays(r, up, dests, f.deliveries, a, d, k, f.log[k]);
      } else {
        assert all[|dests|] == a && deliveries[|dests|] == d;
      }
    }
  }

  lemma FanOneRight(r: Routes, up: set<string>, before: seq<Transmission>, dests: seq<string>, f: Fan, a: string)
    requires FanRight(r, up, before, dests, f) && Remembered(before, f)
    ensures FanRight(r, up, before, dests + [a], FanOne(r, up, f, a))
  {
    hide FanRight, Ours, IsSelf, PeerByAddress, OncePerTrunk, LinkOf, Onward;
    OursIs(r, a);
    var p, next := PeerByAddress(r, a), FanOne(r, up, f, a);
    if !IsSelf(r, a) && p.Some? && !(Onward(p.value) && LinkOf(p.value) in f.sentOn) && p.value.name in up {
      FanSends(r, up, before, dests, f, a);
      FanIgnoresSentOn(r, up, before, dests + [a], next, f.sentOn);
    } else {
      var d := next.deliveries[|f.deliveries|];
      FanQuiet(r, up, before, dests, f, a, d);
    }
  }

  lemma FanIgnoresSentOn(r: Routes, up: set<string>, before: seq<Transmission>, dests: seq<string>, f: Fan, sentOn: map<string, nat>)
    requires FanRight(r, up, before, dests, f.(sentOn := sentOn))
    ensures FanRight(r, up, before, dests, f)
  {
  }

  lemma FanOneRemembers(r: Routes, up: set<string>, before: seq<Transmission>, f: Fan, a: string)
    requires Remembered(before, f) && before <= f.log
    ensures Remembered(before, FanOne(r, up, f, a))
  {
    hide IsSelf, PeerByAddress, LinkOf, Onward;
  }

  lemma {:induction false} FanKeeps(r: Routes, up: set<string>, before: seq<Transmission>, dests: seq<string>)
    ensures FanRight(r, up, before, dests, FanAll(r, up, before, dests))
    ensures Remembered(before, FanAll(r, up, before, dests))
    decreases |dests|
  {
    hide Settled, Caused, FanOne, Remembered;
    if dests == [] {
      assert Remembered(before, FanAll(r, up, before, [])) by {
        NothingRemembered(before);
      }
    } else {
      var init, a := dests[..|dests| - 1], dests[|dests| - 1];
      FanKeeps(r, up, before, init);
      assert init + [a] == dests;
      FanOneRight(r, up, before, init, FanAll(r, up, before, init), a);
      FanOneRemembers(r, up, before, FanAll(r, up, before, init), a);
    }
  }

  lemma NothingRemembered(before: seq<Transmission>)
    ensures Remembered(before, Fan([], before, map[]))
  {
  }

  /** No address fails whose trunk already carries the message. */
  ghost predicate NoneMissed(r: Routes, dests: seq<string>, f: Fan) {
    forall i, j | 0 <= j < i < |f.deliveries| && i < |dests| && f.deliveries[i].Failed? && f.deliveries[j].Sent? ::
      var p, id := PeerByAddress(r, dests[i]), f.deliveries[j].id;
      p.Some? && Onward(p.value) && id < |f.log| && Onward(f.log[id].peer) ==> LinkOf(f.log[id].peer) != LinkOf(p.value)
  }

  lemma FanOneMisses(r: Routes, up: set<string>, before: seq<Transmission>, dests: seq<string>, f: Fan, a: string)
    requires FanRight(r, up, before, dests, f) && Remembered(before, f) && NoneMissed(r, dests, f)
    ensures NoneMissed(r, dests + [a], FanOne(r, up, f, a))
  {
    hide IsSelf, PeerByAddress, LinkOf, Onward, Ours, Caused, OncePerTrunk;
    var next, all := FanOne(r, up, f, a), dests + [a];
    forall i, j | 0 <= j < i < |next.deliveries| && next.deliveries[i].Failed? && next.deliveries[j].Sent?
      ensures var p, id := PeerByAddress(r, all[i]), next.deliveries[j].id;
              p.Some? && Onward(p.value) && id < |next.log| && Onward(next.log[id].peer)
              ==> LinkOf(next.log[id].peer) != LinkOf(p.value)
    {
      assert next.deliveries[j] == f.deliveries[j];
      assert Settled(r, up, f.log, |before|, dests[j], f.deliveries[j]);
      assert i < |dests| ==> all[i] == dests[i] && next.deliveries[i] == f.deliveries[i];
    }
  }

  lemma {:induction false} FanMisses(r: Routes, up: set<string>, before: seq<Transmission>, dests: seq<string>)
    ensures NoneMissed(r, dests, FanAll(r, up, before, dests))
    decreases |dests|
  {
    hide FanOne, FanRight, Remembered;
    if dests != [] {
      var init, a := dests[..|dests| - 1], dests[|dests| - 1];
      FanMisses(r, up, before, init);
      FanKeeps(r, up, before, init);
      assert init + [a] == dests;
      FanOneMisses(r, up, before, init, FanAll(r, up, before, init), a);
    }
  }

  /** Of any line, whatever sends fail: each address gets its one delivery, in order,
      as its own spelling and its link say; each transmission was made for an address it
      is listed under, to that address's link; no trunk carries the message twice; and an
      address fails only if its link is down and its trunk does not already carry it. */
  lemma FanoutAccounts(r: Routes, up: set<string>, before: seq<Transmission>, dests: seq<string>)
    ensures FanRight(r, up, before, dests, FanAll(r, up, before, dests))
    ensures NoneMissed(r, dests, FanAll(r, up, before, dests))
  {
    hide FanRight, NoneMissed, FanAll;
    FanKeeps(r, up, before, dests);
    FanMisses(r, up, before, dests);
  }

  // ---------------------------------------------------------------- what becomes of the message

  /** Relaying is done with a message exactly when it lists somebody and nobody on the
      line is this switch. It then counts as applied exactly when some copy went out;
      otherwise its status is left to whoever handles it next. */
  lemma RelaySettles(r: Routes, up: set<string>, from: Peer, origin: string, before: seq<Transmission>, dests: seq<string>)
    ensures var o := Relayed(r, up, from, origin, before, dests);
            && (o.done <==> dests != [] && forall i | 0 <= i < |dests| :: !Ours(r, dests[i]))
            && (o.status == Unchanged <==> !o.done)
            && (o.status == Applied <==> o.done && exists i | 0 <= i < |o.deliveries| :: IsSent(o.deliveries[i]))
  {
    var o, onward := Relayed(r, up, from, origin, before, dests), OnwardOf(r, from, origin, dests);
    forall i | 0 <= i < |dests| ensures IsSelf(r, dests[i]) <==> Ours(r, dests[i]) {
      OursIs(r, dests[i]);
    }
    NothingOnward(r, from, origin, dests);
    assert onward == [] ==> o.deliveries == [];
  }

  /** Nothing is forwarded exactly when every address is this switch's own, the origin,
      or behind the trunk the message came down. */
  lemma {:induction false} NothingOnward(r: Routes, from: Peer, origin: string, dests: seq<string>)
    ensures OnwardOf(r, from, origin, dests) == [] <==> forall i | 0 <= i < |dests| :: Judge(r, from, origin, dests[i]) != Forward
    decreases |dests|
  {
    hide Judge;
    if dests != [] {
      NothingOnward(r, from, origin, dests[..|dests| - 1]);
    }
  }

  /** An address is forwarded, as often as it is listed and in line order, unless it is
      this switch's own, or the message's origin, or on the trunk the message came down. */
  predicate Forwarded(r: Routes, from: Peer, origin: string, addr: string) {
    var p := PeerByAddress(r, addr);
    !Ours(r, addr) && Normalise(addr) != origin && !(from.trunk && p.Some? && LinkOf(p.value) == from.name)
  }

  lemma ForwardedIs(r: Routes, from: Peer, origin: string, addr: string)
    ensures Judge(r, from, origin, addr) == Forward <==> Forwarded(r, from, origin, addr)
  {
  }

  lemma {:induction false} OnwardConcat(r: Routes, from: Peer, origin: string, x: seq<string>, y: seq<string>)
    ensures OnwardOf(r, from, origin, x + y) == OnwardOf(r, from, origin, x) + OnwardOf(r, from, origin, y)
    decreases |y|
  {
    hide Judge;
    if y == [] {
      assert x + y == x;
    } else {
      assert (x + y)[..|x| + |y| - 1] == x + y[..|y| - 1];
      OnwardConcat(r, from, origin, x, y[..|y| - 1]);
    }
  }

  lemma OnwardSingle(r: Routes, from: Peer, origin: string, addr: string)
    ensures OnwardOf(r, from, origin, [addr]) == if Judge(r, from, origin, addr) == Forward then [addr] else []
  {
    assert [addr][..0] == [];
  }

  /** What is forwarded is chosen address by address, in line order. */
  lemma ForwardedInOrder(r: Routes, from: Peer, origin: string, dests: seq<string>, i: nat)
    requires i < |dests|
    ensures OnwardOf(r, from, origin, dests)
         == OnwardOf(r, from, origin, dests[..i])
            + (if Forwarded(r, from, origin, dests[i]) then [dests[i]] else [])
            + OnwardOf(r, from, origin, dests[i + 1..])
  {
    hide Judge, OnwardOf, Forwarded;
    assert dests[..i] + [dests[i]] + dests[i + 1..] == dests;
    OnwardConcat(r, from, origin, dests[..i] + [dests[i]], dests[i + 1..]);
    OnwardConcat(r, from, origin, dests[..i], [dests[i]]);
    ForwardedIs(r, from, origin, dests[i]);
    OnwardSingle(r, from, origin, dests[i]);
  }

  /** Each address forwarded gets its delivery, and the log only grows. */
  lemma RelayDelivers(r: Routes, up: set<string>, from: Peer, origin: string, before: seq<Transmission>, dests: seq<string>)
    ensures var o := Relayed(r, up, from, origin, before, dests);
            FanRight(r, up, before, OnwardOf(r, from, origin, dests), Fan(o.deliveries, o.log, map[]))
  {
    hide FanRight, OnwardOf, AnyFor, AnyReflected, AnySent;
    var onward := OnwardOf(r, from, origin, dests);
    FanKeeps(r, up, before, onward);
    var fan := FanAll(r, up, before, onward);
    FanIgnoresSentOn(r, up, before, onward, Fan(fan.deliveries, fan.log, map[]), fan.sentOn);
  }
}
