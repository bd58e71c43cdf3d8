/** Load planning: cargo and mail from the aft end, bags split between the holds, and
    bag counts apportioned to the containers they fill. */
module DcsLoad {
  import opened Arithmetic
  import opened Wrappers
  import opened Sequences

  /** A hold; one that takes containers has positions of a given capacity. Kilos. */
  datatype Compartment = Compartment(name: string, max: int, arm: real, takesULDs: bool, uldMax: int, positions: seq<string>)

  type Holds = map<string, int>

  datatype ULD = ULD(position: string, weight: int, contents: string, bags: int)

  // ---------------------------------------------------------------- holds

  /** Each compartment is named once and limits are not negative. */
  predicate WellFormed(comps: seq<Compartment>) {
    && (forall i | 0 <= i < |comps| :: comps[i].max >= 0)
    && (forall i, j | 0 <= i < j < |comps| :: comps[i].name != comps[j].name)
  }

  predicate Named(comps: seq<Compartment>, holds: Holds) {
    forall i | 0 <= i < |comps| :: comps[i].name in holds
  }

  predicate WithinLimits(comps: seq<Compartment>, holds: Holds) {
    Named(comps, holds) && forall i | 0 <= i < |comps| :: 0 <= holds[comps[i].name] <= comps[i].max
  }

  function Capacity(comps: seq<Compartment>, holds: Holds): int
    requires Named(comps, holds)
  {
    if comps == [] then 0 else comps[0].max - holds[comps[0].name] + Capacity(comps[1..], holds)
  }

  function Loaded(comps: seq<Compartment>, holds: Holds): int
    requires Named(comps, holds)
  {
    if comps == [] then 0 else holds[comps[0].name] + Loaded(comps[1..], holds)
  }

  /** What goes into a compartment of the kilos still to load. */
  function Take(c: Compartment, holds: Holds, kg: int): int
    requires c.name in holds
  {
    Max(0, Min(c.max - holds[c.name], kg))
  }

  /** Fills compartments in order: the holds after, and the kilos that do not fit. */
  function Poured(comps: seq<Compartment>, holds: Holds, kg: int): (r: (Holds, int))
    requires Named(comps, holds)
    ensures r.0.Keys == holds.Keys
  {
    if comps == [] then (holds, kg)
    else
      var take := Take(comps[0], holds, kg);
      Poured(comps[1..], holds[comps[0].name := holds[comps[0].name] + take], kg - take)
  }

  predicate SameIn(comps: seq<Compartment>, holds: Holds, next: Holds)
    requires Named(comps, holds) && Named(comps, next)
  {
    forall i | 0 <= i < |comps| :: next[comps[i].name] == holds[comps[i].name]
  }

  lemma {:induction false} SameCapacity(comps: seq<Compartment>, holds: Holds, next: Holds)
    requires Named(comps, holds) && Named(comps, next) && SameIn(comps, holds, next)
    ensures Capacity(comps, next) == Capacity(comps, holds) && Loaded(comps, next) == Loaded(comps, holds)
    decreases |comps|
  {
    if comps != [] {
      forall i | 0 <= i < |comps[1..]| ensures next[comps[1..][i].name] == holds[comps[1..][i].name] {
        assert comps[1..][i] == comps[i + 1];
      }
      SameCapacity(comps[1..], holds, next);
    }
  }

  lemma {:induction false} CapacityNotNegative(comps: seq<Compartment>, holds: Holds)
    requires WithinLimits(comps, holds)
    ensures Capacity(comps, holds) >= 0
    decreases |comps|
  {
    if comps != [] {
      CapacityNotNegative(comps[1..], holds);
    }
  }

  lemma TailWellFormed(comps: seq<Compartment>)
    requires WellFormed(comps) && comps != []
    ensures WellFormed(comps[1..]) && forall i | 0 <= i < |comps[1..]| :: comps[1..][i].name != comps[0].name
  {
    forall i | 0 <= i < |comps[1..]| ensures comps[1..][i] == comps[i + 1] {
    }
  }

  function Mid(comps: seq<Compartment>, holds: Holds, kg: int): Holds
    requires Named(comps, holds) && comps != []
  {
    holds[comps[0].name := holds[comps[0].name] + Take(comps[0], holds, kg)]
  }

  lemma {:induction false} PouringElsewhere(comps: seq<Compartment>, holds: Holds, kg: int, name: string)
    requires Named(comps, holds) && name in holds && forall i | 0 <= i < |comps| :: comps[i].name != name
    ensures Poured(comps, holds, kg).0[name] == holds[name]
    decreases |comps|
  {
    hide Take;
    if comps != [] {
      forall i | 0 <= i < |comps[1..]| ensures comps[1..][i].name != name {
        assert comps[1..][i] == comps[i + 1];
      }
      PouringElsewhere(comps[1..], Mid(comps, holds, kg), kg - Take(comps[0], holds, kg), name);
    }
  }

  /** The first compartment takes what it can and the others are as they were. */
  lemma PourOne(comps: seq<Compartment>, holds: Holds, kg: nat)
    requires WellFormed(comps) && WithinLimits(comps, holds) && comps != []
    ensures var mid, take := Mid(comps, holds, kg), Take(comps[0], holds, kg);
            && 0 <= take <= kg && 0 <= mid[comps[0].name] == holds[comps[0].name] + take <= comps[0].max
            && take == Min(comps[0].max - holds[comps[0].name], kg)
            && WellFormed(comps[1..]) && WithinLimits(comps[1..], mid) && WithinLimits(comps[1..], holds)
            && Capacity(comps[1..], mid) == Capacity(comps[1..], holds) >= 0
            && Loaded(comps[1..], mid) == Loaded(comps[1..], holds)
  {
    TailWellFormed(comps);
    var rest, mid := comps[1..], Mid(comps, holds, kg);
    forall i | 0 <= i < |rest| ensures mid[rest[i].name] == holds[rest[i].name] && 0 <= holds[rest[i].name] <= rest[i].max {
      assert rest[i] == comps[i + 1];
    }
    SameCapacity(rest, holds, mid);
    CapacityNotNegative(rest, holds);
  }

  /** Filling keeps every limit, loses no kilo, and leaves over exactly what exceeds the
      room there was. */
  lemma {:induction false} PouringIsRight(comps: seq<Compartment>, holds: Holds, kg: nat)
    requires WellFormed(comps) && WithinLimits(comps, holds)
    ensures var (next, left) := Poured(comps, holds, kg);
            && WithinLimits(comps, next)
            && left == Max(0, kg - Capacity(comps, holds))
            && Loaded(comps, next) == Loaded(comps, holds) + kg - left
    decreases |comps|
  {
    hide Take, WellFormed;
    if comps != [] {
      var c, rest := comps[0], comps[1..];
      var mid, take := Mid(comps, holds, kg), Take(c, holds, kg);
      PourOne(comps, holds, kg);
      PouringIsRight(rest, mid, kg - take);
      TailWellFormed(comps);
      PouringElsewhere(rest, mid, kg - take, c.name);
      var (next, left) := Poured(comps, holds, kg);
      assert (next, left) == Poured(rest, mid, kg - take);
      assert next[c.name] == mid[c.name];
      forall i | 0 <= i < |comps| ensures comps[i].name in next && 0 <= next[comps[i].name] <= comps[i].max {
        assert i > 0 ==> rest[i - 1] == comps[i];
      }
    }
  }

  // ---------------------------------------------------------------- the plan

  datatype Aircraft = Aircraft(compartments: seq<Compartment>, refArm: real)

  function Forward(comps: seq<Compartment>, refArm: real): seq<Compartment> {
    if comps == [] then [] else (if comps[0].arm < refArm then [comps[0]] else []) + Forward(comps[1..], refArm)
  }

  function Aft(comps: seq<Compartment>, refArm: real): seq<Compartment> {
    if comps == [] then [] else (if comps[0].arm < refArm then [] else [comps[0]]) + Aft(comps[1..], refArm)
  }

  /** Where a stable sort by descending arm puts one more. */
  function PlaceByArm(order: seq<Compartment>, c: Compartment): (k: nat)
    ensures k <= |order|
  {
    if order == [] || order[|order| - 1].arm >= c.arm then |order| else PlaceByArm(order[..|order| - 1], c)
  }

  function AftFirst(comps: seq<Compartment>): seq<Compartment> {
    if comps == [] then []
    else
      var order, c := AftFirst(comps[..|comps| - 1]), comps[|comps| - 1];
      var k := PlaceByArm(order, c);
      order[..k] + [c] + order[k..]
  }

  function Empty(comps: seq<Compartment>): (h: Holds)
    ensures forall c | c in comps :: c.name in h
    ensures forall n | n in h :: h[n] == 0
  {
    if comps == [] then map[] else Empty(comps[..|comps| - 1])[comps[|comps| - 1].name := 0]
  }

  /** The grid has steps of five hundredths; half a kilo rounds up. */
  const STEPS := 20

  function ShareOf(kg: nat, step: nat): nat {
    (2 * kg * step + STEPS) / (2 * STEPS)
  }

  /** The split at a step breaks neither end's room. */
  predicate Feasible(fwd: seq<Compartment>, aft: seq<Compartment>, holds: Holds, kg: nat, step: nat)
    requires Named(fwd, holds) && Named(aft, holds)
  {
    ShareOf(kg, step) <= Capacity(fwd, holds) && kg - ShareOf(kg, step) <= Capacity(aft, holds)
  }

  /** The best-scoring step of the first n that is feasible. */
  function BestOf(fwd: seq<Compartment>, aft: seq<Compartment>, holds: Holds, kg: nat, score: nat -> real, n: nat): (best: Option<nat>)
    requires Named(fwd, holds) && Named(aft, holds)
    ensures best.Some? ==> best.value < n && Feasible(fwd, aft, holds, kg, best.value)
  {
    if n == 0 then None
    else
      var before := BestOf(fwd, aft, holds, kg, score, n - 1);
      if Feasible(fwd, aft, holds, kg, n - 1) && (before.None? || score(n - 1) < score(before.value)) then Some(n - 1)
      else before
  }

  /** An even split when nothing fits. */
  function BestStep(fwd: seq<Compartment>, aft: seq<Compartment>, holds: Holds, kg: nat, score: nat -> real): nat
    requires Named(fwd, holds) && Named(aft, holds)
  {
    var best := BestOf(fwd, aft, holds, kg, score, STEPS + 1);
    if best.Some? then best.value else STEPS / 2
  }

  /** The holds when loaded, and the kilos of cargo and mail and of bags that do not fit. */
  datatype Planned = Planned(holds: Holds, deadLeft: int, bagsLeft: int)

  lemma SplitNamed(comps: seq<Compartment>, refArm: real, holds: Holds)
    requires Named(comps, holds)
    ensures Named(Forward(comps, refArm), holds) && Named(Aft(comps, refArm), holds)
  {
    SplitMembers(comps, refArm);
    forall i | 0 <= i < |Forward(comps, refArm)| ensures Forward(comps, refArm)[i].name in holds {
      assert Forward(comps, refArm)[i] in comps;
    }
    forall i | 0 <= i < |Aft(comps, refArm)| ensures Aft(comps, refArm)[i].name in holds {
      assert Aft(comps, refArm)[i] in comps;
    }
  }

  lemma {:induction false} SplitMembers(comps: seq<Compartment>, refArm: real)
    ensures forall c :: c in Forward(comps, refArm) <==> c in comps && c.arm < refArm
    ensures forall c :: c in Aft(comps, refArm) <==> c in comps && c.arm >= refArm
    decreases |comps|
  {
    if comps != [] {
      SplitMembers(comps[1..], refArm);
      assert forall c :: c in comps <==> c == comps[0] || c in comps[1..];
    }
  }

  lemma {:induction false} AftFirstMembers(comps: seq<Compartment>)
    ensures forall c :: c in AftFirst(comps) <==> c in comps
    ensures |AftFirst(comps)| == |comps|
    decreases |comps|
  {
    if comps != [] {
      var order, c := AftFirst(comps[..|comps| - 1]), comps[|comps| - 1];
      AftFirstMembers(comps[..|comps| - 1]);
      assert order == order[..PlaceByArm(order, c)] + order[PlaceByArm(order, c)..];
      assert forall d :: d in comps <==> d in comps[..|comps| - 1] || d == c;
    }
  }

  lemma EmptyNamed(comps: seq<Compartment>)
    ensures Named(comps, Empty(comps)) && Named(AftFirst(comps), Empty(comps))
  {
    AftFirstMembers(comps);
    forall i | 0 <= i < |AftFirst(comps)| ensures AftFirst(comps)[i].name in Empty(comps) {
      assert AftFirst(comps)[i] in comps;
    }
  }

  /** Cargo and mail first, from the aft end. */
  function DeadLoaded(a: Aircraft, dead: int): (Holds, int) {
    EmptyNamed(a.compartments);
    Poured(AftFirst(a.compartments), Empty(a.compartments), dead)
  }

  /** Then the bags: forward by the best step, the rest aft. */
  function Plan(a: Aircraft, cargo: nat, mail: nat, kilos: nat, score: nat -> real): Planned {
    EmptyNamed(a.compartments);
    var (holds, deadLeft) := DeadLoaded(a, cargo + mail);
    SplitNamed(a.compartments, a.refArm, holds);
    var fwd, aft := Forward(a.compartments, a.refArm), Aft(a.compartments, a.refArm);
    var forward := ShareOf(kilos, BestStep(fwd, aft, holds, kilos, score));
    var (some, left) := Poured(fwd, holds, forward);
    var (full, more) := Poured(aft, some, kilos - forward);
    Planned(full, deadLeft, left + Max(0, more))
  }

  // ---------------------------------------------------------------- containers

  /** Half rounds away from nothing. */
  function Rounded(x: int, y: int): int
    requires y > 0
  {
    if x >= 0 then (2 * x + y) / (2 * y) else -((-2 * x + y) / (2 * y))
  }

  predicate PositionUsed(ulds: seq<ULD>, position: string) {
    exists i | 0 <= i < |ulds| :: ulds[i].position == position
  }

  /** Fills the compartment's free positions, each to its capacity. */
  function Built(ulds: seq<ULD>, used: seq<ULD>, c: Compartment, positions: seq<string>, kg: int, contents: string): seq<ULD>
    decreases |positions|
  {
    if positions == [] || kg <= 0 then ulds
    else if PositionUsed(used, positions[0]) then Built(ulds, used, c, positions[1..], kg, contents)
    else
      var take := Min(kg, c.uldMax);
      Built(ulds + [ULD(positions[0], take, contents, 0)], used, c, positions[1..], kg - take, contents)
  }

  /** The containers that filling the compartments builds. */
  function Containers(comps: seq<Compartment>, holds: Holds, kg: int, ulds: seq<ULD>): seq<ULD>
    requires Named(comps, holds)
  {
    if comps == [] then ulds
    else
      var take := Take(comps[0], holds, kg);
      var built := if take > 0 && comps[0].takesULDs then Built(ulds, ulds, comps[0], comps[0].positions, take, "B") else ulds;
      Containers(comps[1..], holds[comps[0].name := holds[comps[0].name] + take], kg - take, built)
  }

  predicate IsBaggage(u: ULD) {
    u.contents != "" && u.contents[0] == 'B'
  }

  /** Counts given out by weight over the first n containers: the containers, the bags
      still to give and the last baggage container. */
  datatype Shares = Shares(ulds: seq<ULD>, remaining: int, last: Option<nat>)

  function Shared(ulds: seq<ULD>, bags: int, kilos: int, n: nat): (s: Shares)
    requires n <= |ulds|
    ensures |s.ulds| == |ulds| && (s.last.Some? ==> s.last.value < n && IsBaggage(ulds[s.last.value]))
    ensures forall i | 0 <= i < |ulds| :: s.ulds[i] == ulds[i].(bags := s.ulds[i].bags) && (i >= n ==> s.ulds[i] == ulds[i])
    ensures forall i | 0 <= i < n :: IsBaggage(ulds[i]) ==> s.last.Some?
  {
    if n == 0 then Shares(ulds, bags, None)
    else
      var s, u := Shared(ulds, bags, kilos, n - 1), ulds[n - 1];
      if !IsBaggage(u) then s
      else
        var share := Min(Rounded(bags * u.weight, Max(1, kilos)), s.remaining);
        Shares(s.ulds[n - 1 := u.(bags := share)], s.remaining - share, Some(n - 1))
  }

  /** Rounding leaves a bag or two over; they go in the last container. */
  function Apportioned(ulds: seq<ULD>, bags: int, kilos: int): (r: seq<ULD>)
    ensures |r| == |ulds|
  {
    if bags <= 0 || ulds == [] then ulds
    else
      var s := Shared(ulds, bags, kilos, |ulds|);
      match s.last
      case None => s.ulds
      case Some(i) => s.ulds[i := s.ulds[i].(bags := s.ulds[i].bags + s.remaining)]
  }

  function BagsIn(ulds: seq<ULD>): int {
    if ulds == [] then 0 else BagsIn(ulds[..|ulds| - 1]) + (if IsBaggage(ulds[|ulds| - 1]) then ulds[|ulds| - 1].bags else 0)
  }

  lemma {:induction false} BagsUpdate(ulds: seq<ULD>, i: nat, u: ULD)
    requires i < |ulds| && IsBaggage(ulds[i]) && IsBaggage(u)
    ensures BagsIn(ulds[i := u]) == BagsIn(ulds) - ulds[i].bags + u.bags
    decreases |ulds|
  {
    var next := ulds[i := u];
    if i < |ulds| - 1 {
      assert next[..|ulds| - 1] == ulds[..|ulds| - 1][i := u];
      BagsUpdate(ulds[..|ulds| - 1], i, u);
    } else {
      assert next[..|ulds| - 1] == ulds[..|ulds| - 1];
    }
  }

  /** What has been given out and what remains are all the bags. */
  lemma {:induction false} SharesBalance(ulds: seq<ULD>, bags: int, kilos: int, n: nat)
    requires n <= |ulds| && forall i | 0 <= i < |ulds| :: ulds[i].bags == 0
    ensures var s := Shared(ulds, bags, kilos, n); BagsIn(s.ulds) + s.remaining == bags
    decreases n
  {
    hide Rounded, IsBaggage, BagsIn;
    if n == 0 {
      NoBagsYet(ulds);
    } else {
      SharesBalance(ulds, bags, kilos, n - 1);
      var before, s := Shared(ulds, bags, kilos, n - 1), Shared(ulds, bags, kilos, n);
      if IsBaggage(ulds[n - 1]) {
        SameBaggage(ulds[n - 1], s.ulds[n - 1]);
        BagsUpdate(before.ulds, n - 1, s.ulds[n - 1]);
      }
    }
  }

  lemma SameBaggage(u: ULD, v: ULD)
    requires v.contents == u.contents
    ensures IsBaggage(u) <==> IsBaggage(v)
  {
  }

  lemma {:induction false} NoBagsYet(ulds: seq<ULD>)
    requires forall i | 0 <= i < |ulds| :: ulds[i].bags == 0
    ensures BagsIn(ulds) == 0
    decreases |ulds|
  {
    if ulds != [] {
      NoBagsYet(ulds[..|ulds| - 1]);
    }
  }

  /** Whenever a baggage container exists, the containers' bags are all the bags. */
  lemma ContainersHoldEveryBag(ulds: seq<ULD>, bags: nat, kilos: int)
    requires forall i | 0 <= i < |ulds| :: ulds[i].bags == 0
    requires exists i | 0 <= i < |ulds| :: IsBaggage(ulds[i])
    ensures BagsIn(Apportioned(ulds, bags, kilos)) == bags
  {
    hide IsBaggage;
    if bags == 0 {
      NoBagsYet(ulds);
    } else {
      SharesBalance(ulds, bags, kilos, |ulds|);
      var s := Shared(ulds, bags, kilos, |ulds|);
      var i := s.last.value;
      SameBaggage(ulds[i], s.ulds[i]);
      SameBaggage(s.ulds[i], s.ulds[i].(bags := s.ulds[i].bags + s.remaining));
      BagsUpdate(s.ulds, i, s.ulds[i].(bags := s.ulds[i].bags + s.remaining));
    }
  }

  /** The containers a plan builds, forward holds first. */
  function PlannedULDs(a: Aircraft, cargo: nat, mail: nat, kilos: nat, score: nat -> real): seq<ULD> {
    var holds := DeadLoaded(a, cargo + mail).0;
    EmptyNamed(a.compartments);
    SplitNamed(a.compartments, a.refArm, holds);
    var fwd, aft := Forward(a.compartments, a.refArm), Aft(a.compartments, a.refArm);
    var forward := ShareOf(kilos, BestStep(fwd, aft, holds, kilos, score));
    Containers(aft, Poured(fwd, holds, forward).0, kilos - forward, Containers(fwd, holds, forward, []))
  }

  predicate NewBaggage(ulds: seq<ULD>) {
    forall i | 0 <= i < |ulds| :: ulds[i].bags == 0 && IsBaggage(ulds[i])
  }

  lemma {:induction false} BuiltNew(ulds: seq<ULD>, used: seq<ULD>, c: Compartment, positions: seq<string>, kg: int)
    requires NewBaggage(ulds)
    ensures NewBaggage(Built(ulds, used, c, positions, kg, "B"))
    decreases |positions|
  {
    if positions != [] && kg > 0 {
      if PositionUsed(used, positions[0]) {
        BuiltNew(ulds, used, c, positions[1..], kg);
      } else {
        var take := Min(kg, c.uldMax);
        BuiltNew(ulds + [ULD(positions[0], take, "B", 0)], used, c, positions[1..], kg - take);
      }
    }
  }

  lemma {:induction false} ContainersNew(comps: seq<Compartment>, holds: Holds, kg: int, ulds: seq<ULD>)
    requires Named(comps, holds) && NewBaggage(ulds)
    ensures NewBaggage(Containers(comps, holds, kg, ulds))
    decreases |comps|
  {
    hide NewBaggage, Take, Built;
    if comps != [] {
      var take := Take(comps[0], holds, kg);
      BuiltNew(ulds, ulds, comps[0], comps[0].positions, take);
      var built := if take > 0 && comps[0].takesULDs then Built(ulds, ulds, comps[0], comps[0].positions, take, "B") else ulds;
      ContainersNew(comps[1..], holds[comps[0].name := holds[comps[0].name] + take], kg - take, built);
    }
  }

  // ---------------------------------------------------------------- what containers hold

  function KilosIn(ulds: seq<ULD>): int {
    if ulds == [] then 0 else KilosIn(ulds[..|ulds| - 1]) + ulds[|ulds| - 1].weight
  }

  /** How many of the positions no container stands at. */
  function FreePositions(used: seq<ULD>, positions: seq<string>): nat {
    if positions == [] then 0
    else (if PositionUsed(used, positions[0]) then 0 else 1) + FreePositions(used, positions[1..])
  }

  lemma KilosSnoc(ulds: seq<ULD>, u: ULD)
    ensures KilosIn(ulds + [u]) == KilosIn(ulds) + u.weight
  {
    assert (ulds + [u])[..|ulds|] == ulds;
  }

  lemma OneMorePosition(kg: int, most: int, free: nat)
    requires kg > 0
    ensures var take := Min(kg, most);
            take + (if kg - take <= 0 then 0 else Min(kg - take, free * most)) == Min(kg, (free + 1) * most)
  {
    if most >= kg {
      assert (free + 1) * most == free * most + most;
      assert free * most >= 0;
    } else {
      assert (free + 1) * most == free * most + most;
    }
  }

  lemma {:induction false} BuiltKilos(ulds: seq<ULD>, used: seq<ULD>, c: Compartment, positions: seq<string>, kg: int, contents: string)
    ensures KilosIn(Built(ulds, used, c, positions, kg, contents)) - KilosIn(ulds)
         == if kg <= 0 then 0 else Min(kg, FreePositions(used, positions) * c.uldMax)
    decreases |positions|
  {
    hide PositionUsed, KilosIn;
    if positions != [] && kg > 0 {
      if PositionUsed(used, positions[0]) {
        BuiltKilos(ulds, used, c, positions[1..], kg, contents);
      } else {
        var u := ULD(positions[0], Min(kg, c.uldMax), contents, 0);
        KilosSnoc(ulds, u);
        BuiltKilos(ulds + [u], used, c, positions[1..], kg - u.weight, contents);
        OneMorePosition(kg, c.uldMax, FreePositions(used, positions[1..]));
      }
    }
  }

  /** The containers of a compartment take exactly the kilos it was given if and only if
      these are no more than its free positions carry; what is more stays in the hold
      total and in no container, and nothing is said. */
  lemma ContainersTakeItExactly(ulds: seq<ULD>, c: Compartment, kg: nat, contents: string)
    ensures KilosIn(Built(ulds, ulds, c, c.positions, kg, contents)) == KilosIn(ulds) + kg
       <==> kg == 0 || kg <= FreePositions(ulds, c.positions) * c.uldMax
  {
    hide Built, KilosIn, FreePositions;
    BuiltKilos(ulds, ulds, c, c.positions, kg, contents);
  }

  /** Whenever a plan builds a container, its containers' bag counts add up to the bags. */
  lemma PlannedContainersHoldEveryBag(a: Aircraft, cargo: nat, mail: nat, bags: nat, kilos: nat, score: nat -> real)
    requires PlannedULDs(a, cargo, mail, kilos, score) != []
    ensures BagsIn(Apportioned(PlannedULDs(a, cargo, mail, kilos, score), bags, kilos)) == bags
  {
    hide Poured, Containers, BestStep, ShareOf, IsBaggage, Apportioned, BagsIn, DeadLoaded;
    var holds := DeadLoaded(a, cargo + mail).0;
    EmptyNamed(a.compartments);
    DeadKeepsNames(a, cargo + mail);
    SplitNamed(a.compartments, a.refArm, holds);
    var fwd, aft := Forward(a.compartments, a.refArm), Aft(a.compartments, a.refArm);
    var forward := ShareOf(kilos, BestStep(fwd, aft, holds, kilos, score));
    ContainersNew(fwd, holds, forward, []);
    ContainersNew(aft, Poured(fwd, holds, forward).0, kilos - forward, Containers(fwd, holds, forward, []));
    var built := PlannedULDs(a, cargo, mail, kilos, score);
    assert IsBaggage(built[0]);
    ContainersHoldEveryBag(built, bags, kilos);
  }

  lemma DeadKeepsNames(a: Aircraft, dead: int)
    ensures Named(a.compartments, DeadLoaded(a, dead).0)
  {
    EmptyNamed(a.compartments);
  }

  // ---------------------------------------------------------------- loading

  class Load {
    var holds: Holds
    var ulds: seq<ULD>

    constructor (comps: seq<Compartment>)
      ensures holds == Empty(comps) && ulds == []
    {
      ulds := [];
      var h: Holds := map[];
      for i := 0 to |comps|
        invariant h == Empty(comps[..i])
      {
        ghost var sofar := comps[..i + 1];
        assert sofar[..i] == comps[..i] && sofar[i] == comps[i];
        h := h[comps[i].name := 0];
      }
      assert comps[..|comps|] == comps;
      holds := h;
    }

    /** Cargo and mail, in the order given. */
    method LoadDead(order: seq<Compartment>, kilos: nat) returns (dead: int)
      requires Named(order, holds)
      modifies this
      ensures (holds, dead) == Poured(order, old(holds), kilos) && ulds == old(ulds)
    {
      dead := kilos;
      for i := 0 to |order|
        invariant dead >= 0 && ulds == old(ulds) && Named(order, holds)
        invariant Poured(order[i..], holds, dead) == Poured(order, old(holds), kilos)
      {
        assert order[i..][0] == order[i] && order[i..][1..] == order[i + 1..];
        if dead == 0 {
          NothingToPour(order[i..], holds, dead);
          return;
        }
        var take := Min(order[i].max - holds[order[i].name], dead);
        if take > 0 {
          holds := holds[order[i].name := holds[order[i].name] + take];
          dead := dead - take;
        } else {
          assert holds[order[i].name := holds[order[i].name] + 0] == holds;
        }
      }
      assert order[|order|..] == [];
    }

    method BuildULDs(c: Compartment, kilos: int, contents: string)
      modifies this`ulds
      ensures ulds == Built(old(ulds), old(ulds), c, c.positions, kilos, contents)
    {
      ghost var used := ulds;
      var taken: set<string> := {};
      for i := 0 to |ulds|
        invariant forall position :: position in taken <==> PositionUsed(ulds[..i], position)
      {
        ghost var sofar := ulds[..i + 1];
        assert sofar == ulds[..i] + [ulds[i]];
        taken := taken + {ulds[i].position};
        forall position ensures position in taken <==> PositionUsed(sofar, position) {
          OneMoreUsed(ulds[..i], ulds[i], position);
        }
      }
      assert ulds[..|ulds|] == ulds;
      var kg := kilos;
      for i := 0 to |c.positions|
        invariant Built(ulds, used, c, c.positions[i..], kg, contents) == Built(used, used, c, c.positions, kilos, contents)
      {
        assert c.positions[i..][0] == c.positions[i] && c.positions[i..][1..] == c.positions[i + 1..];
        if kg <= 0 {
          return;
        }
        if c.positions[i] !in taken {
          var take := Min(kg, c.uldMax);
          ulds := ulds + [ULD(c.positions[i], take, contents, 0)];
          kg := kg - take;
        }
      }
      assert c.positions[|c.positions|..] == [];
    }

    /** Bags, into holds and containers: the kilos that do not fit. */
    method Fill(comps: seq<Compartment>, kilos: int) returns (kg: int)
      requires Named(comps, holds)
      modifies this
      ensures Poured(comps, old(holds), kilos).0 == holds && kg == Poured(comps, old(holds), kilos).1
      ensures ulds == Containers(comps, old(holds), kilos, old(ulds))
    {
      hide Built;
      kg := kilos;
      for i := 0 to |comps|
        invariant Named(comps, holds)
        invariant Poured(comps[i..], holds, kg) == Poured(comps, old(holds), kilos)
        invariant Containers(comps[i..], holds, kg, ulds) == Containers(comps, old(holds), kilos, old(ulds))
      {
        assert comps[i..][0] == comps[i] && comps[i..][1..] == comps[i + 1..];
        if kg <= 0 {
          NothingToPour(comps[i..], holds, kg);
          NothingToBuild(comps[i..], holds, kg, ulds);
          return;
        }
        var c := comps[i];
        var take := Min(c.max - holds[c.name], kg);
        if take > 0 {
          holds := holds[c.name := holds[c.name] + take];
          kg := kg - take;
          if c.takesULDs {
            BuildULDs(c, take, "B");
          }
        } else {
          assert holds[c.name := holds[c.name] + 0] == holds;
        }
      }
      assert comps[|comps|..] == [];
    }

    /** Bag counts by weight, the rest in the last container. */
    method Apportion(bags: int, kilos: int)
      modifies this`ulds
      ensures ulds == Apportioned(old(ulds), bags, kilos)
    {
      hide IsBaggage, Rounded;
      if bags <= 0 || ulds == [] {
        return;
      }
      ghost var was := ulds;
      var remaining := bags;
      var last: Option<nat> := None;
      for i := 0 to |ulds|
        invariant |ulds| == |was| && Shares(ulds, remaining, last) == Shared(was, bags, kilos, i)
      {
        if IsBaggage(ulds[i]) {
          var n := Min(Rounded(bags * ulds[i].weight, Max(1, kilos)), remaining);
          ulds := ulds[i := ulds[i].(bags := n)];
          remaining := remaining - n;
          last := Some(i);
        }
      }
      if last.Some? {
        ulds := ulds[last.value := ulds[last.value].(bags := ulds[last.value].bags + remaining)];
      }
    }
  }

  lemma OneMoreUsed(ulds: seq<ULD>, u: ULD, position: string)
    ensures PositionUsed(ulds + [u], position) <==> PositionUsed(ulds, position) || u.position == position
  {
    var all := ulds + [u];
    assert all[|ulds|] == u;
    if i :| 0 <= i < |ulds| && ulds[i].position == position {
      assert all[i].position == position;
    }
  }

  lemma {:induction false} NothingToPour(comps: seq<Compartment>, holds: Holds, kg: int)
    requires Named(comps, holds) && kg <= 0
    ensures Poured(comps, holds, kg) == (holds, kg)
    decreases |comps|
  {
    if comps != [] {
      assert holds[comps[0].name := holds[comps[0].name] + 0] == holds;
      NothingToPour(comps[1..], holds, kg);
    }
  }

  lemma {:induction false} NothingToBuild(comps: seq<Compartment>, holds: Holds, kg: int, ulds: seq<ULD>)
    requires Named(comps, holds) && kg <= 0
    ensures Containers(comps, holds, kg, ulds) == ulds
    decreases |comps|
  {
    if comps != [] {
      assert holds[comps[0].name := holds[comps[0].name] + 0] == holds;
      NothingToBuild(comps[1..], holds, kg, ulds);
    }
  }

  method Room(comps: seq<Compartment>, holds: Holds) returns (n: int)
    requires Named(comps, holds)
    ensures n == Capacity(comps, holds)
  {
    n := 0;
    for i := 0 to |comps|
      invariant n + Capacity(comps[i..], holds) == Capacity(comps, holds)
    {
      assert comps[i..][0] == comps[i] && comps[i..][1..] == comps[i + 1..];
      n := n + (comps[i].max - holds[comps[i].name]);
    }
    assert comps[|comps|..] == [];
  }

  method PlaceInOrder(order: seq<Compartment>, c: Compartment) returns (k: nat)
    ensures k == PlaceByArm(order, c)
  {
    k := |order|;
    assert order[..k] == order;
    while k > 0 && order[k - 1].arm < c.arm
      invariant k <= |order| && PlaceByArm(order, c) == PlaceByArm(order[..k], c)
    {
      assert order[..k][..k - 1] == order[..k - 1] && order[..k][k - 1] == order[k - 1];
      k := k - 1;
    }
    assert k > 0 ==> order[..k][k - 1] == order[k - 1];
  }

  method SortAftFirst(comps: seq<Compartment>) returns (order: seq<Compartment>)
    ensures order == AftFirst(comps)
  {
    hide PlaceByArm;
    order := [];
    for i := 0 to |comps|
      invariant order == AftFirst(comps[..i])
    {
      ghost var sofar := comps[..i + 1];
      assert sofar[..i] == comps[..i] && sofar[i] == comps[i];
      var k := PlaceInOrder(order, comps[i]);
      order := order[..k] + [comps[i]] + order[k..];
    }
    assert comps[..|comps|] == comps;
  }

  /** Searches the grid for the split that trims best and fits. */
  method SearchShare(fwd: seq<Compartment>, aft: seq<Compartment>, holds: Holds, kilos: nat, score: nat -> real) returns (best: nat)
    requires Named(fwd, holds) && Named(aft, holds)
    ensures best == BestStep(fwd, aft, holds, kilos, score)
  {
    best := STEPS / 2;
    var found := false;
    var fwdRoom := Room(fwd, holds);
    var aftRoom := Room(aft, holds);
    for step := 0 to STEPS + 1
      invariant BestOf(fwd, aft, holds, kilos, score, step) == if found then Some(best) else None
      invariant !found ==> best == STEPS / 2
    {
      var share := ShareOf(kilos, step);
      if share <= fwdRoom && kilos - share <= aftRoom && (!found || score(step) < score(best)) {
        best, found := step, true;
      }
    }
  }

  method PlanLoad(a: Aircraft, cargo: nat, mail: nat, bags: nat, kilos: nat, score: nat -> real)
    returns (l: Load, deadLeft: int, bagsLeft: int)
    ensures Planned(l.holds, deadLeft, bagsLeft) == Plan(a, cargo, mail, kilos, score)
    ensures l.ulds == Apportioned(PlannedULDs(a, cargo, mail, kilos, score), bags, kilos)
  {
    hide Poured, Containers, Apportioned, BestStep, ShareOf;
    EmptyNamed(a.compartments);
    l := new Load(a.compartments);
    var order := SortAftFirst(a.compartments);
    deadLeft := l.LoadDead(order, cargo + mail);
    SplitNamed(a.compartments, a.refArm, l.holds);
    var fwd, aft := Forward(a.compartments, a.refArm), Aft(a.compartments, a.refArm);
    var best := SearchShare(fwd, aft, l.holds, kilos, score);
    var forward := ShareOf(kilos, best);
    var left := l.Fill(fwd, forward);
    var more := l.Fill(aft, kilos - forward);
    bagsLeft := left + Max(0, more);
    l.Apportion(bags, kilos);
  }

  // ---------------------------------------------------------------- what the plan keeps

  lemma {:induction false} LoadedConcat(xs: seq<Compartment>, ys: seq<Compartment>, holds: Holds)
    requires Named(xs, holds) && Named(ys, holds)
    ensures Named(xs + ys, holds)
    ensures Loaded(xs + ys, holds) == Loaded(xs, holds) + Loaded(ys, holds)
    ensures Capacity(xs + ys, holds) == Capacity(xs, holds) + Capacity(ys, holds)
    decreases |xs|
  {
    if xs == [] {
      assert xs + ys == ys;
    } else {
      assert (xs + ys)[0] == xs[0] && (xs + ys)[1..] == xs[1..] + ys;
      LoadedConcat(xs[1..], ys, holds);
    }
  }

  lemma LoadedOne(c: Compartment, holds: Holds)
    requires c.name in holds
    ensures Loaded([c], holds) == holds[c.name] && Capacity([c], holds) == c.max - holds[c.name]
  {
    assert [c][1..] == [];
    assert Loaded([c][1..], holds) == 0 && Capacity([c][1..], holds) == 0;
  }

  /** Sorting changes neither what is loaded nor the room. */
  lemma {:induction false} SortedAlike(comps: seq<Compartment>, holds: Holds)
    requires Named(comps, holds)
    ensures Named(AftFirst(comps), holds)
    ensures Loaded(AftFirst(comps), holds) == Loaded(comps, holds) && Capacity(AftFirst(comps), holds) == Capacity(comps, holds)
    decreases |comps|
  {
    hide Loaded, Capacity, PlaceByArm;
    if comps != [] {
      var init, c := comps[..|comps| - 1], comps[|comps| - 1];
      SortedAlike(init, holds);
      InsertedAlike(AftFirst(init), c, PlaceByArm(AftFirst(init), c), holds);
      assert comps == init + [c];
      LoadedConcat(init, [c], holds);
    }
  }

  lemma InsertedAlike(order: seq<Compartment>, c: Compartment, k: nat, holds: Holds)
    requires Named(order, holds) && c.name in holds && k <= |order|
    ensures var next := order[..k] + [c] + order[k..];
            && Named(next, holds)
            && Loaded(next, holds) == Loaded(order, holds) + Loaded([c], holds)
            && Capacity(next, holds) == Capacity(order, holds) + Capacity([c], holds)
  {
    hide Loaded, Capacity;
    var x, y := order[..k], order[k..];
    assert order == x + y;
    LoadedConcat(x + [c], y, holds);
    LoadedConcat(x, [c], holds);
    LoadedConcat(x, y, holds);
  }

  /** The two ends are the whole. */
  lemma {:induction false} SplitAlike(comps: seq<Compartment>, refArm: real, holds: Holds)
    requires Named(comps, holds)
    ensures Named(Forward(comps, refArm), holds) && Named(Aft(comps, refArm), holds)
    ensures Loaded(Forward(comps, refArm), holds) + Loaded(Aft(comps, refArm), holds) == Loaded(comps, holds)
    decreases |comps|
  {
    SplitNamed(comps, refArm, holds);
    if comps != [] {
      SplitAlike(comps[1..], refArm, holds);
      var c := comps[0];
      LoadedOne(c, holds);
      LoadedConcat(if c.arm < refArm then [c] else [], Forward(comps[1..], refArm), holds);
      LoadedConcat(if c.arm < refArm then [] else [c], Aft(comps[1..], refArm), holds);
    }
  }

  lemma SubWellFormed(comps: seq<Compartment>, some: seq<Compartment>)
    requires WellFormed(comps) && Distinct(some) && forall c | c in some :: c in comps
    ensures WellFormed(some)
  {
    forall i | 0 <= i < |some| ensures some[i].max >= 0 {
      assert some[i] in comps;
    }
    forall i, j | 0 <= i < j < |some| ensures some[i].name != some[j].name {
      assert some[i] in comps && some[j] in comps;
      var a :| 0 <= a < |comps| && comps[a] == some[i];
      var b :| 0 <= b < |comps| && comps[b] == some[j];
    }
  }

  lemma {:induction false} SplitDistinct(comps: seq<Compartment>, refArm: real)
    requires WellFormed(comps)
    ensures Distinct(Forward(comps, refArm)) && Distinct(Aft(comps, refArm))
    decreases |comps|
  {
    if comps != [] {
      TailWellFormed(comps);
      SplitDistinct(comps[1..], refArm);
      SplitMembers(comps[1..], refArm);
      assert comps[0] !in comps[1..];
    }
  }

  lemma {:induction false} AftFirstDistinct(comps: seq<Compartment>)
    requires WellFormed(comps)
    ensures Distinct(AftFirst(comps))
    decreases |comps|
  {
    hide PlaceByArm;
    if comps != [] {
      var init, c := comps[..|comps| - 1], comps[|comps| - 1];
      assert forall i | 0 <= i < |init| :: init[i].name != c.name;
      AftFirstDistinct(init);
      AftFirstMembers(init);
      assert c !in AftFirst(init);
      var order, k := AftFirst(init), PlaceByArm(AftFirst(init), c);
      assert order == order[..k] + order[k..];
    }
  }

  lemma PartsWellFormed(a: Aircraft)
    requires WellFormed(a.compartments)
    ensures WellFormed(AftFirst(a.compartments))
    ensures WellFormed(Forward(a.compartments, a.refArm)) && WellFormed(Aft(a.compartments, a.refArm))
  {
    AftFirstDistinct(a.compartments);
    AftFirstMembers(a.compartments);
    SplitDistinct(a.compartments, a.refArm);
    SplitMembers(a.compartments, a.refArm);
    SubWellFormed(a.compartments, AftFirst(a.compartments));
    SubWellFormed(a.compartments, Forward(a.compartments, a.refArm));
    SubWellFormed(a.compartments, Aft(a.compartments, a.refArm));
  }

  lemma LimitsOf(some: seq<Compartment>, comps: seq<Compartment>, holds: Holds)
    requires WithinLimits(comps, holds) && forall c | c in some :: c in comps
    ensures WithinLimits(some, holds)
  {
    forall i | 0 <= i < |some| ensures some[i].name in holds && 0 <= holds[some[i].name] <= some[i].max {
      assert some[i] in comps;
    }
  }

  lemma ShareWithin(kg: nat, step: nat)
    requires step <= STEPS
    ensures ShareOf(kg, step) <= kg
  {
    assert kg * step <= kg * STEPS;
    assert 2 * kg * step + STEPS <= (2 * STEPS) * kg + STEPS;
  }

  lemma {:induction false} EmptyLoaded(comps: seq<Compartment>, holds: Holds)
    requires Named(comps, holds) && forall n | n in holds :: holds[n] == 0
    ensures Loaded(comps, holds) == 0
    decreases |comps|
  {
    if comps != [] {
      EmptyLoaded(comps[1..], holds);
    }
  }

  /** Cargo and mail stay within every limit; what is left over is what exceeds all the room. */
  lemma DeadIsRight(a: Aircraft, dead: nat)
    requires WellFormed(a.compartments)
    ensures var (holds, left) := DeadLoaded(a, dead);
            WithinLimits(a.compartments, holds) && left >= 0 && Loaded(a.compartments, holds) + left == dead
  {
    hide Loaded, Capacity, Poured, AftFirst;
    var comps, order, empty := a.compartments, AftFirst(a.compartments), Empty(a.compartments);
    PartsWellFormed(a);
    EmptyNamed(comps);
    AftFirstMembers(comps);
    LimitsOf(order, comps, empty);
    PouringIsRight(order, empty, dead);
    EmptyLoaded(order, empty);
    var (holds, left) := DeadLoaded(a, dead);
    LimitsOf(comps, order, holds);
    SortedAlike(comps, holds);
  }

  lemma {:induction false} BestOfFinds(fwd: seq<Compartment>, aft: seq<Compartment>, holds: Holds, kg: nat, score: nat -> real, n: nat)
    requires Named(fwd, holds) && Named(aft, holds)
    ensures BestOf(fwd, aft, holds, kg, score, n).Some? <==> exists s: nat :: s < n && Feasible(fwd, aft, holds, kg, s)
    ensures var best := BestOf(fwd, aft, holds, kg, score, n);
            best.Some? ==> forall s: nat | s < n && Feasible(fwd, aft, holds, kg, s) :: score(best.value) <= score(s)
    decreases n
  {
    hide Feasible;
    if n > 0 {
      BestOfFinds(fwd, aft, holds, kg, score, n - 1);
    }
  }

  /** Filling one end leaves the other as it was. */
  lemma EndsApart(a: Aircraft, holds: Holds, kg: nat)
    requires WellFormed(a.compartments) && WithinLimits(a.compartments, holds)
    ensures var fwd, aft := Forward(a.compartments, a.refArm), Aft(a.compartments, a.refArm);
            && Named(fwd, holds) && Named(aft, holds)
            && var next := Poured(fwd, holds, kg).0;
               Named(aft, next) && SameIn(aft, holds, next)
  {
    hide Poured;
    SplitNamed(a.compartments, a.refArm, holds);
    var fwd, aft := Forward(a.compartments, a.refArm), Aft(a.compartments, a.refArm);
    forall i | 0 <= i < |aft| ensures Poured(fwd, holds, kg).0[aft[i].name] == holds[aft[i].name] {
      forall j | 0 <= j < |fwd| ensures fwd[j].name != aft[i].name {
        OtherEnd(a, fwd[j], aft[i]);
      }
      PouringElsewhere(fwd, holds, kg, aft[i].name);
    }
  }

  lemma OtherEnd(a: Aircraft, c: Compartment, d: Compartment)
    requires WellFormed(a.compartments) && c in Forward(a.compartments, a.refArm) && d in Aft(a.compartments, a.refArm)
    ensures c.name != d.name
  {
    SplitMembers(a.compartments, a.refArm);
    var i :| 0 <= i < |a.compartments| && a.compartments[i] == c;
    var j :| 0 <= j < |a.compartments| && a.compartments[j] == d;
  }

  /** The two fills one after the other. */
  lemma BagsAreRight(a: Aircraft, holds: Holds, kg: nat, share: nat)
    requires WellFormed(a.compartments) && WithinLimits(a.compartments, holds) && share <= kg
    ensures var fwd, aft := Forward(a.compartments, a.refArm), Aft(a.compartments, a.refArm);
            && Named(fwd, holds) && Named(aft, holds)
            && Named(aft, Poured(fwd, holds, share).0)
            && var (some, left) := Poured(fwd, holds, share);
               var (full, more) := Poured(aft, some, kg - share);
               && WithinLimits(a.compartments, full) && left >= 0 && more >= 0
               && Loaded(a.compartments, full) + left + more == Loaded(a.compartments, holds) + kg
               && (left + more == 0 <==> share <= Capacity(fwd, holds) && kg - share <= Capacity(aft, holds))
               && Named(fwd, full) && Named(aft, full)
               && Loaded(fwd, full) == Loaded(fwd, holds) + share - left && left == Max(0, share - Capacity(fwd, holds))
               && Loaded(aft, full) == Loaded(aft, holds) + kg - share - more && more == Max(0, kg - share - Capacity(aft, holds))
  {
    hide Loaded, Capacity, Poured, Forward, Aft, WellFormed;
    var comps, fwd, aft := a.compartments, Forward(a.compartments, a.refArm), Aft(a.compartments, a.refArm);
    PartsWellFormed(a);
    SplitMembers(comps, a.refArm);
    LimitsOf(fwd, comps, holds);
    LimitsOf(aft, comps, holds);
    EndsApart(a, holds, share);
    PouringIsRight(fwd, holds, share);
    var (some, left) := Poured(fwd, holds, share);
    SameCapacity(aft, holds, some);
    PouringIsRight(aft, some, kg - share);
    var (full, more) := Poured(aft, some, kg - share);
    FwdKept(a, some, kg - share);
    SameCapacity(fwd, some, full);
    forall i | 0 <= i < |comps| ensures comps[i].name in full && 0 <= full[comps[i].name] <= comps[i].max {
      EitherEnd(a, some, full, comps[i]);
    }
    SplitAlike(comps, a.refArm, holds);
    SplitAlike(comps, a.refArm, full);
  }

  lemma EitherEnd(a: Aircraft, some: Holds, full: Holds, c: Compartment)
    requires c in a.compartments && WithinLimits(Forward(a.compartments, a.refArm), some)
    requires WithinLimits(Aft(a.compartments, a.refArm), full) && Named(Forward(a.compartments, a.refArm), full)
    requires SameIn(Forward(a.compartments, a.refArm), some, full)
    ensures c.name in full && 0 <= full[c.name] <= c.max
  {
    var fwd, aft := Forward(a.compartments, a.refArm), Aft(a.compartments, a.refArm);
    SplitMembers(a.compartments, a.refArm);
    if c.arm < a.refArm {
      var i :| 0 <= i < |fwd| && fwd[i] == c;
    } else {
      var i :| 0 <= i < |aft| && aft[i] == c;
    }
  }

  lemma FwdKept(a: Aircraft, holds: Holds, kg: int)
    requires WellFormed(a.compartments)
    requires Named(Forward(a.compartments, a.refArm), holds) && Named(Aft(a.compartments, a.refArm), holds)
    ensures var fwd, aft := Forward(a.compartments, a.refArm), Aft(a.compartments, a.refArm);
            Named(fwd, Poured(aft, holds, kg).0) && SameIn(fwd, holds, Poured(aft, holds, kg).0)
  {
    hide Poured;
    var fwd, aft := Forward(a.compartments, a.refArm), Aft(a.compartments, a.refArm);
    forall i | 0 <= i < |fwd| ensures Poured(aft, holds, kg).0[fwd[i].name] == holds[fwd[i].name] {
      forall j | 0 <= j < |aft| ensures aft[j].name != fwd[i].name {
        OtherEnd(a, fwd[i], aft[j]);
      }
      PouringElsewhere(aft, holds, kg, fwd[i].name);
    }
  }

  /** Whatever the trim score, no compartment is loaded past its limit, the holds carry
      all cargo, mail and bags less exactly the kilos reported as not fitting, and no bag
      kilo is left over exactly when some share on the grid fits both ends. */
  lemma PlanIsRight(a: Aircraft, cargo: nat, mail: nat, kilos: nat, score: nat -> real)
    requires WellFormed(a.compartments)
    ensures var p := Plan(a, cargo, mail, kilos, score);
            var holds := DeadLoaded(a, cargo + mail).0;
            var fwd, aft := Forward(a.compartments, a.refArm), Aft(a.compartments, a.refArm);
            && WithinLimits(a.compartments, p.holds) && p.deadLeft >= 0 && p.bagsLeft >= 0
            && Loaded(a.compartments, p.holds) + p.deadLeft + p.bagsLeft == cargo + mail + kilos
            && Named(fwd, holds) && Named(aft, holds)
            && (p.bagsLeft == 0 <==> exists s: nat :: s <= STEPS && Feasible(fwd, aft, holds, kilos, s))
  {
    hide Loaded, Capacity, Poured, Forward, Aft, WellFormed, ShareOf, BestOf, DeadLoaded, WithinLimits;
    DeadIsRight(a, cargo + mail);
    var holds := DeadLoaded(a, cargo + mail).0;
    var fwd, aft := Forward(a.compartments, a.refArm), Aft(a.compartments, a.refArm);
    DeadNamed(a, holds);
    BestOfFinds(fwd, aft, holds, kilos, score, STEPS + 1);
    var best := BestStep(fwd, aft, holds, kilos, score);
    ShareWithin(kilos, best);
    BagsAreRight(a, holds, kilos, ShareOf(kilos, best));
    assert Feasible(fwd, aft, holds, kilos, best) <==> exists s: nat :: s <= STEPS && Feasible(fwd, aft, holds, kilos, s);
  }

  lemma DeadNamed(a: Aircraft, holds: Holds)
    requires WithinLimits(a.compartments, holds)
    ensures Named(Forward(a.compartments, a.refArm), holds) && Named(Aft(a.compartments, a.refArm), holds)
  {
    SplitNamed(a.compartments, a.refArm, holds);
  }
}
