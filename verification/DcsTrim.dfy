/** Where a load plan puts the weight: cargo and mail from the aft end, bags by the split
    that trims best, containers one after another at free positions. */
module DcsTrim {
  import opened Arithmetic
  import opened Wrappers
  import opened Sequences
  import opened DcsLoad

  // ---------------------------------------------------------------- filling in order

  /** Nothing goes into a compartment before every earlier one is full. */
  predicate FilledInOrder(comps: seq<Compartment>, holds: Holds, next: Holds)
    requires Named(comps, holds) && Named(comps, next)
  {
    forall i, j | 0 <= i < j < |comps| :: next[comps[j].name] > holds[comps[j].name] ==> next[comps[i].name] == comps[i].max
  }

  lemma {:induction false} NothingPoured(comps: seq<Compartment>, holds: Holds)
    requires WellFormed(comps) && WithinLimits(comps, holds)
    ensures Poured(comps, holds, 0) == (holds, 0)
    decreases |comps|
  {
    hide WellFormed;
    if comps != [] {
      PourOne(comps, holds, 0);
      assert Mid(comps, holds, 0) == holds;
      NothingPoured(comps[1..], holds);
    }
  }

  lemma {:induction false} PouringFillsInOrder(comps: seq<Compartment>, holds: Holds, kg: nat)
    requires WellFormed(comps) && WithinLimits(comps, holds)
    ensures FilledInOrder(comps, holds, Poured(comps, holds, kg).0)
    ensures forall i | 0 <= i < |comps| :: Poured(comps, holds, kg).0[comps[i].name] >= holds[comps[i].name]
    decreases |comps|
  {
    hide Take, WellFormed;
    if comps != [] {
      var c, rest := comps[0], comps[1..];
      var mid, take := Mid(comps, holds, kg), Take(c, holds, kg);
      PourOne(comps, holds, kg);
      PouringFillsInOrder(rest, mid, kg - take);
      TailWellFormed(comps);
      PouringElsewhere(rest, mid, kg - take, c.name);
      var next := Poured(comps, holds, kg).0;
      assert next == Poured(rest, mid, kg - take).0;
      if take < c.max - holds[c.name] {
        NothingPoured(rest, mid);
      }
      forall i | 0 <= i < |rest|
        ensures rest[i] == comps[i + 1] && mid[rest[i].name] == holds[rest[i].name]
      {
        assert rest[i].name != c.name;
      }
      forall i, j | 0 <= i < j < |comps| && next[comps[j].name] > holds[comps[j].name]
        ensures next[comps[i].name] == comps[i].max
      {
        assert comps[j] == rest[j - 1];
        if i > 0 {
          assert comps[i] == rest[i - 1];
        }
      }
      forall i | 0 <= i < |comps| ensures next[comps[i].name] >= holds[comps[i].name] {
        assert i > 0 ==> comps[i] == rest[i - 1];
      }
    }
  }

  // ---------------------------------------------------------------- the aft end first

  /** Further aft, or as far aft and listed earlier. */
  predicate AheadIn(comps: seq<Compartment>, i: nat, j: nat)
    requires i < |comps| && j < |comps|
  {
    comps[i].arm > comps[j].arm || (comps[i].arm == comps[j].arm && i < j)
  }

  /** The order is the list of compartments with the places in it rearranged. */
  predicate IsOrder(comps: seq<Compartment>, order: seq<Compartment>, places: seq<nat>) {
    && |places| == |order| == |comps| && Distinct(places)
    && (forall i: nat | i < |comps| :: i in places)
    && (forall k | 0 <= k < |places| :: places[k] < |comps| && order[k] == comps[places[k]])
    && forall j, k | 0 <= j < k < |places| :: AheadIn(comps, places[j], places[k])
  }

  lemma {:induction false} PlacedBehind(order: seq<Compartment>, c: Compartment)
    requires forall i, j | 0 <= i < j < |order| :: order[i].arm >= order[j].arm
    ensures var k := PlaceByArm(order, c);
            (forall i | 0 <= i < k :: order[i].arm >= c.arm) && (forall i | k <= i < |order| :: order[i].arm < c.arm)
    decreases |order|
  {
    if order != [] && order[|order| - 1].arm < c.arm {
      PlacedBehind(order[..|order| - 1], c);
    }
  }

  /** The places of the order when one more compartment is listed. */
  lemma OneMorePlace(comps: seq<Compartment>, c: Compartment, order: seq<Compartment>, places: seq<nat>, k: nat)
    requires IsOrder(comps, order, places) && k <= |order|
    requires (forall i | 0 <= i < k :: order[i].arm >= c.arm) && (forall i | k <= i < |order| :: order[i].arm < c.arm)
    ensures IsOrder(comps + [c], order[..k] + [c] + order[k..], places[..k] + [|comps|] + places[k..])
  {
    var all, next, at := comps + [c], order[..k] + [c] + order[k..], places[..k] + [|comps|] + places[k..];
    forall i | 0 <= i < |at|
      ensures at[i] < |all| && next[i] == all[at[i]]
      ensures at[i] == |comps| <==> i == k
    {
      if i < k {
        assert at[i] == places[i] && next[i] == order[i];
      } else if i > k {
        assert at[i] == places[i - 1] && next[i] == order[i - 1];
      }
    }
    forall i: nat | i < |all| ensures i in at {
      if i == |comps| {
        assert at[k] == i;
      } else {
        assert i in places;
        var p :| 0 <= p < |places| && places[p] == i;
        assert at[if p < k then p else p + 1] == i;
      }
    }
    forall i, j | 0 <= i < j < |at| ensures at[i] != at[j] && AheadIn(all, at[i], at[j]) {
      var a, b := if i < k then i else i - 1, if j < k then j else j - 1;
      if i != k && j != k {
        assert at[i] == places[a] && at[j] == places[b];
        assert AheadIn(comps, places[a], places[b]);
      } else if i == k {
        assert at[j] == places[b];
      } else {
        assert at[i] == places[a];
      }
    }
  }

  lemma OrderDescends(comps: seq<Compartment>, order: seq<Compartment>, places: seq<nat>)
    requires IsOrder(comps, order, places)
    ensures forall i, j | 0 <= i < j < |order| :: order[i].arm >= order[j].arm
  {
    forall i, j | 0 <= i < j < |order| ensures order[i].arm >= order[j].arm {
      assert AheadIn(comps, places[i], places[j]);
    }
  }

  /** The order cargo is loaded in descends by arm and keeps the listed order of equals. */
  lemma {:induction false} AftFirstIsOrder(comps: seq<Compartment>) returns (places: seq<nat>)
    ensures IsOrder(comps, AftFirst(comps), places)
    decreases |comps|
  {
    if comps == [] {
      places := [];
    } else {
      var init, c := comps[..|comps| - 1], comps[|comps| - 1];
      var before := AftFirstIsOrder(init);
      OrderDescends(init, AftFirst(init), before);
      PlacedBehind(AftFirst(init), c);
      var k := PlaceByArm(AftFirst(init), c);
      OneMorePlace(init, c, AftFirst(init), before, k);
      assert init + [c] == comps;
      places := before[..k] + [|init|] + before[k..];
    }
  }

  /** A hold takes cargo or mail only when every hold further aft is full, and, of holds at
      the same arm, every one listed before it. */
  lemma CargoGoesAft(a: Aircraft, dead: nat, i: nat, j: nat)
    requires WellFormed(a.compartments) && i < |a.compartments| && j < |a.compartments| && AheadIn(a.compartments, i, j)
    ensures var holds, comps := DeadLoaded(a, dead).0, a.compartments;
            && comps[i].name in holds && comps[j].name in holds
            && (holds[comps[j].name] > 0 ==> holds[comps[i].name] == comps[i].max)
  {
    hide WellFormed, Poured;
    var comps, order := a.compartments, AftFirst(a.compartments);
    var empty := Empty(comps);
    EmptyNamed(comps);
    PartsWellFormed(a);
    EmptyWithin(a);
    PouringFillsInOrder(order, empty, dead);
    var places := AftFirstIsOrder(comps);
    assert i in places && j in places;
    var p :| 0 <= p < |places| && places[p] == i;
    var q :| 0 <= q < |places| && places[q] == j;
    assert q < p ==> AheadIn(comps, places[q], places[p]);
    assert p < q;
    assert order[p] == comps[i] && order[q] == comps[j];
    assert empty[order[q].name] == 0;
  }

  lemma EmptyWithin(a: Aircraft)
    requires WellFormed(a.compartments)
    ensures Named(AftFirst(a.compartments), Empty(a.compartments))
    ensures WithinLimits(AftFirst(a.compartments), Empty(a.compartments))
  {
    var comps, order := a.compartments, AftFirst(a.compartments);
    EmptyNamed(comps);
    AftFirstMembers(comps);
    forall k | 0 <= k < |order| ensures 0 <= Empty(comps)[order[k].name] <= order[k].max {
      assert order[k] in order;
    }
  }

  // ---------------------------------------------------------------- the split of the bags

  /** The nearest number of kilos to so many twentieths of all, half a kilo going up. */
  predicate IsShare(share: nat, kilos: nat, step: nat) {
    -20 < 2 * (20 * share - kilos * step) <= 20
  }

  lemma ShareIsNearest(kilos: nat, step: nat)
    ensures IsShare(ShareOf(kilos, step), kilos, step)
  {
    var x := kilos * step;
    assert 2 * kilos * step == 2 * x;
  }

  /** The split at a step fits both ends. */
  ghost predicate Fits(fwd: seq<Compartment>, aft: seq<Compartment>, holds: Holds, kilos: nat, step: nat)
    requires Named(fwd, holds) && Named(aft, holds)
  {
    exists share: nat :: IsShare(share, kilos, step) && share <= Capacity(fwd, holds) && kilos - share <= Capacity(aft, holds)
  }

  lemma FitsIsFeasible(fwd: seq<Compartment>, aft: seq<Compartment>, holds: Holds, kilos: nat, step: nat)
    requires Named(fwd, holds) && Named(aft, holds)
    ensures Feasible(fwd, aft, holds, kilos, step) <==> Fits(fwd, aft, holds, kilos, step)
  {
    hide ShareOf, Capacity, IsShare;
    ShareIsNearest(kilos, step);
    forall share: nat | IsShare(share, kilos, step) ensures share == ShareOf(kilos, step) {
      OneShare(share, ShareOf(kilos, step), kilos, step);
    }
  }

  lemma OneShare(share: nat, other: nat, kilos: nat, step: nat)
    requires IsShare(share, kilos, step) && IsShare(other, kilos, step)
    ensures share == other
  {
  }

  /** The step chosen fits and scores best, the lowest of equals; with none that fits the
      bags are halved. */
  ghost predicate IsBest(fwd: seq<Compartment>, aft: seq<Compartment>, holds: Holds, kilos: nat, score: nat -> real, step: nat)
    requires Named(fwd, holds) && Named(aft, holds)
  {
    if exists s: nat :: s <= 20 && Fits(fwd, aft, holds, kilos, s) then
      && step <= 20 && Fits(fwd, aft, holds, kilos, step)
      && forall s: nat | s <= 20 && Fits(fwd, aft, holds, kilos, s) ::
           score(step) <= score(s) && (s < step ==> score(step) < score(s))
    else step == 10
  }

  lemma {:induction false} BestOfIsFirst(fwd: seq<Compartment>, aft: seq<Compartment>, holds: Holds, kilos: nat, score: nat -> real, n: nat)
    requires Named(fwd, holds) && Named(aft, holds)
    ensures var best := BestOf(fwd, aft, holds, kilos, score, n);
            && (best.None? ==> forall s: nat | s < n :: !Feasible(fwd, aft, holds, kilos, s))
            && (best.Some? ==> forall s: nat | s < n && Feasible(fwd, aft, holds, kilos, s) ::
                  score(best.value) <= score(s) && (s < best.value ==> score(best.value) < score(s)))
    decreases n
  {
    hide Feasible;
    if n > 0 {
      BestOfIsFirst(fwd, aft, holds, kilos, score, n - 1);
    }
  }

  lemma BestStepIsBest(fwd: seq<Compartment>, aft: seq<Compartment>, holds: Holds, kilos: nat, score: nat -> real)
    requires Named(fwd, holds) && Named(aft, holds)
    ensures IsBest(fwd, aft, holds, kilos, score, BestStep(fwd, aft, holds, kilos, score))
  {
    hide Feasible, Fits, BestOf;
    BestOfIsFirst(fwd, aft, holds, kilos, score, STEPS + 1);
    forall s: nat ensures Feasible(fwd, aft, holds, kilos, s) <==> Fits(fwd, aft, holds, kilos, s) {
      FitsIsFeasible(fwd, aft, holds, kilos, s);
    }
  }

  /** A bag goes forward of the datum or aft of it, as its hold stands. */
  predicate IsForward(a: Aircraft, c: Compartment) {
    c.arm < a.refArm
  }

  /** The kilos a plan adds to the holds forward of the datum, or aft of it. */
  function Added(comps: seq<Compartment>, a: Aircraft, forward: bool, before: Holds, after: Holds): int
    requires Named(comps, before) && Named(comps, after)
  {
    if comps == [] then 0
    else
      (if IsForward(a, comps[0]) == forward then after[comps[0].name] - before[comps[0].name] else 0)
      + Added(comps[1..], a, forward, before, after)
  }

  lemma {:induction false} AddedIs(comps: seq<Compartment>, a: Aircraft, before: Holds, after: Holds)
    requires Named(comps, before) && Named(comps, after)
    ensures Named(Forward(comps, a.refArm), before) && Named(Forward(comps, a.refArm), after)
    ensures Named(Aft(comps, a.refArm), before) && Named(Aft(comps, a.refArm), after)
    ensures Added(comps, a, true, before, after)
         == Loaded(Forward(comps, a.refArm), after) - Loaded(Forward(comps, a.refArm), before)
    ensures Added(comps, a, false, before, after)
         == Loaded(Aft(comps, a.refArm), after) - Loaded(Aft(comps, a.refArm), before)
    decreases |comps|
  {
    SplitNamed(comps, a.refArm, before);
    SplitNamed(comps, a.refArm, after);
    if comps != [] {
      var c := comps[0];
      AddedIs(comps[1..], a, before, after);
      if IsForward(a, c) {
        LoadedFirst(c, Forward(comps[1..], a.refArm), before);
        LoadedFirst(c, Forward(comps[1..], a.refArm), after);
        assert [] + Aft(comps[1..], a.refArm) == Aft(comps[1..], a.refArm);
      } else {
        LoadedFirst(c, Aft(comps[1..], a.refArm), before);
        LoadedFirst(c, Aft(comps[1..], a.refArm), after);
        assert [] + Forward(comps[1..], a.refArm) == Forward(comps[1..], a.refArm);
      }
    }
  }

  lemma LoadedFirst(c: Compartment, rest: seq<Compartment>, holds: Holds)
    requires Named(rest, holds) && c.name in holds
    ensures Named([c] + rest, holds) && Loaded([c] + rest, holds) == holds[c.name] + Loaded(rest, holds)
  {
    assert ([c] + rest)[1..] == rest;
  }

  /** Forward of the datum go the kilos of the best split, as far as there is room there,
      and aft of it the rest, as far as there is; what is left over is what exceeds either. */
  lemma BagsGoBySplit(a: Aircraft, cargo: nat, mail: nat, kilos: nat, score: nat -> real)
    requires WellFormed(a.compartments)
    ensures var p, holds, comps := Plan(a, cargo, mail, kilos, score), DeadLoaded(a, cargo + mail).0, a.compartments;
            var fwd, aft := Forward(comps, a.refArm), Aft(comps, a.refArm);
            && Named(comps, holds) && Named(comps, p.holds) && Named(fwd, holds) && Named(aft, holds)
            && exists step: nat, share: nat ::
                 && IsBest(fwd, aft, holds, kilos, score, step) && IsShare(share, kilos, step) && share <= kilos
                 && Added(comps, a, true, holds, p.holds) == Min(share, Capacity(fwd, holds))
                 && Added(comps, a, false, holds, p.holds) == Min(kilos - share, Capacity(aft, holds))
  {
    hide Loaded, Capacity, Poured, Forward, Aft, WellFormed, ShareOf, BestStep, DeadLoaded, WithinLimits, IsBest, IsShare, Added;
    var holds, comps := DeadLoaded(a, cargo + mail).0, a.compartments;
    DeadIsRight(a, cargo + mail);
    DeadNamed(a, holds);
    DeadKeepsNames(a, cargo + mail);
    var fwd, aft := Forward(comps, a.refArm), Aft(comps, a.refArm);
    var step := BestStep(fwd, aft, holds, kilos, score);
    var share := ShareOf(kilos, step);
    BestStepIsBest(fwd, aft, holds, kilos, score);
    ShareIsNearest(kilos, step);
    StepWithin(fwd, aft, holds, kilos, score);
    ShareWithin(kilos, step);
    BagsAreRight(a, holds, kilos, share);
    var p := Plan(a, cargo, mail, kilos, score);
    assert p.holds == Poured(aft, Poured(fwd, holds, share).0, kilos - share).0;
    AddedIs(comps, a, holds, p.holds);
  }

  lemma StepWithin(fwd: seq<Compartment>, aft: seq<Compartment>, holds: Holds, kilos: nat, score: nat -> real)
    requires Named(fwd, holds) && Named(aft, holds)
    ensures BestStep(fwd, aft, holds, kilos, score) <= STEPS
  {
    hide Feasible;
  }

  // ---------------------------------------------------------------- containers

  /** The positions no container stands at, in the order listed. */
  function Vacant(used: seq<ULD>, positions: seq<string>): seq<string> {
    if positions == [] then []
    else (if exists u :: u in used && u.position == positions[0] then [] else [positions[0]]) + Vacant(used, positions[1..])
  }

  lemma {:induction false} VacantCount(used: seq<ULD>, positions: seq<string>)
    ensures |Vacant(used, positions)| == FreePositions(used, positions)
    decreases |positions|
  {
    if positions != [] {
      VacantCount(used, positions[1..]);
      UsedIs(used, positions[0]);
    }
  }

  lemma UsedIs(used: seq<ULD>, position: string)
    ensures PositionUsed(used, position) <==> exists u :: u in used && u.position == position
  {
    if u :| u in used && u.position == position {
      var i :| 0 <= i < |used| && used[i] == u;
    }
  }

  /** The k-th container takes the k-th vacant position and what the ones before it left,
      up to its capacity. */
  predicate IsNext(u: ULD, position: string, most: int, left: int, contents: string) {
    u == ULD(position, Min(left, most), contents, 0) && left > 0
  }

  /** A compartment's kilos go into containers at its vacant positions in the order listed,
      each filled before the next is begun, until the kilos or the positions run out. */
  lemma {:induction false} BuiltInOrder(ulds: seq<ULD>, used: seq<ULD>, c: Compartment, positions: seq<string>, kg: int, contents: string)
    requires c.uldMax > 0
    ensures var built, vacant := Built(ulds, used, c, positions, kg, contents), Vacant(used, positions);
            && |ulds| <= |built| <= |ulds| + |vacant| && built[..|ulds|] == ulds
            && (forall k | |ulds| <= k < |built| ::
                  IsNext(built[k], vacant[k - |ulds|], c.uldMax, kg - (k - |ulds|) * c.uldMax, contents))
            && (|built| == |ulds| + |vacant| || kg - (|built| - |ulds|) * c.uldMax <= 0)
    decreases |positions|
  {
    hide PositionUsed;
    assert ulds[..|ulds|] == ulds;
    if positions != [] && kg > 0 {
      UsedIs(used, positions[0]);
      if PositionUsed(used, positions[0]) {
        BuiltInOrder(ulds, used, c, positions[1..], kg, contents);
      } else {
        var u := ULD(positions[0], Min(kg, c.uldMax), contents, 0);
        BuiltInOrder(ulds + [u], used, c, positions[1..], kg - u.weight, contents);
        OneMoreBuilt(ulds, u, used, c, positions, kg, contents, Built(ulds + [u], used, c, positions[1..], kg - u.weight, contents));
      }
    }
  }

  lemma OneMoreBuilt(ulds: seq<ULD>, u: ULD, used: seq<ULD>, c: Compartment, positions: seq<string>, kg: int, contents: string,
                     built: seq<ULD>)
    requires positions != [] && kg > 0 && c.uldMax > 0 && !PositionUsed(used, positions[0])
    requires u == ULD(positions[0], Min(kg, c.uldMax), contents, 0)
    requires var vacant, n, left := Vacant(used, positions[1..]), |ulds| + 1, kg - u.weight;
             && n <= |built| <= n + |vacant| && built[..n] == ulds + [u]
             && (forall k | n <= k < |built| :: IsNext(built[k], vacant[k - n], c.uldMax, left - (k - n) * c.uldMax, contents))
             && (|built| == n + |vacant| || left - (|built| - n) * c.uldMax <= 0)
    ensures var vacant := Vacant(used, positions);
            && |ulds| <= |built| <= |ulds| + |vacant| && built[..|ulds|] == ulds
            && (forall k | |ulds| <= k < |built| ::
                  IsNext(built[k], vacant[k - |ulds|], c.uldMax, kg - (k - |ulds|) * c.uldMax, contents))
            && (|built| == |ulds| + |vacant| || kg - (|built| - |ulds|) * c.uldMax <= 0)
  {
    hide PositionUsed;
    UsedIs(used, positions[0]);
    var vacant, n := Vacant(used, positions), |ulds| + 1;
    assert vacant == [positions[0]] + Vacant(used, positions[1..]);
    assert built[..|ulds|] == built[..n][..|ulds|] == ulds;
    assert built[|ulds|] == built[..n][|ulds|] == u;
    forall k | |ulds| <= k < |built|
      ensures IsNext(built[k], vacant[k - |ulds|], c.uldMax, kg - (k - |ulds|) * c.uldMax, contents)
    {
      if k > |ulds| {
        assert IsNext(built[k], vacant[k - |ulds|], c.uldMax, kg - u.weight - (k - n) * c.uldMax, contents);
        StillToLoad(kg, c.uldMax, k - n);
      }
    }
    StillToLoad(kg, c.uldMax, |built| - n);
  }

  /** A full container takes its capacity; one that is not leaves nothing. */
  lemma StillToLoad(kg: int, most: int, k: nat)
    requires kg > 0 && most > 0
    ensures kg > most ==> kg - Min(kg, most) - k * most == kg - (k + 1) * most
    ensures kg <= most ==> kg - Min(kg, most) - k * most <= 0 && kg - (k + 1) * most <= 0
  {
  }

  /** The nearest whole number to x in y parts, a half going away from nothing. */
  predicate IsNearest(n: int, x: int, y: int) {
    var over := y * n - x;
    -y <= 2 * over <= y && (2 * over == y ==> x >= 0) && (2 * over == -y ==> x < 0)
  }

  lemma RoundedIsNearest(x: int, y: int)
    requires y > 0
    ensures IsNearest(Rounded(x, y), x, y)
  {
    var n := Rounded(x, y);
    if x >= 0 {
      DivisionBounds(2 * x + y, 2 * y, n);
    } else {
      DivisionBounds(-2 * x + y, 2 * y, -n);
    }
  }

  lemma DivisionBounds(a: int, b: int, q: int)
    requires b > 0 && q == a / b
    ensures b * q <= a < b * q + b
  {
  }

  predicate IsByWeight(share: int, u: ULD, bags: int, kilos: int) {
    IsNearest(share, bags * u.weight, if kilos > 1 then kilos else 1)
  }

  /** A container's bags are its share of all by weight, as long as so many are left. */
  ghost predicate BagsByWeight(u: ULD, bags: int, kilos: int, given: int) {
    exists share :: IsByWeight(share, u, bags, kilos) && u.bags == Min(share, bags - given)
  }

  lemma {:induction false} SharesByWeight(ulds: seq<ULD>, bags: int, kilos: int, n: nat)
    requires n <= |ulds|
    ensures var s := Shared(ulds, bags, kilos, n);
            && s.remaining == bags - BagsIn(s.ulds[..n])
            && (forall i | 0 <= i < n && IsBaggage(ulds[i]) :: BagsByWeight(s.ulds[i], bags, kilos, BagsIn(s.ulds[..i])))
            && (s.last.Some? ==> forall i | s.last.value < i < n :: !IsBaggage(ulds[i]))
    decreases n
  {
    hide IsBaggage, Rounded, IsNearest;
    if n > 0 {
      SharesByWeight(ulds, bags, kilos, n - 1);
      var before, s, u := Shared(ulds, bags, kilos, n - 1), Shared(ulds, bags, kilos, n), ulds[n - 1];
      assert s.ulds[..n][..n - 1] == s.ulds[..n - 1] == before.ulds[..n - 1];
      forall i | 0 <= i < n ensures s.ulds[..i] == before.ulds[..i] {
      }
      SameBaggage(u, s.ulds[n - 1]);
      if IsBaggage(u) {
        RoundedIsNearest(bags * u.weight, Max(1, kilos));
        assert IsByWeight(Rounded(bags * u.weight, Max(1, kilos)), s.ulds[n - 1], bags, kilos);
      }
    }
  }

  /** Bags are counted to the baggage containers by weight, in order, and the last one also
      takes what rounding leaves; other containers are left alone. */
  lemma BagsCountedByWeight(ulds: seq<ULD>, bags: int, kilos: int, i: nat)
    requires i < |ulds| && bags > 0
    ensures var r := Apportioned(ulds, bags, kilos);
            && r[i] == ulds[i].(bags := r[i].bags)
            && (!IsBaggage(ulds[i]) ==> r[i] == ulds[i])
            && (IsBaggage(ulds[i]) && (exists k | i < k < |ulds| :: IsBaggage(ulds[k])) ==>
                  BagsByWeight(r[i], bags, kilos, BagsIn(r[..i])))
            && (IsBaggage(ulds[i]) && (forall k | i < k < |ulds| :: !IsBaggage(ulds[k])) ==>
                  r[i].bags == bags - BagsIn(r[..i]))
  {
    hide IsBaggage, BagsByWeight;
    var s, r := Shared(ulds, bags, kilos, |ulds|), Apportioned(ulds, bags, kilos);
    SharesByWeight(ulds, bags, kilos, |ulds|);
    if !IsBaggage(ulds[i]) {
      UntouchedOthers(ulds, bags, kilos, |ulds|, i);
    }
    if s.last.Some? {
      var last := s.last.value;
      if i <= last {
        assert r[..i] == s.ulds[..i];
      }
      if i == last {
        NoBagsBehind(s.ulds, ulds, last);
        SameBaggage(ulds[last], s.ulds[last]);
        assert s.ulds[..|ulds|] == s.ulds && s.ulds[..last + 1][..last] == s.ulds[..last];
      }
    }
  }

  lemma {:induction false} UntouchedOthers(ulds: seq<ULD>, bags: int, kilos: int, n: nat, i: nat)
    requires n <= |ulds| && i < |ulds| && !IsBaggage(ulds[i])
    ensures Shared(ulds, bags, kilos, n).ulds[i] == ulds[i]
    decreases n
  {
    hide Rounded;
    if n > 0 {
      UntouchedOthers(ulds, bags, kilos, n - 1, i);
    }
  }

  /** Containers behind the last baggage one hold no bags. */
  lemma {:induction false} NoBagsBehind(us: seq<ULD>, ulds: seq<ULD>, last: nat)
    requires |us| == |ulds| && last < |ulds| && (forall k | 0 <= k < |ulds| :: us[k].contents == ulds[k].contents)
    requires forall k | last < k < |ulds| :: !IsBaggage(ulds[k])
    ensures BagsIn(us) == BagsIn(us[..last + 1])
    decreases |us|
  {
    if |us| > last + 1 {
      SameBaggage(ulds[|us| - 1], us[|us| - 1]);
      NoBagsBehind(us[..|us| - 1], ulds[..|us| - 1], last);
      assert us[..|us| - 1][..last + 1] == us[..last + 1];
    } else {
      assert us[..last + 1] == us;
    }
  }
}
