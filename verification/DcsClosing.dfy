/** Closing check-in is fair: who clears the standby list, and who is left behind. */
module DcsClosing {
  import opened Sequences
  import opened DcsCabin
  import opened DcsSeating
  import opened DcsFlight
  import opened DcsRuns
  import opened DcsOperations

  // ---------------------------------------------------------------- the standby list in order

  predicate InRank(ps: seq<Passenger>, order: seq<nat>)
    requires forall k | 0 <= k < |order| :: order[k] < |ps|
  {
    forall j, k | 0 <= j < k < |order| :: !Before(ps[order[k]], ps[order[j]])
  }

  lemma BeforeIsAnOrder(p: Passenger, q: Passenger, r: Passenger)
    ensures Before(p, q) ==> !Before(q, p)
    ensures !Before(p, q) && !Before(q, r) ==> !Before(p, r)
    ensures !Before(q, p) && p.id != q.id ==> Before(p, q)
  {
  }

  lemma InsertedInRank(ps: seq<Passenger>, order: seq<nat>, i: nat)
    requires i < |ps| && (forall k | 0 <= k < |order| :: order[k] < |ps|) && InRank(ps, order)
    ensures var k := PlaceFor(ps, order, i); InRank(ps, order[..k] + [i] + order[k..])
  {
    hide Before;
    var k := PlaceFor(ps, order, i);
    var next := order[..k] + [i] + order[k..];
    forall a, b | 0 <= a < b < |next| ensures !Before(ps[next[b]], ps[next[a]]) {
      if b == k && a < k - 1 {
        BeforeIsAnOrder(ps[i], ps[order[k - 1]], ps[order[a]]);
      } else if a == k {
        BeforeIsAnOrder(ps[i], ps[order[b - 1]], ps[i]);
      }
    }
  }

  lemma {:induction false} RankedIsSorted(ps: seq<Passenger>, waiting: seq<nat>)
    requires (forall k | 0 <= k < |waiting| :: waiting[k] < |ps|) && Distinct(waiting)
    ensures InRank(ps, Ranked(ps, waiting)) && Distinct(Ranked(ps, waiting))
    ensures forall i: nat :: i in Ranked(ps, waiting) <==> i in waiting
    decreases |waiting|
  {
    hide Before, InRank;
    if waiting == [] {
      NobodyInRank(ps);
    } else {
      var init, i := waiting[..|waiting| - 1], waiting[|waiting| - 1];
      RankedIsSorted(ps, init);
      var order := Ranked(ps, init);
      InsertedInRank(ps, order, i);
      assert i !in init;
      OneMore(order, PlaceFor(ps, order, i), i);
      assert forall j: nat :: j in waiting <==> j in init || j == i;
    }
  }

  lemma NobodyInRank(ps: seq<Passenger>)
    ensures InRank(ps, [])
  {
  }

  lemma OneMore<T>(xs: seq<T>, k: nat, x: T)
    requires k <= |xs| && Distinct(xs) && x !in xs
    ensures Distinct(xs[..k] + [x] + xs[k..])
    ensures forall y :: y in xs[..k] + [x] + xs[k..] <==> y in xs || y == x
  {
    assert xs == xs[..k] + xs[k..];
  }

  // ---------------------------------------------------------------- clearing

  lemma {:induction false} FewerFree(seats: seq<string>, occ: Occupancy, later: Occupancy)
    requires occ.Keys <= later.Keys
    ensures |FreeOf(seats, later)| <= |FreeOf(seats, occ)|
    decreases |seats|
  {
    if seats != [] {
      FewerFree(seats[1..], occ, later);
    }
  }

  lemma {:induction false} FreeNeverGrows(layout: Layout, occ: Occupancy, later: Occupancy, comp: string)
    requires occ.Keys <= later.Keys
    ensures FreeCount(layout, later, comp) <= FreeCount(layout, occ, comp)
    decreases |layout|
  {
    if layout != [] {
      FreeNeverGrows(layout[1..], occ, later, comp);
      FewerFree(SectionSeats(layout[0], layout[0].fromRow), occ, later);
    }
  }

  predicate AllStandby(m: Manifest, order: seq<nat>) {
    && Distinct(order)
    && forall k | 0 <= k < |order| :: order[k] < |m.passengers| && m.passengers[order[k]].status == Standby
  }

  function CompOf(m: Manifest, i: nat): string
    requires i < |m.passengers|
  {
    m.passengers[i].compartment
  }

  function FreeFor(m: Manifest, comp: string): nat {
    FreeCount(m.layout, m.occupied, comp)
  }

  /** What one turn of the list does: a seat if there is one, nothing if not. */
  lemma ClearOne(m: Manifest, i: nat)
    requires Sound(m) && WellFormed(m.layout) && i < |m.passengers| && m.passengers[i].status == Standby
    ensures var next := AcceptTargets(m, [i], "", []).0;
            && Sound(next)
            && (if FreeFor(m, CompOf(m, i)) >= 1 then PartyAccepted(m, next, [i]) else next == m)
  {
    hide Sound, WellFormed, AcceptTargets, PartyAccepted, FreeCount, AllSeatable;
    AreInCompartments(m);
    SpareIsSeatable(m, i);
    AcceptTargetsRight(m, [i], "", []);
  }

  predicate Left(m: Manifest, next: Manifest, i: nat)
    requires i < |m.passengers| && |next.passengers| == |m.passengers|
  {
    next.passengers[i] == m.passengers[i]
  }

  predicate Cleared(m: Manifest, next: Manifest, i: nat)
    requires i < |m.passengers| && |next.passengers| == |m.passengers|
  {
    next.passengers[i].status == Accepted
  }

  /** Nobody off the list is touched; whoever is left has no seat free; whoever is
      cleared had one; and nobody is passed over for someone later on the list. */
  ghost predicate FairlyCleared(m: Manifest, next: Manifest, order: seq<nat>)
    requires AllStandby(m, order)
  {
    && |next.passengers| == |m.passengers| && next.layout == m.layout && next.stage == m.stage
    && next.nextID == m.nextID && m.occupied.Keys <= next.occupied.Keys
    && (forall i | 0 <= i < |m.passengers| && i !in order :: next.passengers[i] == m.passengers[i])
    && (forall k | 0 <= k < |order| :: Left(m, next, order[k]) || Cleared(m, next, order[k]))
    && (forall k | 0 <= k < |order| :: Left(m, next, order[k]) ==> FreeFor(next, CompOf(m, order[k])) == 0)
    && (forall k | 0 <= k < |order| :: Cleared(m, next, order[k]) ==> FreeFor(m, CompOf(m, order[k])) >= 1)
    && (forall j, k | 0 <= j < k < |order| && CompOf(m, order[j]) == CompOf(m, order[k]) ::
          Cleared(m, next, order[k]) ==> Cleared(m, next, order[j]))
  }

  lemma {:induction false} ClearAllIsFair(m: Manifest, order: seq<nat>)
    requires Sound(m) && WellFormed(m.layout) && AllStandby(m, order)
    ensures Sound(ClearAll(m, order)) && FairlyCleared(m, ClearAll(m, order), order)
    decreases |order|
  {
    hide Sound, WellFormed, AcceptTargets, PartyAccepted, FairlyCleared, FreeCount;
    if order == [] {
      NobodyCleared(m);
    } else {
      ClearOne(m, order[0]);
      var mid := AcceptTargets(m, [order[0]], "", []).0;
      StillStandby(m, mid, order);
      ClearAllIsFair(mid, order[1..]);
      FairStep(m, mid, ClearAll(m, order), order);
    }
  }

  lemma NobodyCleared(m: Manifest)
    ensures FairlyCleared(m, m, [])
  {
  }

  lemma StillStandby(m: Manifest, mid: Manifest, order: seq<nat>)
    requires AllStandby(m, order) && order != [] && (mid == m || PartyAccepted(m, mid, [order[0]]))
    ensures AllStandby(mid, order[1..]) && mid.layout == m.layout
  {
    forall k | 1 <= k < |order| ensures mid.passengers[order[k]] == m.passengers[order[k]] {
      assert order[k] != order[0];
    }
  }

  lemma FairStep(m: Manifest, mid: Manifest, next: Manifest, order: seq<nat>)
    requires AllStandby(m, order) && order != [] && AllStandby(mid, order[1..])
    requires if FreeFor(m, CompOf(m, order[0])) >= 1 then PartyAccepted(m, mid, [order[0]]) else mid == m
    requires FairlyCleared(mid, next, order[1..])
    ensures FairlyCleared(m, next, order)
  {
    hide FreeCount;
    var rest, i := order[1..], order[0];
    assert i !in rest;
    assert forall j: nat :: j in order <==> j == i || j in rest;
    forall k | 0 <= k < |rest| ensures rest[k] == order[k + 1] && rest[k] != i && mid.passengers[rest[k]] == m.passengers[rest[k]] {
    }
    FreeNeverGrows(m.layout, m.occupied, next.occupied, CompOf(m, i));
    forall k | 0 <= k < |rest| ensures FreeFor(mid, CompOf(m, rest[k])) <= FreeFor(m, CompOf(m, rest[k])) {
      FreeNeverGrows(m.layout, m.occupied, mid.occupied, CompOf(m, rest[k]));
    }
    forall k | 0 <= k < |order|
      ensures Left(m, next, order[k]) || Cleared(m, next, order[k])
      ensures Left(m, next, order[k]) ==> FreeFor(next, CompOf(m, order[k])) == 0
      ensures Cleared(m, next, order[k]) ==> FreeFor(m, CompOf(m, order[k])) >= 1
    {
      if k > 0 {
        assert rest[k - 1] == order[k];
      }
    }
    forall j, k | 0 <= j < k < |order| && CompOf(m, order[j]) == CompOf(m, order[k]) && Cleared(m, next, order[k])
      ensures Cleared(m, next, order[j])
    {
      assert rest[k - 1] == order[k] && CompOf(mid, rest[k - 1]) == CompOf(m, order[k]);
      assert Cleared(mid, next, rest[k - 1]) && FreeFor(mid, CompOf(mid, rest[k - 1])) >= 1;
      if j > 0 {
        assert rest[j - 1] == order[j] && CompOf(mid, rest[j - 1]) == CompOf(m, order[j]);
      } else {
        assert FreeFor(m, CompOf(m, i)) >= 1 && [i][0] == i && mid.passengers[i].status == Accepted;
      }
    }
  }

  predicate IsStaff(p: Passenger) {
    p.category == IdPad
  }

  lemma BeforeInFields(p: Passenger, q: Passenger)
    ensures Before(p, q) <==> (IsStaff(p) ==> IsStaff(q)) && (IsStaff(p) == IsStaff(q) ==> p.id < q.id)
  {
  }

  /** After check-in closes nobody waits while a seat in their compartment is free, nobody
      was cleared ahead of someone of the same compartment who ranks earlier and is left
      behind, and only standbys changed. Staff rank after everyone else, and otherwise
      the lower ID ranks first. */
  lemma CheckInClosesFairly(m: Manifest)
    requires Sound(m) && WellFormed(m.layout) && m.stage == Open
    ensures var next := CheckInOver(m);
            && Sound(next) && next.stage == CheckInClosed && next.layout == m.layout && |next.passengers| == |m.passengers|
            && (forall i | 0 <= i < |m.passengers| :: next.passengers[i].status == Standby
                  ==> FreeFor(next, CompOf(next, i)) == 0)
            && (forall i, j | 0 <= i < |m.passengers| && 0 <= j < |m.passengers| ::
                  m.passengers[i].status == Standby && next.passengers[i].status == Accepted
                  && next.passengers[j].status == Standby && CompOf(m, i) == CompOf(m, j)
                  ==> (IsStaff(m.passengers[i]) ==> IsStaff(m.passengers[j]))
                      && (IsStaff(m.passengers[i]) == IsStaff(m.passengers[j]) ==> m.passengers[i].id < m.passengers[j].id))
            && (forall i | 0 <= i < |m.passengers| && m.passengers[i].status != Standby :: next.passengers[i] == m.passengers[i])
            && (forall i | 0 <= i < |m.passengers| && m.passengers[i].status == Standby ::
                  next.passengers[i] == m.passengers[i] || next.passengers[i].status == Accepted)
  {
    hide Sound, WellFormed, Ranked, StandbyOf, FreeCount, Before, ClearAll, IsStaff;
    var ps, waiting := m.passengers, StandbyOf(m.passengers);
    var order := Ranked(ps, waiting);
    var over := m.(stage := CheckInClosed);
    RankedIsSorted(ps, waiting);
    StageKeeps(m, CheckInClosed);
    ClearAllIsFair(over, order);
    var next := CheckInOver(m);
    forall i: nat | i < |ps| && ps[i].status == Standby
      ensures next.passengers[i] == ps[i] ==> FreeFor(next, CompOf(m, i)) == 0
      ensures next.passengers[i] == ps[i] || next.passengers[i].status == Accepted
    {
      var k :| 0 <= k < |order| && order[k] == i;
      assert Left(over, next, order[k]) || Cleared(over, next, order[k]);
    }
    forall i: nat, j: nat | i < |ps| && j < |ps| && ps[i].status == Standby && next.passengers[i].status == Accepted
                            && next.passengers[j].status == Standby && CompOf(m, i) == CompOf(m, j)
      ensures (IsStaff(ps[i]) ==> IsStaff(ps[j])) && (IsStaff(ps[i]) == IsStaff(ps[j]) ==> ps[i].id < ps[j].id)
    {
      var a :| 0 <= a < |order| && order[a] == i;
      assert j in order;
      var b :| 0 <= b < |order| && order[b] == j;
      EarlierRanksFirst(m, over, next, order, a, b);
      BeforeInFields(ps[i], ps[j]);
    }
  }

  lemma StageKeeps(m: Manifest, stage: Stage)
    requires Sound(m)
    ensures Sound(m.(stage := stage))
  {
    hide SeatCompartment;
  }

  lemma NotPassedOver(m: Manifest, next: Manifest, order: seq<nat>, a: nat, b: nat)
    requires AllStandby(m, order) && FairlyCleared(m, next, order) && a < |order| && b < |order|
    requires CompOf(m, order[a]) == CompOf(m, order[b])
    requires next.passengers[order[a]].status == Accepted && next.passengers[order[b]].status == Standby
    ensures a < b
  {
    hide FreeCount;
  }

  lemma EarlierRanksFirst(m: Manifest, over: Manifest, next: Manifest, order: seq<nat>, a: nat, b: nat)
    requires Sound(m) && over == m.(stage := CheckInClosed) && AllStandby(over, order) && FairlyCleared(over, next, order)
    requires InRank(m.passengers, order) && a < |order| && b < |order|
    requires CompOf(m, order[a]) == CompOf(m, order[b])
    requires |next.passengers| == |m.passengers|
    requires next.passengers[order[a]].status == Accepted && next.passengers[order[b]].status == Standby
    ensures Before(m.passengers[order[a]], m.passengers[order[b]])
  {
    hide FreeCount, SeatCompartment, Before, FairlyCleared;
    NotPassedOver(over, next, order, a, b);
    assert !Before(m.passengers[order[b]], m.passengers[order[a]]);
    assert m.passengers[order[a]].id != m.passengers[order[b]].id;
    BeforeIsAnOrder(m.passengers[order[a]], m.passengers[order[b]], m.passengers[order[b]]);
  }

  lemma CheckInOverKeeps(m: Manifest)
    requires Sound(m) && WellFormed(m.layout)
    ensures Sound(CheckInOver(m)) && CheckInOver(m).layout == m.layout
    ensures |CheckInOver(m).passengers| == |m.passengers|
    ensures m.stage != Closed ==> CheckInOver(m).stage == CheckInClosed
  {
    hide Sound, WellFormed;
    if m.stage == Open {
      CheckInClosesFairly(m);
    }
  }
}
