/** What every operation on a departure keeps, over every run. */
module DcsRuns {
  import opened Wrappers
  import opened Text
  import opened Sequences
  import opened DcsCabin
  import opened DcsSeating
  import opened DcsFlight

  // ---------------------------------------------------------------- the invariant

  /** IDs rise along the list and are all issued. */
  predicate IdsRise(ps: seq<Passenger>, nextID: int) {
    && (forall i | 0 <= i < |ps| :: 0 < ps[i].id < nextID)
    && (forall i, j | 0 <= i < j < |ps| :: ps[i].id < ps[j].id)
  }

  /** Sequence numbers are issued, no two are the same, and whoever flies has one. */
  predicate SequencesDiffer(ps: seq<Passenger>, nextSeq: int) {
    && nextSeq > 0
    && (forall i | 0 <= i < |ps| :: 0 <= ps[i].sequence < nextSeq && (Flying(ps[i]) ==> ps[i].sequence > 0))
    && (forall i, j | 0 <= i < j < |ps| && ps[i].sequence > 0 :: ps[i].sequence != ps[j].sequence)
  }

  predicate HeldBy(p: Passenger, seat: string, id: int) {
    Flying(p) && p.seat == seat && p.id == id
  }

  /** The occupancy map is exactly the seats of those accepted or boarded. */
  predicate Exact(ps: seq<Passenger>, occ: Occupancy) {
    && (forall i | 0 <= i < |ps| && Flying(ps[i]) :: ps[i].seat in occ && occ[ps[i].seat] == ps[i].id)
    && (forall s | s in occ :: exists i | 0 <= i < |ps| :: HeldBy(ps[i], s, occ[s]))
  }

  predicate KnownSeats(layout: Layout, occ: Occupancy) {
    forall s | s in occ :: SeatCompartment(layout, s).Some?
  }

  predicate InCompartments(ps: seq<Passenger>) {
    forall i | 0 <= i < |ps| :: ps[i].compartment != ""
  }

  predicate Sound(m: Manifest) {
    && IdsRise(m.passengers, m.nextID) && m.nextID > 0
    && SequencesDiffer(m.passengers, m.nextSeq)
    && Exact(m.passengers, m.occupied)
    && KnownSeats(m.layout, m.occupied)
    && InCompartments(m.passengers)
  }

  lemma CompartmentNamed(layout: Layout, class_: string)
    ensures CompartmentFor(layout, class_) != ""
  {
  }

  /** An occupied seat has a name. */
  lemma OccupiedNamed(m: Manifest, seat: string)
    requires Sound(m) && seat in m.occupied
    ensures seat != ""
  {
    assert Normalise("") == "";
  }

  // ---------------------------------------------------------------- changes that move nobody

  /** Same standing on the aircraft: ID, sequence number and, for who flies, the seat. */
  predicate SameStanding(p: Passenger, q: Passenger) {
    && q.id == p.id && q.sequence == p.sequence && q.compartment != ""
    && (Flying(q) <==> Flying(p)) && (Flying(p) ==> q.seat == p.seat)
  }

  predicate AllSameStanding(ps: seq<Passenger>, qs: seq<Passenger>) {
    |qs| == |ps| && forall i | 0 <= i < |ps| :: SameStanding(ps[i], qs[i])
  }

  lemma StandingKeeps(m: Manifest, next: Manifest)
    requires Sound(m) && AllSameStanding(m.passengers, next.passengers)
    requires next.layout == m.layout && next.occupied == m.occupied && next.nextID == m.nextID && next.nextSeq == m.nextSeq
    ensures Sound(next)
  {
    hide SeatCompartment;
    var ps, qs := m.passengers, next.passengers;
    forall s | s in next.occupied ensures exists i | 0 <= i < |qs| :: HeldBy(qs[i], s, next.occupied[s]) {
      var i :| 0 <= i < |ps| && HeldBy(ps[i], s, m.occupied[s]);
      assert SameStanding(ps[i], qs[i]);
      assert HeldBy(qs[i], s, next.occupied[s]);
    }
    forall i | 0 <= i < |qs| ensures SameStanding(ps[i], qs[i]) {
    }
  }

  lemma IdsRiseOn(ps: seq<Passenger>, p: Passenger)
    requires IdsRise(ps, p.id) && p.id > 0
    ensures IdsRise(ps + [p], p.id + 1)
  {
  }

  lemma SequencesDifferOn(ps: seq<Passenger>, p: Passenger, nextSeq: int)
    requires SequencesDiffer(ps, nextSeq) && p.sequence == 0 && !Flying(p)
    ensures SequencesDiffer(ps + [p], nextSeq)
  {
    hide Flying;
  }

  lemma ExactOn(ps: seq<Passenger>, p: Passenger, occ: Occupancy)
    requires Exact(ps, occ) && !Flying(p)
    ensures Exact(ps + [p], occ)
  {
    hide Flying;
    var qs := ps + [p];
    forall s | s in occ ensures exists i | 0 <= i < |qs| :: HeldBy(qs[i], s, occ[s]) {
      var i :| 0 <= i < |ps| && HeldBy(ps[i], s, occ[s]);
      assert qs[i] == ps[i];
    }
  }

  lemma EnlistedKeeps(m: Manifest, p: Passenger)
    requires Sound(m) && p.id == m.nextID && !Flying(p) && p.sequence == 0 && p.compartment != ""
    ensures Sound(Enlisted(m, p))
  {
    hide IdsRise, SequencesDiffer, Exact, KnownSeats, Flying;
    IdsRiseOn(m.passengers, p);
    SequencesDifferOn(m.passengers, p, m.nextSeq);
    ExactOn(m.passengers, p, m.occupied);
  }

  // ---------------------------------------------------------------- leaving

  /** Some who flew leave, the rest stay as they are. */
  predicate Leaves(p: Passenger, q: Passenger, gone: set<string>) {
    && q.id == p.id && q.sequence == p.sequence && q.compartment == p.compartment && q.seat == p.seat
    && (Flying(q) <==> Flying(p) && p.seat !in gone)
  }

  lemma LeavingKeeps(m: Manifest, next: Manifest, gone: set<string>)
    requires Sound(m) && |next.passengers| == |m.passengers|
    requires forall i | 0 <= i < |m.passengers| :: Leaves(m.passengers[i], next.passengers[i], gone)
    requires next.layout == m.layout && next.occupied == m.occupied - gone
    requires next.nextID == m.nextID && next.nextSeq == m.nextSeq
    ensures Sound(next)
  {
    hide SeatCompartment;
    var ps, qs := m.passengers, next.passengers;
    forall s | s in next.occupied ensures exists i | 0 <= i < |qs| :: HeldBy(qs[i], s, next.occupied[s]) {
      var i :| 0 <= i < |ps| && HeldBy(ps[i], s, m.occupied[s]);
      assert Leaves(ps[i], qs[i], gone);
      assert HeldBy(qs[i], s, next.occupied[s]);
    }
    forall i | 0 <= i < |qs| ensures Leaves(ps[i], qs[i], gone) {
    }
  }

  /** No two who fly hold the same seat. */
  lemma NoSeatHeldTwice(m: Manifest, i: nat, j: nat)
    requires Sound(m) && i < j < |m.passengers| && Flying(m.passengers[i]) && Flying(m.passengers[j])
    ensures m.passengers[i].seat != m.passengers[j].seat
  {
  }

  lemma SameSeatSameOne(m: Manifest, i: nat, j: nat)
    requires Sound(m) && i < |m.passengers| && j < |m.passengers| && Flying(m.passengers[i]) && Flying(m.passengers[j])
    requires m.passengers[i].seat == m.passengers[j].seat
    ensures i == j
  {
  }

  lemma FlyingSeatNamed(m: Manifest, i: nat)
    requires Sound(m) && i < |m.passengers| && Flying(m.passengers[i])
    ensures m.passengers[i].seat != "" && SeatHeld(m.passengers[i]) == {m.passengers[i].seat}
  {
    OccupiedNamed(m, m.passengers[i].seat);
  }

  lemma OffloadKeeps(m: Manifest, id: int)
    requires Sound(m)
    ensures Sound(AfterOffload(m, id).0)
  {
    var found := Find(m.passengers, id);
    if m.stage != Closed && found.Some? && Flying(m.passengers[found.value]) {
      var k := found.value;
      FlyingSeatNamed(m, k);
      var next := AfterOffload(m, id).0;
      forall i | 0 <= i < |m.passengers| ensures Leaves(m.passengers[i], next.passengers[i], {m.passengers[k].seat}) {
        if Flying(m.passengers[i]) && m.passengers[i].seat == m.passengers[k].seat {
          SameSeatSameOne(m, i, k);
        }
      }
      LeavingKeeps(m, next, {m.passengers[k].seat});
    }
  }

  lemma {:induction false} GivenUpSeats(m: Manifest, n: nat, seat: string)
    requires Sound(m) && n <= |m.passengers|
    ensures seat in SeatsGivenUp(m.passengers[..n])
            <==> exists i | 0 <= i < n :: m.passengers[i].status == Accepted && m.passengers[i].seat == seat
    decreases n
  {
    hide Sound;
    if n > 0 {
      var ps := m.passengers;
      assert ps[..n][..n - 1] == ps[..n - 1] && ps[..n][n - 1] == ps[n - 1];
      GivenUpSeats(m, n - 1, seat);
      if ps[n - 1].status == Accepted {
        FlyingSeatNamed(m, n - 1);
      }
    }
  }

  /** Who is left at the door, and their seats. */
  lemma DoorKeeps(m: Manifest, next: Manifest)
    requires Sound(m) && next.passengers == AllAtDoor(m.passengers)
    requires next.occupied == m.occupied - SeatsGivenUp(m.passengers)
    requires next.layout == m.layout && next.nextID == m.nextID && next.nextSeq == m.nextSeq
    ensures Sound(next)
  {
    hide Sound, SeatsGivenUp;
    var ps, gone := m.passengers, SeatsGivenUp(m.passengers);
    assert ps[..|ps|] == ps;
    forall i | 0 <= i < |ps| ensures Leaves(ps[i], next.passengers[i], gone) {
      GivenUpSeats(m, |ps|, ps[i].seat);
      if Flying(ps[i]) && ps[i].seat in gone {
        var j :| 0 <= j < |ps| && ps[j].status == Accepted && ps[j].seat == ps[i].seat;
        SameSeatSameOne(m, i, j);
      }
    }
    LeavingKeeps(m, next, gone);
  }

  lemma {:induction false} AllSeats(m: Manifest, n: nat, i: nat)
    requires Sound(m) && i < n <= |m.passengers| && Flying(m.passengers[i])
    ensures m.passengers[i].seat in SeatsOf(m.passengers[..n])
    decreases n
  {
    hide Sound;
    var ps := m.passengers;
    assert ps[..n][..n - 1] == ps[..n - 1] && ps[..n][n - 1] == ps[n - 1];
    if i < n - 1 {
      AllSeats(m, n - 1, i);
    } else {
      FlyingSeatNamed(m, i);
    }
  }

  lemma CancelKeeps(m: Manifest)
    requires Sound(m)
    ensures Sound(AfterCancel(m).0)
  {
    if m.stage != Closed {
      var ps, next, gone := m.passengers, AfterCancel(m).0, SeatsOf(m.passengers);
      assert ps[..|ps|] == ps;
      forall i | 0 <= i < |ps| ensures Leaves(ps[i], next.passengers[i], gone) {
        if Flying(ps[i]) {
          AllSeats(m, |ps|, i);
        }
      }
      LeavingKeeps(m, next, gone);
    }
  }

  // ---------------------------------------------------------------- sitting down

  lemma SeatedKeeps(m: Manifest, i: nat, seat: string)
    requires Sound(m) && i < |m.passengers| && !Flying(m.passengers[i])
    requires seat !in m.occupied && SeatCompartment(m.layout, seat).Some?
    ensures Sound(Seated(m, i, seat))
  {
    hide SeatCompartment, Exact, SequencesDiffer;
    SeatedExact(m.passengers, m.occupied, i, seat, m.nextSeq);
    SeatedSequence(m.passengers, i, seat, m.nextSeq);
  }

  lemma SeatedSequence(ps: seq<Passenger>, i: nat, seat: string, nextSeq: int)
    requires SequencesDiffer(ps, nextSeq) && i < |ps|
    ensures SequencesDiffer(ps[i := ps[i].(seat := seat, status := Accepted, sequence := nextSeq)], nextSeq + 1)
  {
  }

  lemma SeatedExact(ps: seq<Passenger>, occ: Occupancy, i: nat, seat: string, sequence: int)
    requires Exact(ps, occ) && i < |ps| && !Flying(ps[i]) && seat !in occ
    ensures Exact(ps[i := ps[i].(seat := seat, status := Accepted, sequence := sequence)], occ[seat := ps[i].id])
  {
    var qs := ps[i := ps[i].(seat := seat, status := Accepted, sequence := sequence)];
    var after := occ[seat := ps[i].id];
    forall s | s in after ensures exists j | 0 <= j < |qs| :: HeldBy(qs[j], s, after[s]) {
      if s == seat {
        assert HeldBy(qs[i], s, after[s]);
      } else {
        var j :| 0 <= j < |ps| && HeldBy(ps[j], s, occ[s]);
        assert HeldBy(qs[j], s, after[s]);
      }
    }
  }

  /** Distinct free seats that the cabin has. */
  predicate Takeable(m: Manifest, seats: seq<string>) {
    Distinct(seats) && forall k | 0 <= k < |seats| :: seats[k] !in m.occupied && SeatCompartment(m.layout, seats[k]).Some?
  }

  /** Positions of passengers who do not fly, in list order. */
  predicate Seatless(m: Manifest, targets: seq<nat>) {
    && (forall k | 0 <= k < |targets| :: targets[k] < |m.passengers| && !Flying(m.passengers[targets[k]]))
    && (forall j, k | 0 <= j < k < |targets| :: targets[j] < targets[k])
  }

  /** Everyone of the party is accepted, in order; nobody else is touched. */
  ghost predicate PartySeated(m: Manifest, next: Manifest, targets: seq<nat>, seats: seq<string>)
    requires |seats| == |targets|
  {
    && |next.passengers| == |m.passengers| && next.layout == m.layout && next.nextID == m.nextID && next.stage == m.stage
    && next.nextSeq == m.nextSeq + |targets|
    && (forall k | 0 <= k < |targets| && targets[k] < |m.passengers| ::
          next.passengers[targets[k]]
          == m.passengers[targets[k]].(seat := seats[k], status := Accepted, sequence := m.nextSeq + k))
    && (forall i | 0 <= i < |m.passengers| && i !in targets :: next.passengers[i] == m.passengers[i])
    && (forall s :: s in next.occupied <==> s in m.occupied || s in seats)
  }

  lemma PartySeatedStep(m: Manifest, next: Manifest, targets: seq<nat>, seats: seq<string>)
    requires |seats| == |targets| && targets != [] && Seatless(m, targets)
    requires PartySeated(Seated(m, targets[0], seats[0]), next, targets[1..], seats[1..])
    ensures PartySeated(m, next, targets, seats)
  {
    var first := Seated(m, targets[0], seats[0]);
    forall k | 0 <= k < |targets|
      ensures next.passengers[targets[k]]
              == m.passengers[targets[k]].(seat := seats[k], status := Accepted, sequence := m.nextSeq + k)
    {
      if k == 0 {
        assert targets[0] !in targets[1..];
      } else {
        assert targets[1..][k - 1] == targets[k] && seats[1..][k - 1] == seats[k];
        assert targets[0] < targets[k];
      }
    }
    assert forall i: nat :: i in targets <==> i == targets[0] || i in targets[1..];
    assert forall s :: s in seats <==> s == seats[0] || s in seats[1..];
  }

  /** Taking distinct free seats cannot fail: everyone sits. */
  lemma {:induction false} TakeAllSeats(m: Manifest, targets: seq<nat>, seats: seq<string>)
    requires Sound(m) && |seats| == |targets| && Seatless(m, targets) && Takeable(m, seats)
    ensures TakeAll(m, targets, seats).1 == Done
    ensures Sound(TakeAll(m, targets, seats).0) && PartySeated(m, TakeAll(m, targets, seats).0, targets, seats)
    decreases |targets|
  {
    hide SeatCompartment, Sound, PartySeated;
    if targets == [] {
      NobodySeated(m);
    } else {
      var next := Seated(m, targets[0], seats[0]);
      SeatedKeeps(m, targets[0], seats[0]);
      RestTakeable(m, targets, seats);
      TakeAllSeats(next, targets[1..], seats[1..]);
      PartySeatedStep(m, TakeAll(m, targets, seats).0, targets, seats);
    }
  }

  lemma NobodySeated(m: Manifest)
    ensures PartySeated(m, m, [], [])
  {
  }

  lemma RestTakeable(m: Manifest, targets: seq<nat>, seats: seq<string>)
    requires |seats| == |targets| && targets != [] && Seatless(m, targets) && Takeable(m, seats)
    ensures Seatless(Seated(m, targets[0], seats[0]), targets[1..]) && Takeable(Seated(m, targets[0], seats[0]), seats[1..])
  {
    hide SeatCompartment;
  }

  /** The seats found for a party are distinct, free, and each in its member's compartment. */
  lemma PartySeatsTakeable(m: Manifest, targets: seq<nat>)
    requires WellFormed(m.layout) && InCompartments(m.passengers)
    requires (forall j | 0 <= j < |targets| :: targets[j] < |m.passengers|) && AllSeatable(m, targets)
    ensures Takeable(m, PartySeats(m, targets))
    ensures forall k | 0 <= k < |targets| ::
              PartySeats(m, targets)[k] in SeatsIn(m.layout, m.passengers[targets[k]].compartment)
  {
    hide WellFormed, SeatsIn, SeatCompartment, GroupSize, Assigned;
    var seats := PartySeats(m, targets);
    forall k | 0 <= k < |targets|
      ensures seats[k] !in m.occupied && seats[k] in SeatsIn(m.layout, m.passengers[targets[k]].compartment)
      ensures SeatCompartment(m.layout, seats[k]) == Some(m.passengers[targets[k]].compartment)
    {
      TargetSeat(m, targets, k);
    }
    forall j, k | 0 <= j < k < |targets| ensures seats[j] != seats[k] {
      if m.passengers[targets[j]].compartment == m.passengers[targets[k]].compartment {
        TwoTargets(m, targets, j, k);
      }
    }
  }

  lemma TargetSeat(m: Manifest, targets: seq<nat>, k: nat)
    requires WellFormed(m.layout) && InCompartments(m.passengers) && k < |targets|
    requires (forall j | 0 <= j < |targets| :: targets[j] < |m.passengers|) && AllSeatable(m, targets)
    ensures var seat, comp := SeatOfTarget(m, targets, k), m.passengers[targets[k]].compartment;
            seat !in m.occupied && seat in SeatsIn(m.layout, comp) && SeatCompartment(m.layout, seat) == Some(comp)
  {
    hide WellFormed, SeatsIn, SeatCompartment, GroupSize, Assigned, HasRoom, InOneBlock, FreeCount;
    var comp := m.passengers[targets[k]].compartment;
    GroupGrows(m.passengers, targets, k);
    AssignIsRight(m.layout, m.occupied, comp, GroupSize(m.passengers, targets, comp));
    assert GroupSeats(m, targets, k).Some?;
    var seat := SeatOfTarget(m, targets, k);
    assert seat in GroupSeats(m, targets, k).value;
    SeatIsFound(m.layout, comp, seat);
  }

  lemma TwoTargets(m: Manifest, targets: seq<nat>, j: nat, k: nat)
    requires WellFormed(m.layout) && InCompartments(m.passengers) && j < k < |targets|
    requires (forall i | 0 <= i < |targets| :: targets[i] < |m.passengers|) && AllSeatable(m, targets)
    requires m.passengers[targets[j]].compartment == m.passengers[targets[k]].compartment
    ensures SeatOfTarget(m, targets, j) != SeatOfTarget(m, targets, k)
  {
    hide WellFormed, SeatsIn, GroupSize, Assigned, HasRoom, InOneBlock, FreeCount;
    var comp := m.passengers[targets[k]].compartment;
    GroupGrows(m.passengers, targets, j);
    GroupGrows(m.passengers, targets, k);
    var upToK := targets[..k];
    GroupGrows(m.passengers, upToK, j);
    assert upToK[..j] == targets[..j] && upToK[j] == targets[j];
    AssignIsRight(m.layout, m.occupied, comp, GroupSize(m.passengers, targets, comp));
    assert GroupSeats(m, targets, k) == GroupSeats(m, targets, j);
  }
}
