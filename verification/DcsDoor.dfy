/** What boarding, taking off, cancelling and closing do to each passenger and each bag,
    told by what they were before. */
module DcsDoor {
  import opened Wrappers
  import opened DcsCabin
  import opened DcsSeating
  import opened DcsFlight
  import opened DcsRuns
  import opened DcsOperations
  import opened DcsClosing
  import opened DcsCounter
  import opened DcsDeparture

  // ---------------------------------------------------------------- one passenger

  /** Taken off: the status, and every bag to come off. The seat is remembered. */
  predicate CameOff(p: Passenger, q: Passenger) {
    && q == p.(status := Offloaded, bags := q.bags) && |q.bags| == |p.bags|
    && forall j | 0 <= j < |p.bags| :: q.bags[j] == p.bags[j].(offloaded := true)
  }

  /** Whoever has been accepted may board, once, while the door is open. */
  lemma BoardMeans(m: Manifest, id: int, i: nat)
    requires Sound(m) && i < |m.passengers| && m.passengers[i].id == id
    ensures var (next, outcome) := AfterBoard(m, id);
            && (outcome == Done <==> m.stage != Closed && m.passengers[i].status == Accepted)
            && next == (if outcome == Done then m.(passengers := m.passengers[i := m.passengers[i].(status := Boarded)]) else m)
            && (outcome != Done ==>
                  outcome == Refused(if m.stage == Closed then FlightClosed
                                     else if m.passengers[i].status == Boarded then AlreadyBoarded else NotAccepted))
  {
    hide SeatCompartment;
    FindIs(m.passengers, id, m.nextID, i);
  }

  /** Nobody unknown boards or comes off. */
  lemma StrangersStay(m: Manifest, id: int)
    requires Sound(m) && m.stage != Closed && forall i | 0 <= i < |m.passengers| :: m.passengers[i].id != id
    ensures AfterBoard(m, id) == (m, Refused(PassengerNotFound)) && AfterOffload(m, id) == (m, Refused(PassengerNotFound))
  {
    hide SeatCompartment;
    FindIs(m.passengers, id, m.nextID, 0);
  }

  /** Whoever holds a seat may be taken off while the door is open: the seat is free
      again, and every bag is to come off. */
  lemma OffloadMeans(m: Manifest, id: int, i: nat)
    requires Sound(m) && i < |m.passengers| && m.passengers[i].id == id
    ensures var (next, outcome) := AfterOffload(m, id);
            && (outcome == Done <==> m.stage != Closed && HoldsSeat(m.passengers[i]))
            && (outcome == Done ==>
                  && |next.passengers| == |m.passengers| && CameOff(m.passengers[i], next.passengers[i])
                  && (forall k | 0 <= k < |m.passengers| && k != i :: next.passengers[k] == m.passengers[k])
                  && next.occupied == m.occupied - {m.passengers[i].seat}
                  && next == m.(passengers := next.passengers, occupied := next.occupied))
            && (outcome != Done ==> next == m && outcome == Refused(if m.stage == Closed then FlightClosed else NotAccepted))
  {
    hide SeatCompartment;
    FindIs(m.passengers, id, m.nextID, i);
    if Flying(m.passengers[i]) {
      FlyingSeatNamed(m, i);
    }
  }

  /** Check-in closes once, and not on a closed flight. */
  lemma CloseCheckInMeans(m: Manifest)
    requires Sound(m) && WellFormed(m.layout)
    ensures var (next, outcome) := AfterCloseCheckIn(m);
            && outcome == (if m.stage == Closed then Refused(FlightClosed) else Done)
            && (m.stage != Open ==> next == m)
            && (m.stage == Open ==> next.stage == CheckInClosed)
  {
    hide ClearAll, Ranked, StandbyOf, Sound, WellFormed;
    if m.stage == Open {
      CheckInClosesFairly(m);
    }
  }

  /** A cancelled flight has nobody aboard and no seat taken; nobody failed to turn up. */
  lemma CancelMeans(m: Manifest)
    requires Sound(m) && m.stage != Closed
    ensures var (next, outcome) := AfterCancel(m);
            && outcome == Done && next.stage == Closed && next.occupied == map[] && |next.passengers| == |m.passengers|
            && forall i | 0 <= i < |m.passengers| ::
                 if HoldsSeat(m.passengers[i]) then CameOff(m.passengers[i], next.passengers[i])
                 else next.passengers[i] == m.passengers[i]
  {
    hide Sound;
    CancelKeeps(m);
    NobodyHolds(AfterCancel(m).0);
  }

  lemma NobodyHolds(m: Manifest)
    requires Sound(m)
    ensures (forall i | 0 <= i < |m.passengers| :: !HoldsSeat(m.passengers[i])) ==> m.occupied == map[]
  {
    hide SeatCompartment;
    if s :| s in m.occupied {
      var i :| 0 <= i < |m.passengers| && HeldBy(m.passengers[i], s, m.occupied[s]);
      assert HoldsSeat(m.passengers[i]);
    }
  }

  // ---------------------------------------------------------------- the reconciliation

  /** A loaded bag of somebody not on board. */
  predicate Unaccompanied(p: Passenger, b: Bag) {
    b.loaded && p.status != Boarded
  }

  /** A bag of somebody on board that the hold never reported and nobody took off. */
  predicate LeftBehind(p: Passenger, b: Bag) {
    !b.loaded && !b.offloaded && p.status == Boarded
  }

  ghost predicate IsUnaccompanied(ps: seq<Passenger>, ref: BagRef) {
    exists i, j | 0 <= i < |ps| && 0 <= j < |ps[i].bags| ::
      Unaccompanied(ps[i], ps[i].bags[j]) && ref == BagRef(ps[i].bags[j].tag, ps[i].id)
  }

  ghost predicate IsLeftBehind(ps: seq<Passenger>, ref: BagRef) {
    exists i, j | 0 <= i < |ps| && 0 <= j < |ps[i].bags| ::
      LeftBehind(ps[i], ps[i].bags[j]) && ref == BagRef(ps[i].bags[j].tag, ps[i].id)
  }

  lemma {:induction false} MatchBagsList(r: Reconciliation, p: Passenger, bags: seq<Bag>, ref: BagRef)
    ensures var out := MatchBags(r, p, bags);
            && out.loaded == r.loaded + LoadedBags(bags)
            && (ref in out.unaccompanied
                <==> ref in r.unaccompanied || exists j | 0 <= j < |bags| :: Unaccompanied(p, bags[j]) && ref == BagRef(bags[j].tag, p.id))
            && (ref in out.notLoaded
                <==> ref in r.notLoaded || exists j | 0 <= j < |bags| :: LeftBehind(p, bags[j]) && ref == BagRef(bags[j].tag, p.id))
    decreases |bags|
  {
    if bags != [] {
      MatchBagsList(r, p, bags[..|bags| - 1], ref);
    }
  }

  /** The reconciliation counts every loaded bag, and lists by tag and passenger the bags
      loaded for somebody not on board and the bags on-board passengers are missing. */
  lemma {:induction false} ReconciliationLists(ps: seq<Passenger>, ref: BagRef)
    ensures var r := Reconciled(ps);
            && r.loaded == LoadedAboard(ps)
            && (ref in r.unaccompanied <==> IsUnaccompanied(ps, ref))
            && (ref in r.notLoaded <==> IsLeftBehind(ps, ref))
    decreases |ps|
  {
    hide Unaccompanied, LeftBehind, MatchBags;
    if ps != [] {
      var init, p := ps[..|ps| - 1], ps[|ps| - 1];
      ReconciliationLists(init, ref);
      MatchBagsList(Reconciled(init), p, p.bags, ref);
      ListsGrow(ps, ref);
    }
  }

  lemma ListsGrow(ps: seq<Passenger>, ref: BagRef)
    requires ps != []
    ensures var init, p := ps[..|ps| - 1], ps[|ps| - 1];
            && (IsUnaccompanied(ps, ref)
                <==> IsUnaccompanied(init, ref) || exists j | 0 <= j < |p.bags| :: Unaccompanied(p, p.bags[j]) && ref == BagRef(p.bags[j].tag, p.id))
            && (IsLeftBehind(ps, ref)
                <==> IsLeftBehind(init, ref) || exists j | 0 <= j < |p.bags| :: LeftBehind(p, p.bags[j]) && ref == BagRef(p.bags[j].tag, p.id))
  {
    hide Unaccompanied, LeftBehind;
    var init, p := ps[..|ps| - 1], ps[|ps| - 1];
    if i, j :| 0 <= i < |init| && 0 <= j < |init[i].bags| && Unaccompanied(init[i], init[i].bags[j]) && ref == BagRef(init[i].bags[j].tag, init[i].id) {
      assert ps[i] == init[i];
    }
    if i, j :| 0 <= i < |init| && 0 <= j < |init[i].bags| && LeftBehind(init[i], init[i].bags[j]) && ref == BagRef(init[i].bags[j].tag, init[i].id) {
      assert ps[i] == init[i];
    }
    if j :| 0 <= j < |p.bags| && Unaccompanied(p, p.bags[j]) && ref == BagRef(p.bags[j].tag, p.id) {
      assert ps[|ps| - 1] == p;
    }
    if j :| 0 <= j < |p.bags| && LeftBehind(p, p.bags[j]) && ref == BagRef(p.bags[j].tag, p.id) {
      assert ps[|ps| - 1] == p;
    }
  }

  // ---------------------------------------------------------------- the load

  /** The bags that go: those of who is on board, less those marked off. */
  function GoingBags(bags: seq<Bag>): seq<Bag> {
    if bags == [] then [] else (if bags[0].offloaded then [] else [bags[0]]) + GoingBags(bags[1..])
  }

  function Going(ps: seq<Passenger>): seq<Bag> {
    if ps == [] then [] else (if ps[0].status == Boarded then GoingBags(ps[0].bags) else []) + Going(ps[1..])
  }

  function Weight(bags: seq<Bag>): int {
    if bags == [] then 0 else bags[0].weight + Weight(bags[1..])
  }

  lemma {:induction false} WeightConcat(xs: seq<Bag>, ys: seq<Bag>)
    ensures Weight(xs + ys) == Weight(xs) + Weight(ys)
    decreases |xs|
  {
    if xs == [] {
      assert xs + ys == ys;
    } else {
      assert (xs + ys)[1..] == xs[1..] + ys;
      WeightConcat(xs[1..], ys);
    }
  }

  lemma {:induction false} GoingBagsConcat(xs: seq<Bag>, ys: seq<Bag>)
    ensures GoingBags(xs + ys) == GoingBags(xs) + GoingBags(ys)
    decreases |xs|
  {
    if xs == [] {
      assert xs + ys == ys;
    } else {
      assert (xs + ys)[1..] == xs[1..] + ys;
      GoingBagsConcat(xs[1..], ys);
    }
  }

  lemma {:induction false} GoingConcat(xs: seq<Passenger>, ys: seq<Passenger>)
    ensures Going(xs + ys) == Going(xs) + Going(ys)
    decreases |xs|
  {
    if xs == [] {
      assert xs + ys == ys;
    } else {
      assert (xs + ys)[1..] == xs[1..] + ys;
      GoingConcat(xs[1..], ys);
    }
  }

  lemma {:induction false} BagLoadIs(bags: seq<Bag>)
    ensures BagLoad(bags) == (|GoingBags(bags)|, Weight(GoingBags(bags)))
    decreases |bags|
  {
    if bags != [] {
      var init, b := bags[..|bags| - 1], bags[|bags| - 1];
      BagLoadIs(init);
      assert bags == init + [b];
      GoingBagsConcat(init, [b]);
      WeightConcat(GoingBags(init), GoingBags([b]));
    }
  }

  lemma {:induction false} PlannedIsGoing(ps: seq<Passenger>)
    ensures PlannedBags(ps) == (|Going(ps)|, Weight(Going(ps)))
    decreases |ps|
  {
    if ps != [] {
      var init, p := ps[..|ps| - 1], ps[|ps| - 1];
      PlannedIsGoing(init);
      assert ps == init + [p];
      GoingConcat(init, [p]);
      assert Going([p]) == (if p.status == Boarded then GoingBags(p.bags) else []);
      WeightConcat(Going(init), Going([p]));
      BagLoadIs(p.bags);
    }
  }

  // ---------------------------------------------------------------- closing the door

  /** What the door does to a bag: one loaded without its passenger is pulled, and one of
      somebody turned away at the door is to come off. */
  predicate BagAtDoor(p: Passenger, b: Bag, c: Bag, pulled: bool) {
    && c == b.(loaded := c.loaded, offloaded := c.offloaded)
    && c.loaded == (b.loaded && (p.status == Boarded || !pulled))
    && c.offloaded == (b.offloaded || p.status == Accepted || (pulled && b.loaded && p.status != Boarded))
  }

  /** What the door does to a passenger: one never seen is a no-show, one not boarded is
      taken off, everyone else is as before. */
  predicate PassesDoor(p: Passenger, q: Passenger, pulled: bool) {
    && q == p.(status := q.status, bags := q.bags) && |q.bags| == |p.bags|
    && q.status == (if p.status == Listed then NoShow else if p.status == Accepted then Offloaded else p.status)
    && forall j | 0 <= j < |p.bags| :: BagAtDoor(p, p.bags[j], q.bags[j], pulled)
  }

  ghost predicate AllPassDoor(ps: seq<Passenger>, qs: seq<Passenger>, pulled: bool) {
    |qs| == |ps| && forall i | 0 <= i < |ps| :: PassesDoor(ps[i], qs[i], pulled)
  }

  lemma DoorTurns(ps: seq<Passenger>)
    ensures AllPassDoor(ps, AllAtDoor(ps), false) && AllPassDoor(ps, AllPulled(AllAtDoor(ps)), true)
  {
    var door := AllAtDoor(ps);
    var out := AllPulled(door);
    forall i | 0 <= i < |ps| ensures PassesDoor(ps[i], door[i], false) && PassesDoor(ps[i], out[i], true) {
      assert door[i] == AtDoor(ps[i]) && out[i] == Pulled(door[i]);
    }
  }

  lemma {:induction false} LoadedAtDoor(ps: seq<Passenger>)
    ensures LoadedAboard(AllAtDoor(ps)) == LoadedAboard(ps)
    decreases |ps|
  {
    if ps != [] {
      LoadedAtDoor(ps[..|ps| - 1]);
      assert AllAtDoor(ps)[..|ps| - 1] == AllAtDoor(ps[..|ps| - 1]);
      LoadedOff(ps[|ps| - 1].bags);
    }
  }

  lemma {:induction false} LoadedOff(bags: seq<Bag>)
    ensures LoadedBags(OffBags(bags)) == LoadedBags(bags)
    decreases |bags|
  {
    if bags != [] {
      LoadedOff(bags[..|bags| - 1]);
      assert OffBags(bags)[..|bags| - 1] == OffBags(bags[..|bags| - 1]);
    }
  }

  /** What the closure says of the bags as they stood before the door. */
  ghost predicate Reports(r: Reconciliation, ps: seq<Passenger>) {
    && r.loaded == LoadedAboard(ps)
    && forall ref :: (ref in r.unaccompanied <==> IsUnaccompanied(ps, ref)) && (ref in r.notLoaded <==> IsLeftBehind(ps, ref))
  }

  lemma SameRefs(ps: seq<Passenger>, ref: BagRef)
    ensures IsUnaccompanied(AllAtDoor(ps), ref) <==> IsUnaccompanied(ps, ref)
    ensures IsLeftBehind(AllAtDoor(ps), ref) <==> IsLeftBehind(ps, ref)
  {
    var door := AllAtDoor(ps);
    forall i, j | 0 <= i < |ps| && 0 <= j < |ps[i].bags|
      ensures BagRef(door[i].bags[j].tag, door[i].id) == BagRef(ps[i].bags[j].tag, ps[i].id)
      ensures Unaccompanied(door[i], door[i].bags[j]) <==> Unaccompanied(ps[i], ps[i].bags[j])
      ensures LeftBehind(door[i], door[i].bags[j]) <==> LeftBehind(ps[i], ps[i].bags[j])
    {
      assert door[i] == AtDoor(ps[i]);
    }
  }

  lemma DoorReports(ps: seq<Passenger>)
    ensures Reports(Reconciled(AllAtDoor(ps)), ps)
  {
    hide IsUnaccompanied, IsLeftBehind;
    LoadedAtDoor(ps);
    ReconciliationLists(AllAtDoor(ps), BagRef("", 0));
    forall ref
      ensures ref in Reconciled(AllAtDoor(ps)).unaccompanied <==> IsUnaccompanied(ps, ref)
      ensures ref in Reconciled(AllAtDoor(ps)).notLoaded <==> IsLeftBehind(ps, ref)
    {
      ReconciliationLists(AllAtDoor(ps), ref);
      SameRefs(ps, ref);
    }
  }

  /** Before the door closes: no bag is loaded whose passenger is not on board. */
  predicate EveryBagAccompanied(ps: seq<Passenger>) {
    forall i, j | 0 <= i < |ps| && 0 <= j < |ps[i].bags| :: !Unaccompanied(ps[i], ps[i].bags[j])
  }

  lemma NoneUnaccompanied(ps: seq<Passenger>)
    ensures Reconciled(AllAtDoor(ps)).unaccompanied == [] <==> EveryBagAccompanied(ps)
  {
    hide Reconciled;
    var door := AllAtDoor(ps);
    var listed := Reconciled(door).unaccompanied;
    if listed != [] {
      assert listed[0] in listed;
      ReconciliationLists(door, listed[0]);
      var i, j :| 0 <= i < |door| && 0 <= j < |door[i].bags| && Unaccompanied(door[i], door[i].bags[j])
                  && listed[0] == BagRef(door[i].bags[j].tag, door[i].id);
      assert Unaccompanied(ps[i], ps[i].bags[j]);
    }
    if i, j :| 0 <= i < |ps| && 0 <= j < |ps[i].bags| && Unaccompanied(ps[i], ps[i].bags[j]) {
      var ref := BagRef(door[i].bags[j].tag, door[i].id);
      assert Unaccompanied(door[i], door[i].bags[j]);
      ReconciliationLists(door, ref);
      assert ref in listed;
    }
  }

  /** The door closes unless it has, unless check-in is open and this is not forced, and,
      where that is required, unless some loaded bag's passenger is not on board; refused
      for that, the door stays open with the passengers turned away all the same. The load
      counts the bags that go, and weighs them. */
  lemma CloseMeans(m: Manifest, opts: CloseOptions)
    requires Sound(m) && WellFormed(m.layout)
    ensures var (next, outcome) := AfterCloseFlight(m, opts);
            var ready := CheckInOver(m);
            if m.stage == Closed || (m.stage == Open && !opts.force)
            then next == m && outcome == Refused(if m.stage == Closed then FlightClosed else CheckInStillOpen)
            else
              && (outcome == Done <==> !opts.requireReconciled || EveryBagAccompanied(ready.passengers))
              && AllPassDoor(ready.passengers, next.passengers, outcome == Done)
              && next.stage == (if outcome == Done then Closed else ready.stage)
              && (outcome == Done ==>
                    && next.closure.Some?
                    && next.closure.value.bags == |Going(next.passengers)|
                    && next.closure.value.kilos == Weight(Going(next.passengers)))
              && (outcome == Done ==> Reports(next.closure.value.reconciliation, ready.passengers))
              && (outcome != Done ==>
                    && outcome.Refused? && outcome.error.UnreconciledBags?
                    && forall ref :: ref in outcome.error.bags <==> IsUnaccompanied(ready.passengers, ref))
  {
    hide Sound, WellFormed, CheckInOver, Reconciled, PlannedBags, SeatsGivenUp, Going, AllPassDoor, EveryBagAccompanied, AllAtDoor, AllPulled, IsUnaccompanied, IsLeftBehind, LoadedAboard;
    var ready := CheckInOver(m);
    var door := AllAtDoor(ready.passengers);
    DoorTurns(ready.passengers);
    NoneUnaccompanied(ready.passengers);
    PlannedIsGoing(AllPulled(door));
    DoorReports(ready.passengers);
  }

  // ---------------------------------------------------------------- a tag reported

  /** The first bag with the tag, passenger by passenger. */
  predicate FirstWith(ps: seq<Passenger>, tag: string, i: nat, j: nat) {
    && i < |ps| && j < |ps[i].bags| && ps[i].bags[j].tag == tag
    && (forall b | 0 <= b < j :: ps[i].bags[b].tag != tag)
    && forall a, b | 0 <= a < i && 0 <= b < |ps[a].bags| :: ps[a].bags[b].tag != tag
  }

  lemma {:induction false} LoadFirstIs(bags: seq<Bag>, tag: string, j: nat)
    requires j < |bags| && bags[j].tag == tag && forall b | 0 <= b < j :: bags[b].tag != tag
    ensures LoadFirst(bags, tag) == bags[j := bags[j].(loaded := true)]
    decreases |bags|
  {
    if j > 0 {
      LoadFirstIs(bags[1..], tag, j - 1);
    }
  }

  lemma FirstIsLater(ps: seq<Passenger>, tag: string, i: nat, j: nat)
    requires ps != [] && !HasTag(ps[0].bags, tag) && FirstWith(ps, tag, i, j)
    ensures i > 0 && FirstWith(ps[1..], tag, i - 1, j)
  {
    assert i > 0;
    forall a, b | 0 <= a < i - 1 && 0 <= b < |ps[1..][a].bags| ensures ps[1..][a].bags[b].tag != tag {
      assert ps[1..][a] == ps[a + 1];
    }
  }

  lemma FirstIsHere(ps: seq<Passenger>, tag: string, i: nat, j: nat)
    requires ps != [] && HasTag(ps[0].bags, tag) && FirstWith(ps, tag, i, j)
    ensures i == 0
  {
  }

  /** A tag reported marks the first bag that carries it as loaded, and nothing else. */
  lemma {:induction false} TagMarks(ps: seq<Passenger>, tag: string, i: nat, j: nat)
    requires FirstWith(ps, tag, i, j)
    ensures MarkLoaded(ps, tag) == ps[i := ps[i].(bags := ps[i].bags[j := ps[i].bags[j].(loaded := true)])]
    decreases |ps|
  {
    hide HasTag, LoadFirst, FirstWith;
    MarkOneOrLater(ps, tag, i, j);
    if HasTag(ps[0].bags, tag) {
      FirstIsHere(ps, tag, i, j);
      FirstIsLoaded(ps, tag, j);
      UpdateFirst(ps, ps[0].(bags := LoadFirst(ps[0].bags, tag)));
    } else {
      FirstIsLater(ps, tag, i, j);
      TagMarks(ps[1..], tag, i - 1, j);
      UpdateLater(ps, i, ps[i].(bags := ps[i].bags[j := ps[i].bags[j].(loaded := true)]));
    }
  }

  lemma MarkOneOrLater(ps: seq<Passenger>, tag: string, i: nat, j: nat)
    requires FirstWith(ps, tag, i, j)
    ensures i < |ps| && j < |ps[i].bags|
  {
  }

  lemma FirstIsLoaded(ps: seq<Passenger>, tag: string, j: nat)
    requires FirstWith(ps, tag, 0, j)
    ensures LoadFirst(ps[0].bags, tag) == ps[0].bags[j := ps[0].bags[j].(loaded := true)]
  {
    LoadFirstIs(ps[0].bags, tag, j);
  }

  lemma UpdateFirst(ps: seq<Passenger>, q: Passenger)
    requires ps != []
    ensures [q] + ps[1..] == ps[0 := q]
  {
  }

  lemma UpdateLater(ps: seq<Passenger>, i: nat, q: Passenger)
    requires 0 < i < |ps|
    ensures [ps[0]] + ps[1..][i - 1 := q] == ps[i := q]
  {
  }

  /** A tag nobody checked marks nothing. */
  lemma {:induction false} UnknownTagMarks(ps: seq<Passenger>, tag: string)
    requires forall a, b | 0 <= a < |ps| && 0 <= b < |ps[a].bags| :: ps[a].bags[b].tag != tag
    ensures MarkLoaded(ps, tag) == ps
    decreases |ps|
  {
    if ps != [] {
      UnknownTagMarks(ps[1..], tag);
    }
  }

  // ---------------------------------------------------------------- the first comer

  /** On a flight just opened the first passenger seated has ID 1 and sequence number 1. */
  lemma FirstComer(layout: Layout, g: GoShow)
    requires WellFormed(layout) && g.surname != "" && g.seat == "" && !g.standby && g.category != IdPad
    requires FreeCount(layout, map[], CompartmentFor(layout, if g.class_ == "" then "Y" else g.class_)) > 0
    ensures var (next, outcome) := AfterGoShow(OpenedFor(layout), g);
            outcome == Done && |next.passengers| == 1 && next.passengers[0].id == 1 && next.passengers[0].sequence == 1
  {
    hide Sound, WellFormed, AfterGoShow, FreeCount, CompartmentFor;
    OpenedIsSound(layout);
    GoShowServed(OpenedFor(layout), g);
    NobodyListed(CompartmentFor(layout, if g.class_ == "" then "Y" else g.class_));
  }

  lemma NobodyListed(comp: string)
    ensures ListedFor([], comp) == {}
  {
  }
}
