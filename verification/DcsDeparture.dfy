/** Whole runs of a departure: sound after every operation, settled once closed. */
module DcsDeparture {
  import opened Wrappers
  import opened Text
  import Decimal
  import opened DcsCabin
  import opened DcsSeating
  import opened DcsFlight
  import opened DcsRuns
  import opened DcsOperations
  import opened DcsClosing

  // ---------------------------------------------------------------- closing the flight

  lemma {:induction false} MatchBagsBalances(r: Reconciliation, p: Passenger, bags: seq<Bag>)
    requires r.loaded == r.boarded + |r.unaccompanied|
    ensures var out := MatchBags(r, p, bags); out.loaded == out.boarded + |out.unaccompanied|
    decreases |bags|
  {
    if bags != [] {
      MatchBagsBalances(r, p, bags[..|bags| - 1]);
    }
  }

  /** Every bag loaded is a boarded passenger's or unaccompanied. */
  lemma {:induction false} ReconciliationBalances(ps: seq<Passenger>)
    ensures Reconciled(ps).loaded == Reconciled(ps).boarded + |Reconciled(ps).unaccompanied|
    decreases |ps|
  {
    hide MatchBags;
    if ps != [] {
      ReconciliationBalances(ps[..|ps| - 1]);
      MatchBagsBalances(Reconciled(ps[..|ps| - 1]), ps[|ps| - 1], ps[|ps| - 1].bags);
    }
  }

  /** How many bags are marked loaded. */
  function LoadedBags(bags: seq<Bag>): nat {
    if bags == [] then 0 else LoadedBags(bags[..|bags| - 1]) + (if bags[|bags| - 1].loaded then 1 else 0)
  }

  function LoadedAboard(ps: seq<Passenger>): nat {
    if ps == [] then 0 else LoadedAboard(ps[..|ps| - 1]) + LoadedBags(ps[|ps| - 1].bags)
  }

  lemma {:induction false} MatchBagsCounts(r: Reconciliation, p: Passenger, bags: seq<Bag>)
    ensures MatchBags(r, p, bags).boarded == r.boarded + (if p.status == Boarded then LoadedBags(bags) else 0)
    decreases |bags|
  {
    if bags != [] {
      MatchBagsCounts(r, p, bags[..|bags| - 1]);
    }
  }

  lemma {:induction false} PulledHasNone(bags: seq<Bag>)
    ensures LoadedBags(PulledBags(bags)) == 0
    decreases |bags|
  {
    if bags != [] {
      PulledHasNone(bags[..|bags| - 1]);
      assert PulledBags(bags)[..|bags| - 1] == PulledBags(bags[..|bags| - 1]);
    }
  }

  /** Once the rest are pulled, the bags still loaded are those matched to who boarded. */
  lemma {:induction false} StillLoadedAreMatched(ps: seq<Passenger>)
    ensures LoadedAboard(AllPulled(ps)) == Reconciled(ps).boarded
    decreases |ps|
  {
    hide LoadedBags, MatchBags, PulledBags;
    if ps != [] {
      var init, p := ps[..|ps| - 1], ps[|ps| - 1];
      StillLoadedAreMatched(init);
      assert AllPulled(ps)[..|ps| - 1] == AllPulled(init);
      MatchBagsCounts(Reconciled(init), p, p.bags);
      PulledHasNone(p.bags);
    }
  }

  /** With nobody merely accepted, load planning and the departures board count the same. */
  lemma {:induction false} PlannedAreCounted(ps: seq<Passenger>)
    requires forall i | 0 <= i < |ps| :: ps[i].status != Accepted
    ensures PlannedBags(ps) == CountedBags(ps)
    decreases |ps|
  {
    hide BagLoad;
    if ps != [] {
      PlannedAreCounted(ps[..|ps| - 1]);
    }
  }

  predicate NobodyPending(ps: seq<Passenger>) {
    forall i | 0 <= i < |ps| :: ps[i].status != Listed && ps[i].status != Accepted
  }

  predicate LoadedAreAboard(ps: seq<Passenger>) {
    forall i, j | 0 <= i < |ps| && 0 <= j < |ps[i].bags| && ps[i].bags[j].loaded :: ps[i].status == Boarded
  }

  lemma DoorLeavesNobodyPending(ps: seq<Passenger>)
    ensures NobodyPending(AllPulled(AllAtDoor(ps))) && LoadedAreAboard(AllPulled(AllAtDoor(ps)))
    ensures AllPulled(AllAtDoor(ps)) == [] <==> ps == []
  {
    var door := AllAtDoor(ps);
    var out := AllPulled(door);
    forall i | 0 <= i < |out| ensures out[i].status == door[i].status && out[i].status != Listed && out[i].status != Accepted {
    }
    forall i, j | 0 <= i < |out| && 0 <= j < |out[i].bags| && out[i].bags[j].loaded ensures out[i].status == Boarded {
      assert out[i] == Pulled(door[i]);
    }
  }

  /** Closing leaves nobody listed or accepted and no loaded bag without its boarded
      passenger; the reconciliation balances and says how many bags stay loaded; the
      load's bags and kilos are those the departures board counts. */
  lemma CloseSettlesTheFlight(m: Manifest, opts: CloseOptions)
    requires Sound(m) && WellFormed(m.layout) && AfterCloseFlight(m, opts).1 == Done
    ensures var next := AfterCloseFlight(m, opts).0;
            && next.stage == Closed && Sound(next) && next.closure.Some?
            && NobodyPending(next.passengers) && LoadedAreAboard(next.passengers)
            && var c := next.closure.value;
               && c.reconciliation.loaded == c.reconciliation.boarded + |c.reconciliation.unaccompanied|
               && c.reconciliation.boarded == LoadedAboard(next.passengers)
               && (c.bags, c.kilos) == CountedBags(next.passengers)
               && (opts.requireReconciled ==> c.reconciliation.unaccompanied == [])
  {
    hide Sound, WellFormed, CheckInOver, Reconciled, LoadedAboard, PlannedBags, CountedBags, SeatsGivenUp;
    CloseKeeps(m, opts);
    var ready := CheckInOver(m);
    var door := AllAtDoor(ready.passengers);
    DoorLeavesNobodyPending(ready.passengers);
    ReconciliationBalances(door);
    StillLoadedAreMatched(door);
    PlannedAreCounted(AllPulled(door));
  }

  lemma PulledKeeps(m: Manifest)
    requires Sound(m)
    ensures Sound(m.(passengers := AllPulled(m.passengers)))
  {
    hide SeatCompartment, Exact, IdsRise, SequencesDiffer;
    var next := m.(passengers := AllPulled(m.passengers));
    assert AllSameStanding(m.passengers, next.passengers);
    StandingKeeps(m, next);
  }

  lemma ClosureKeeps(m: Manifest, next: Manifest)
    requires Sound(m) && next == m.(stage := next.stage, closure := next.closure)
    ensures Sound(next)
  {
    hide SeatCompartment;
  }

  lemma CloseKeeps(m: Manifest, opts: CloseOptions)
    requires Sound(m) && WellFormed(m.layout)
    ensures Sound(AfterCloseFlight(m, opts).0)
    ensures AfterCloseFlight(m, opts).1.Done? ==> AfterCloseFlight(m, opts).0.stage == Closed
  {
    hide Sound, WellFormed, CheckInOver, Reconciled, PlannedBags, SeatsGivenUp;
    CheckInOverKeeps(m);
    var ready := CheckInOver(m);
    var atDoor := ready.(passengers := AllAtDoor(ready.passengers),
                         occupied := ready.occupied - SeatsGivenUp(ready.passengers));
    DoorKeeps(ready, atDoor);
    PulledKeeps(atDoor);
    var pulled := atDoor.(passengers := AllPulled(atDoor.passengers));
    var (bags, kilos) := PlannedBags(pulled.passengers);
    ClosureKeeps(pulled, pulled.(stage := Closed,
                                 closure := Some(Closure(Reconciled(atDoor.passengers), bags, kilos))));
  }

  // ---------------------------------------------------------------- runs

  datatype Op = ApplyNameList(list: NameList) | Accept(request: AcceptRequest) | AcceptGoShow(goshow: GoShow) | Board(id: int)
              | Offload(id: int) | CloseCheckIn | CloseFlight(options: CloseOptions) | CancelFlight | ReportBags(tags: seq<string>)

  function Apply(m: Manifest, op: Op): (Manifest, Outcome) {
    match op
    case ApplyNameList(list) => AfterNameList(m, list)
    case Accept(request) => AfterAccept(m, request)
    case AcceptGoShow(goshow) => AfterGoShow(m, goshow)
    case Board(id) => AfterBoard(m, id)
    case Offload(id) => AfterOffload(m, id)
    case CloseCheckIn => AfterCloseCheckIn(m)
    case CloseFlight(options) => AfterCloseFlight(m, options)
    case CancelFlight => AfterCancel(m)
    case ReportBags(tags) => (AfterBagReport(m, tags), Done)
  }

  function Run(m: Manifest, ops: seq<Op>): Manifest {
    if ops == [] then m else Apply(Run(m, ops[..|ops| - 1]), ops[|ops| - 1]).0
  }

  lemma ApplyKeeps(m: Manifest, op: Op)
    requires Sound(m) && WellFormed(m.layout)
    ensures Sound(Apply(m, op).0)
  {
    hide Sound, WellFormed, AfterNameList, AfterAccept, AfterGoShow, AfterBoard, AfterOffload, CheckInOver, AfterCloseFlight,
         AfterCancel, AfterBagReport;
    match op
    case ApplyNameList(list) => NameListKeeps(m, list);
    case Accept(request) => AcceptIsAllOrNothing(m, request);
    case AcceptGoShow(goshow) => GoShowIsNeverStranded(m, goshow);
    case Board(id) => BoardKeeps(m, id);
    case Offload(id) => OffloadKeeps(m, id);
    case CloseCheckIn => CheckInOverKeeps(m);
    case CloseFlight(options) => CloseKeeps(m, options);
    case CancelFlight => CancelKeeps(m);
    case ReportBags(tags) => BagReportKeeps(m, tags);
  }

  // ---- no operation touches the layout, and a name list leaves the seats alone

  lemma {:induction false} EnlistedAllCabin(m: Manifest, class_: string, n: Name, count: nat)
    ensures EnlistedAll(m, class_, n, count).layout == m.layout && EnlistedAll(m, class_, n, count).occupied == m.occupied
    decreases count
  {
    if count > 0 {
      EnlistedAllCabin(m, class_, n, count - 1);
    }
  }

  lemma ApplyNameCabin(m: Manifest, change: Change, class_: string, n: Name)
    ensures ApplyName(m, change, class_, n).layout == m.layout && ApplyName(m, change, class_, n).occupied == m.occupied
  {
    hide CompartmentFor, PartyKey, EnlistedAll;
    EnlistedAllCabin(m, class_, n, PartySize(n));
  }

  lemma {:induction false} ApplyNamesCabin(m: Manifest, change: Change, class_: string, names: seq<Name>)
    ensures ApplyNames(m, change, class_, names).layout == m.layout && ApplyNames(m, change, class_, names).occupied == m.occupied
    decreases |names|
  {
    hide ApplyName;
    if names != [] {
      ApplyNamesCabin(m, change, class_, names[..|names| - 1]);
      ApplyNameCabin(ApplyNames(m, change, class_, names[..|names| - 1]), change, class_, names[|names| - 1]);
    }
  }

  lemma {:induction false} ApplySectionsCabin(m: Manifest, change: Change, class_: string, sections: seq<(Change, seq<Name>)>)
    ensures ApplySections(m, change, class_, sections).layout == m.layout && ApplySections(m, change, class_, sections).occupied == m.occupied
    decreases |sections|
  {
    hide ApplyNames;
    if sections != [] {
      var init, s := sections[..|sections| - 1], sections[|sections| - 1];
      ApplySectionsCabin(m, change, class_, init);
      ApplyNamesCabin(ApplySections(m, change, class_, init), change, class_, s.1);
    }
  }

  lemma {:induction false} ApplyGroupsCabin(m: Manifest, change: Change, groups: seq<Group>)
    ensures ApplyGroups(m, change, groups).layout == m.layout && ApplyGroups(m, change, groups).occupied == m.occupied
    decreases |groups|
  {
    hide ApplySections;
    if groups != [] {
      var init, g := groups[..|groups| - 1], groups[|groups| - 1];
      ApplyGroupsCabin(m, change, init);
      ApplySectionsCabin(ApplyGroups(m, change, init), change, g.class_, g.sections);
    }
  }

  lemma {:induction false} ListGroupsCabin(m: Manifest, groups: seq<Group>)
    ensures ListGroups(m, groups).layout == m.layout && ListGroups(m, groups).occupied == m.occupied
    decreases |groups|
  {
    hide ApplyNames;
    if groups != [] {
      var init, g := groups[..|groups| - 1], groups[|groups| - 1];
      ListGroupsCabin(m, init);
      ApplyNamesCabin(ListGroups(m, init), Add, g.class_, g.names);
    }
  }

  lemma {:induction false} BagReportLayout(m: Manifest, tags: seq<string>)
    ensures AfterBagReport(m, tags) == m.(passengers := AfterBagReport(m, tags).passengers)
    ensures |AfterBagReport(m, tags).passengers| == |m.passengers|
    ensures forall i | 0 <= i < |m.passengers| ::
              AfterBagReport(m, tags).passengers[i] == m.passengers[i].(bags := AfterBagReport(m, tags).passengers[i].bags)
    decreases |tags|
  {
    hide MarkLoaded;
    if tags != [] {
      BagReportLayout(m, tags[..|tags| - 1]);
    }
  }

  lemma ApplyLayout(m: Manifest, op: Op)
    requires Sound(m) && WellFormed(m.layout)
    ensures Apply(m, op).0.layout == m.layout
  {
    hide Sound, WellFormed, AfterAccept, AcceptTargets, CheckInOver, AfterBagReport, ListGroups, ApplyGroups, Reconciled,
         PlannedBags, SeatsGivenUp;
    match op
    case ApplyNameList(list) =>
      ListGroupsCabin(m.(parts := m.parts + {list.part}), list.groups);
      ApplyGroupsCabin(m, Delete, list.groups);
      ApplyGroupsCabin(ApplyGroups(m, Delete, list.groups), Add, list.groups);
      ApplyGroupsCabin(ApplyGroups(ApplyGroups(m, Delete, list.groups), Add, list.groups), Amend, list.groups);
    case Accept(request) => AcceptIsAllOrNothing(m, request);
    case AcceptGoShow(goshow) => GoShowLayout(m, goshow);
    case CloseCheckIn => CheckInOverKeeps(m);
    case CloseFlight(options) => CheckInOverKeeps(m);
    case ReportBags(tags) => BagReportLayout(m, tags);
    case _ =>
  }

  lemma GoShowLayout(m: Manifest, g: GoShow)
    requires Sound(m) && WellFormed(m.layout)
    ensures AfterGoShow(m, g).0.layout == m.layout
  {
    hide WellFormed, Sound, AcceptTargets, MustWait, CompartmentFor;
    var p := Newcomer(m, g);
    CompartmentNamed(m.layout, p.class_);
    EnlistedKeeps(m, p);
    AcceptTargetsRight(Enlisted(m, p), [|m.passengers|], g.seat, g.bags);
  }

  lemma OpenedIsSound(layout: Layout)
    ensures Sound(OpenedFor(layout))
  {
  }

  /** After any run the occupancy map is exactly the seats of those accepted or boarded,
      IDs rise along the list, and no sequence number was issued twice. */
  lemma {:induction false} EveryRunIsSound(layout: Layout, ops: seq<Op>)
    requires WellFormed(layout)
    ensures Sound(Run(OpenedFor(layout), ops)) && Run(OpenedFor(layout), ops).layout == layout
    decreases |ops|
  {
    hide Sound, WellFormed, Apply;
    if ops == [] {
      OpenedIsSound(layout);
    } else {
      var before := Run(OpenedFor(layout), ops[..|ops| - 1]);
      EveryRunIsSound(layout, ops[..|ops| - 1]);
      ApplyKeeps(before, ops[|ops| - 1]);
      ApplyLayout(before, ops[|ops| - 1]);
    }
  }

  /** So in any run nobody ever holds a designator someone else holds. */
  lemma NeverTwoToASeat(layout: Layout, ops: seq<Op>, i: nat, j: nat)
    requires WellFormed(layout)
    requires var ps := Run(OpenedFor(layout), ops).passengers; i < j < |ps| && Flying(ps[i]) && Flying(ps[j])
    ensures var ps := Run(OpenedFor(layout), ops).passengers;
            ps[i].seat != ps[j].seat && ps[i].id != ps[j].id && ps[i].sequence != ps[j].sequence
  {
    hide WellFormed, Run;
    EveryRunIsSound(layout, ops);
    NoSeatHeldTwice(Run(OpenedFor(layout), ops), i, j);
  }

  /** And no run ever stops on a result that is not there. */
  lemma NothingEverPanics(layout: Layout, ops: seq<Op>, op: Op)
    requires WellFormed(layout)
    ensures Apply(Run(OpenedFor(layout), ops), op).1 != Panicked
  {
    hide Sound, WellFormed, Run, AfterGoShow, AcceptTargets, CheckInOver, ListGroups, ApplyGroups, Resolve;
    EveryRunIsSound(layout, ops);
    var m := Run(OpenedFor(layout), ops);
    if op.Accept? {
      AcceptIsAllOrNothing(m, op.request);
    } else if op.AcceptGoShow? {
      GoShowIsNeverStranded(m, op.goshow);
    }
  }

  // ---------------------------------------------------------------- closed for good

  /** Only the bags may differ. */
  predicate SamePeople(m: Manifest, next: Manifest) {
    && |next.passengers| == |m.passengers| && next == m.(passengers := next.passengers)
    && forall i | 0 <= i < |m.passengers| :: next.passengers[i] == m.passengers[i].(bags := next.passengers[i].bags)
  }

  /** Once the flight is closed no operation changes a status, a seat, the reconciliation
      or the load; only a bag report gets through, and it reaches only the bags. */
  lemma {:induction false} ClosedForGood(m: Manifest, ops: seq<Op>)
    requires m.stage == Closed
    ensures Run(m, ops).stage == Closed && SamePeople(m, Run(m, ops))
    decreases |ops|
  {
    hide AfterBagReport;
    if ops != [] {
      ClosedForGood(m, ops[..|ops| - 1]);
      var before, op := Run(m, ops[..|ops| - 1]), ops[|ops| - 1];
      if op.ReportBags? {
        BagReportLayout(before, op.tags);
      }
    }
  }

  /** Whether the first bag with the tag is a boarded passenger's, or there is none. */
  predicate TagIsAboard(ps: seq<Passenger>, tag: string) {
    if ps == [] then true else if HasTag(ps[0].bags, tag) then ps[0].status == Boarded else TagIsAboard(ps[1..], tag)
  }

  lemma LoadFirstLoads(bags: seq<Bag>, tag: string)
    requires HasTag(bags, tag)
    ensures exists j | 0 <= j < |bags| :: LoadFirst(bags, tag)[j].loaded
  {
    if bags[0].tag == tag {
      assert LoadFirst(bags, tag)[0].loaded;
    } else {
      var k :| 0 <= k < |bags| && bags[k].tag == tag;
      assert bags[1..][k - 1].tag == tag;
      LoadFirstLoads(bags[1..], tag);
      var j :| 0 <= j < |bags[1..]| && LoadFirst(bags[1..], tag)[j].loaded;
      assert LoadFirst(bags, tag)[j + 1].loaded;
    }
  }

  /** A bag report is not refused after closing, so what closing settled about bags holds
      on exactly when the tag reported is a boarded passenger's or nobody's. */
  lemma {:induction false} LateReport(ps: seq<Passenger>, tag: string)
    requires LoadedAreAboard(ps)
    ensures LoadedAreAboard(MarkLoaded(ps, tag)) <==> TagIsAboard(ps, tag)
    decreases |ps|
  {
    hide LoadFirst;
    if ps != [] {
      var next := MarkLoaded(ps, tag);
      LoadedTail(ps);
      if HasTag(ps[0].bags, tag) {
        LoadFirstLoads(ps[0].bags, tag);
        var j :| 0 <= j < |ps[0].bags| && LoadFirst(ps[0].bags, tag)[j].loaded;
        assert next[0].bags[j].loaded;
        LoadedCons(next[0], ps[1..]);
        assert next == [next[0]] + ps[1..];
      } else {
        LateReport(ps[1..], tag);
        LoadedCons(ps[0], MarkLoaded(ps[1..], tag));
      }
    }
  }

  lemma LoadedTail(ps: seq<Passenger>)
    requires LoadedAreAboard(ps) && ps != []
    ensures LoadedAreAboard([ps[0]]) && LoadedAreAboard(ps[1..])
  {
    forall i, j | 0 <= i < |ps[1..]| && 0 <= j < |ps[1..][i].bags| && ps[1..][i].bags[j].loaded
      ensures ps[1..][i].status == Boarded
    {
      assert ps[i + 1].bags[j].loaded;
    }
  }

  lemma LoadedCons(p: Passenger, rest: seq<Passenger>)
    ensures LoadedAreAboard([p] + rest)
            <==> (LoadedAreAboard(rest) && forall j | 0 <= j < |p.bags| && p.bags[j].loaded :: p.status == Boarded)
  {
    var all := [p] + rest;
    if LoadedAreAboard(all) {
      LoadedTail(all);
      assert all[1..] == rest;
      assert all[0] == p;
    }
  }

  // ---------------------------------------------------------------- places and designators

  /** No two occupied designators read as the same row and letter. */
  predicate PlacesDiffer(occ: Occupancy) {
    forall s, t | s in occ && t in occ && s != t :: SplitSeat(s) != SplitSeat(t)
  }

  /** Accepting one passenger into a named seat keeps places apart exactly when no
      occupied designator reads as the row and letter asked for. A leading zero gets
      past the check: the map is keyed by the designator as written. */
  lemma NamedSeatIsAPlace(m: Manifest, targets: seq<nat>, seat: string, bags: seq<Bag>)
    requires Sound(m) && WellFormed(m.layout) && |targets| == 1 && Seatless(m, targets) && seat != ""
    requires PlacesDiffer(m.occupied) && AcceptTargets(m, targets, seat, bags).1 == Done
    ensures PlacesDiffer(AcceptTargets(m, targets, seat, bags).0.occupied)
            <==> forall s | s in m.occupied :: SplitSeat(s) != SplitSeat(Normalise(seat))
  {
    hide Sound, WellFormed, SplitSeat, Normalise;
    var after := AcceptTargets(m, targets, seat, bags).0.occupied;
    NamedSeatTaken(m, targets, seat, bags);
    assert forall s :: s in after <==> s in m.occupied || s == Normalise(seat);
  }

  lemma NamedSeatTaken(m: Manifest, targets: seq<nat>, seat: string, bags: seq<Bag>)
    requires |targets| == 1 && Seatless(m, targets) && seat != "" && AcceptTargets(m, targets, seat, bags).1 == Done
    ensures Normalise(seat) !in m.occupied
    ensures AcceptTargets(m, targets, seat, bags).0.occupied == m.occupied[Normalise(seat) := m.passengers[targets[0]].id]
  {
    hide SeatCompartment, Normalise;
    var comp, lead := SeatCompartment(m.layout, Normalise(seat)).value, targets[0];
    var moved := m.(passengers := m.passengers[lead := m.passengers[lead].(compartment := comp)]);
    var next := Seated(moved, lead, Normalise(seat));
    assert targets[1..] == [] && [Normalise(seat)][1..] == [];
    assert TakeAll(next, [], []) == (next, Done);
    assert TakeAll(moved, targets, [Normalise(seat)]) == (next, Done);
  }

  /** In the form the cabin prints. */
  ghost predicate Printed(seat: string) {
    exists row, letter :: row >= 0 && IsLetter(letter) && seat == SeatName(row, letter)
  }

  ghost predicate AllPrinted(occ: Occupancy) {
    forall s | s in occ :: Printed(s)
  }

  lemma PrintedPlacesDiffer(occ: Occupancy)
    requires AllPrinted(occ)
    ensures PlacesDiffer(occ)
  {
    hide SplitSeat, SeatName;
    forall s, t | s in occ && t in occ && s != t ensures SplitSeat(s) != SplitSeat(t) {
      var r, l :| r >= 0 && IsLetter(l) && s == SeatName(r, l);
      var r2, l2 :| r2 >= 0 && IsLetter(l2) && t == SeatName(r2, l2);
      SeatNameReads(r, l);
      SeatNameReads(r2, l2);
    }
  }

  lemma SeatsArePrinted(layout: Layout, comp: string, seat: string)
    requires WellFormed(layout) && seat in SeatsIn(layout, comp)
    ensures Printed(seat)
  {
    hide SeatName;
    SeatsInMember(layout, comp, seat);
    var k: nat :| SeatInSection(layout, comp, seat, k);
    var r, l :| SeatOf(layout[k], seat, r, l);
    assert WellFormedSection(layout[k]);
  }

  /** A request names a seat in printed form, or one the cabin does not have. */
  ghost predicate AsksPrinted(layout: Layout, seat: string) {
    seat != "" && SeatCompartment(layout, Normalise(seat)).Some? ==> Printed(Normalise(seat))
  }

  lemma AcceptPrinted(m: Manifest, targets: seq<nat>, seat: string, bags: seq<Bag>)
    requires Sound(m) && WellFormed(m.layout) && targets != [] && Seatless(m, targets) && NamesOneSeat(targets, seat)
    requires AllPrinted(m.occupied) && AsksPrinted(m.layout, seat)
    ensures AllPrinted(AcceptTargets(m, targets, seat, bags).0.occupied)
  {
    hide Sound, WellFormed, SeatCompartment, Normalise, AllSeatable, PartySeats, TakeAll, Printed, Takeable, AcceptTargets;
    AcceptTargetsRight(m, targets, seat, bags);
    if AcceptTargets(m, targets, seat, bags).1 == Done {
      if seat != "" {
        NamedSeatTaken(m, targets, seat, bags);
        NamedSeatKnown(m, targets, seat, bags);
      } else {
        AreInCompartments(m);
        PartySeatsTakeable(m, targets);
        var seats := PartySeats(m, targets);
        TakeAllSeats(m, targets, seats);
        forall s | s in seats ensures Printed(s) {
          var k :| 0 <= k < |seats| && seats[k] == s;
          SeatsArePrinted(m.layout, m.passengers[targets[k]].compartment, s);
        }
        PartyTaken(m, targets, bags);
      }
    }
  }

  lemma PartyTaken(m: Manifest, targets: seq<nat>, bags: seq<Bag>)
    requires targets != [] && (forall j | 0 <= j < |targets| :: targets[j] < |m.passengers|) && AllSeatable(m, targets)
    ensures AcceptTargets(m, targets, "", bags).0.occupied == TakeAll(m, targets, PartySeats(m, targets)).0.occupied
  {
    hide TakeAll, PartySeats, AllSeatable;
  }

  lemma NamedSeatKnown(m: Manifest, targets: seq<nat>, seat: string, bags: seq<Bag>)
    requires |targets| == 1 && Seatless(m, targets) && seat != "" && AcceptTargets(m, targets, seat, bags).1 == Done
    ensures SeatCompartment(m.layout, Normalise(seat)).Some?
  {
    hide SeatCompartment, Normalise, TakeAll;
  }

  lemma {:induction false} ClearAllPrinted(m: Manifest, order: seq<nat>)
    requires Sound(m) && WellFormed(m.layout) && AllStandby(m, order) && AllPrinted(m.occupied)
    ensures AllPrinted(ClearAll(m, order).occupied)
    decreases |order|
  {
    hide Sound, WellFormed, AcceptTargets, PartyAccepted, FreeCount, Printed;
    if order != [] {
      ClearOne(m, order[0]);
      AcceptPrinted(m, [order[0]], "", []);
      var mid := AcceptTargets(m, [order[0]], "", []).0;
      StillStandby(m, mid, order);
      ClearAllPrinted(mid, order[1..]);
    }
  }

  lemma CheckInOverPrinted(m: Manifest)
    requires Sound(m) && WellFormed(m.layout) && AllPrinted(m.occupied)
    ensures AllPrinted(CheckInOver(m).occupied)
  {
    hide Sound, WellFormed, Ranked, StandbyOf, Printed, ClearAll, Before;
    if m.stage == Open {
      RankedIsSorted(m.passengers, StandbyOf(m.passengers));
      StageKeeps(m, CheckInClosed);
      ClearAllPrinted(m.(stage := CheckInClosed), Ranked(m.passengers, StandbyOf(m.passengers)));
    }
  }

  ghost predicate OpAsksPrinted(layout: Layout, op: Op) {
    match op
    case Accept(request) => AsksPrinted(layout, request.seat)
    case AcceptGoShow(goshow) => AsksPrinted(layout, goshow.seat)
    case _ => true
  }

  lemma AcceptRequestPrinted(m: Manifest, req: AcceptRequest)
    requires Sound(m) && WellFormed(m.layout) && AllPrinted(m.occupied) && AsksPrinted(m.layout, req.seat)
    ensures AllPrinted(AfterAccept(m, req).0.occupied)
  {
    hide Sound, WellFormed, AcceptTargets, Printed, AsksPrinted, Resolve;
    var resolved := Resolve(m.passengers, req);
    if resolved.Targets? && NamesOneSeat(resolved.targets, req.seat) {
      AcceptPrinted(m, resolved.targets, req.seat, req.bags);
    }
  }

  lemma GoShowPrinted(m: Manifest, g: GoShow)
    requires Sound(m) && WellFormed(m.layout) && AllPrinted(m.occupied) && AsksPrinted(m.layout, g.seat)
    ensures AllPrinted(AfterGoShow(m, g).0.occupied)
  {
    hide WellFormed, Sound, AcceptTargets, MustWait, CompartmentFor, Printed, AsksPrinted;
    var p := Newcomer(m, g);
    CompartmentNamed(m.layout, p.class_);
    EnlistedKeeps(m, p);
    AcceptPrinted(Enlisted(m, p), [|m.passengers|], g.seat, g.bags);
  }

  lemma ApplyPrinted(m: Manifest, op: Op)
    requires Sound(m) && WellFormed(m.layout) && AllPrinted(m.occupied) && OpAsksPrinted(m.layout, op)
    ensures AllPrinted(Apply(m, op).0.occupied)
  {
    hide Sound, WellFormed, AfterAccept, AfterGoShow, CheckInOver, AfterBagReport, ListGroups, ApplyGroups, Reconciled,
         PlannedBags, SeatsGivenUp, SeatsOf, Printed, AsksPrinted;
    match op
    case ApplyNameList(list) =>
      ListGroupsCabin(m.(parts := m.parts + {list.part}), list.groups);
      ApplyGroupsCabin(m, Delete, list.groups);
      ApplyGroupsCabin(ApplyGroups(m, Delete, list.groups), Add, list.groups);
      ApplyGroupsCabin(ApplyGroups(ApplyGroups(m, Delete, list.groups), Add, list.groups), Amend, list.groups);
    case Accept(request) => AcceptRequestPrinted(m, request);
    case AcceptGoShow(goshow) => GoShowPrinted(m, goshow);
    case CloseCheckIn => CheckInOverPrinted(m);
    case CloseFlight(options) => CheckInOverPrinted(m);
    case ReportBags(tags) => BagReportLayout(m, tags);
    case _ =>
  }

  lemma {:induction false} RunPrinted(layout: Layout, ops: seq<Op>)
    requires WellFormed(layout) && forall i | 0 <= i < |ops| :: OpAsksPrinted(layout, ops[i])
    ensures AllPrinted(Run(OpenedFor(layout), ops).occupied)
    decreases |ops|
  {
    hide Sound, WellFormed, Apply, OpAsksPrinted, Printed;
    if ops != [] {
      RunPrinted(layout, ops[..|ops| - 1]);
      EveryRunIsSound(layout, ops[..|ops| - 1]);
      ApplyPrinted(Run(OpenedFor(layout), ops[..|ops| - 1]), ops[|ops| - 1]);
    }
  }

  /** In any run whose requests name seats as the cabin prints them, nobody ever sits in
      a row and letter someone else sits in. */
  lemma NeverTwoInAPlace(layout: Layout, ops: seq<Op>, i: nat, j: nat)
    requires WellFormed(layout) && forall k | 0 <= k < |ops| :: OpAsksPrinted(layout, ops[k])
    requires var ps := Run(OpenedFor(layout), ops).passengers; i < j < |ps| && Flying(ps[i]) && Flying(ps[j])
    ensures var ps := Run(OpenedFor(layout), ops).passengers; SplitSeat(ps[i].seat) != SplitSeat(ps[j].seat)
  {
    hide WellFormed, Run, OpAsksPrinted, SplitSeat, AllPrinted, PlacesDiffer;
    RunPrinted(layout, ops);
    NeverTwoToASeat(layout, ops, i, j);
    var m := Run(OpenedFor(layout), ops);
    PrintedPlacesDiffer(m.occupied);
    EveryRunIsSound(layout, ops);
    BothOccupied(m, i, j);
  }

  lemma BothOccupied(m: Manifest, i: nat, j: nat)
    requires Sound(m) && PlacesDiffer(m.occupied) && i < j < |m.passengers|
    requires Flying(m.passengers[i]) && Flying(m.passengers[j])
    ensures SplitSeat(m.passengers[i].seat) != SplitSeat(m.passengers[j].seat)
  {
    hide SplitSeat;
    NoSeatHeldTwice(m, i, j);
  }

  const ONE_ROW := [Section("Y", 12, 12, "AB")]

  /** 12A and 012A are two keys for one seat: both passengers are accepted. */
  lemma LeadingZeroSeatsTwo()
    ensures WellFormed(ONE_ROW)
    ensures SplitSeat("012A") == Some((12, 'A')) && SplitSeat("12A") == SplitSeat("012A") && Normalise("012A") == "012A"
    ensures SeatCompartment(ONE_ROW, "012A") == Some("Y")
    ensures TakeError(ONE_ROW, map["12A" := 1], "012A", 2).None?
  {
    DigitsOf12();
    assert Normalise("012A") == "012A" && Normalise("12A") == "12A";
    assert "012A"[..3] == "012" && "12A"[..2] == "12";
    assert ONE_ROW[0].letters[0] == 'A';
  }

  lemma DigitsOf12()
    ensures Decimal.Atoi("12") == Decimal.Number(12) && Decimal.Atoi("012") == Decimal.Number(12)
  {
    assert Decimal.Magnitude("") == 0 && Decimal.Magnitude("0") == 0;
    assert "12"[..1] == "1" && "1"[..0] == "" && "012"[..2] == "01" && "01"[..1] == "0" && "0"[..0] == "";
    assert Decimal.Magnitude("1") == 1 && Decimal.Magnitude("01") == 1;
  }

  // ---------------------------------------------------------------- rebuilding

  /** Whoever of the first n flies is where the occupancy map says. */
  predicate SeatedRight(ps: seq<Passenger>, occ: Occupancy, n: nat)
    requires n <= |ps|
  {
    forall i | 0 <= i < n && Flying(ps[i]) :: ps[i].seat != "" && ps[i].seat in occ && occ[ps[i].seat] == ps[i].id
  }

  lemma ReindexNext(ps: seq<Passenger>, n: nat)
    requires n < |ps|
    ensures Reindexed(ps[..n + 1])
         == if ps[n].seat != "" && Flying(ps[n]) then Reindexed(ps[..n])[ps[n].seat := ps[n].id] else Reindexed(ps[..n])
  {
    hide Flying;
    assert ps[..n + 1][..n] == ps[..n] && ps[..n + 1][n] == ps[n];
  }

  /** Rebuilding never notes anything the occupancy map does not. */
  lemma {:induction false} ReindexedIsHeld(ps: seq<Passenger>, occ: Occupancy, n: nat)
    requires n <= |ps| && SeatedRight(ps, occ, n)
    ensures forall s | s in Reindexed(ps[..n]) :: s in occ && Reindexed(ps[..n])[s] == occ[s]
    decreases n
  {
    hide Reindexed, Flying;
    if n == 0 {
      NothingReindexed(ps);
    } else {
      ReindexNext(ps, n - 1);
      ReindexedIsHeld(ps, occ, n - 1);
    }
  }

  /** And it notes every seat held. */
  lemma {:induction false} HeldIsReindexed(ps: seq<Passenger>, occ: Occupancy, n: nat)
    requires n <= |ps| && SeatedRight(ps, occ, n)
    ensures forall i | 0 <= i < n && Flying(ps[i]) :: ps[i].seat in Reindexed(ps[..n])
    decreases n
  {
    hide Reindexed, Flying;
    if n > 0 {
      ReindexNext(ps, n - 1);
      HeldIsReindexed(ps, occ, n - 1);
    }
  }

  lemma NothingReindexed(ps: seq<Passenger>)
    ensures Reindexed(ps[..0]) == map[]
  {
  }

  /** Rebuilding occupancy from the passenger list, as a restart does, changes nothing. */
  lemma ReindexIsExact(m: Manifest)
    requires Sound(m)
    ensures Reindexed(m.passengers) == m.occupied
  {
    hide SeatCompartment, Reindexed, IdsRise, SequencesDiffer;
    var ps := m.passengers;
    assert ps[..|ps|] == ps;
    forall i | 0 <= i < |ps| && Flying(ps[i]) ensures ps[i].seat != "" {
      FlyingSeatNamed(m, i);
    }
    ReindexedIsHeld(ps, m.occupied, |ps|);
    HeldIsReindexed(ps, m.occupied, |ps|);
    forall s | s in m.occupied ensures s in Reindexed(ps) {
      var i :| 0 <= i < |ps| && HeldBy(ps[i], s, m.occupied[s]);
    }
  }
}
