/** The operations an agent's screen exposes, step by step on a flight. */
module DcsStation {
  import opened Wrappers
  import opened Text
  import opened Sequences
  import opened DcsCabin
  import opened DcsFlight

  class Flight {
    const cabin: Cabin
    var stage: Stage
    var passengers: seq<Passenger>
    var nextID: int
    var nextSeq: int
    var parts: set<int>
    var complete: bool
    var closure: Option<Closure>

    function View(): Manifest
      reads this, cabin
    {
      Manifest(cabin.layout, stage, passengers, cabin.occupied, nextID, nextSeq, parts, complete, closure)
    }

    constructor (layout: Layout)
      ensures View() == OpenedFor(layout) && fresh(cabin)
    {
      cabin := new Cabin(layout);
      stage, passengers, nextID, nextSeq := Open, [], 1, 1;
      parts, complete, closure := {}, false, None;
    }

    // -------------------------------------------------------------- finding passengers

    method Lookup(id: int) returns (found: Option<nat>)
      ensures found == Find(passengers, id)
    {
      found := None;
      for i := 0 to |passengers|
        invariant found == Find(passengers[..i], id)
      {
        ghost var sofar := passengers[..i + 1];
        assert sofar[..i] == passengers[..i] && sofar[i] == passengers[i];
        if found.None? && passengers[i].id == id {
          found := Some(i);
        }
      }
      assert passengers[..|passengers|] == passengers;
    }

    /** The waiting passengers of a record, and whether any of it is already accepted. */
    method OfRecord(locator: string, surname: string) returns (out: seq<nat>, accepted: nat)
      ensures out == WaitingOf(passengers, locator, surname)
      ensures accepted > 0 <==> SomeFlying(passengers, locator, surname)
    {
      hide Matches, Waiting, Flying, WaitingOf, SomeFlying;
      out, accepted := [], 0;
      NobodyYet(passengers, locator, surname);
      for i := 0 to |passengers|
        invariant out == WaitingOf(passengers[..i], locator, surname)
        invariant accepted > 0 <==> SomeFlying(passengers[..i], locator, surname)
      {
        var p := passengers[i];
        OfRecordNext(passengers, i, locator, surname);
        if Matches(p, locator, surname) {
          if Waiting(p) {
            out := out + [i];
          } else if Flying(p) {
            accepted := accepted + 1;
          }
        }
      }
      assert passengers[..|passengers|] == passengers;
    }

    method ResolveRequest(req: AcceptRequest) returns (r: Resolved)
      ensures r == Resolve(passengers, req)
    {
      if req.passengerID > 0 {
        var i := Lookup(req.passengerID);
        if i.None? || passengers[i.value].status == Deleted {
          return Unresolved(PassengerNotFound);
        }
        var p := passengers[i.value];
        return if Flying(p) then Unresolved(AlreadyAccepted)
               else if Waiting(p) then Targets([i.value])
               else Unresolved(NotAcceptable(p.status));
      }
      var locator, surname := Normalise(req.locator), Normalise(req.surname);
      if locator == "" && surname == "" {
        return Unresolved(PassengerNotFound);
      }
      var out, accepted := OfRecord(locator, surname);
      if out == [] {
        return if accepted > 0 then Unresolved(AlreadyAccepted) else Unresolved(PassengerNotFound);
      }
      r := Targets(out);
    }

    // -------------------------------------------------------------- acceptance

    /** The positions in the party of those who sit in the compartment. */
    method GroupOf(targets: seq<nat>, comp: string) returns (group: seq<nat>)
      requires forall k | 0 <= k < |targets| :: targets[k] < |passengers|
      ensures IsGroup(passengers, targets, comp, group)
    {
      group := [];
      for k := 0 to |targets|
        invariant |group| == GroupSize(passengers, targets[..k], comp)
        invariant forall r | 0 <= r < |group| :: group[r] < k && InGroupAt(passengers, targets, comp, group[r], r)
        invariant forall j | 0 <= j < k && passengers[targets[j]].compartment == comp ::
                    exists r | 0 <= r < |group| :: group[r] == j
      {
        ghost var sofar, before := targets[..k + 1], group;
        assert sofar[..k] == targets[..k] && sofar[k] == targets[k];
        if passengers[targets[k]].compartment == comp {
          group := group + [k];
          assert group[|before|] == k;
        }
        forall j | 0 <= j < k && passengers[targets[j]].compartment == comp
          ensures exists r | 0 <= r < |group| :: group[r] == j
        {
          var r :| 0 <= r < |before| && before[r] == j;
          assert group[r] == j;
        }
      }
      assert targets[..|targets|] == targets;
    }

    method CompartmentsOf(targets: seq<nat>) returns (comps: seq<string>)
      requires forall k | 0 <= k < |targets| :: targets[k] < |passengers|
      ensures forall k | 0 <= k < |targets| :: passengers[targets[k]].compartment in comps
      ensures forall c | c in comps :: exists k | 0 <= k < |targets| :: passengers[targets[k]].compartment == c
    {
      comps := [];
      for k := 0 to |targets|
        invariant forall j | 0 <= j < k :: passengers[targets[j]].compartment in comps
        invariant forall c | c in comps :: exists j | 0 <= j < k :: passengers[targets[j]].compartment == c
      {
        if passengers[targets[k]].compartment !in comps {
          comps := comps + [passengers[targets[k]].compartment];
        }
      }
    }

    /** The seats chosen for a compartment, each noted for the member it is for. */
    method NoteSeats(targets: seq<nat>, comp: string, group: seq<nat>, chosen: seq<string>, found: map<nat, string>)
      returns (next: map<nat, string>)
      requires (forall k | 0 <= k < |targets| :: targets[k] < |passengers|) && IsGroup(passengers, targets, comp, group)
      requires Assigned(cabin.layout, cabin.occupied, comp, |group|) == Some(chosen) && |chosen| == |group|
      ensures forall k | 0 <= k < |targets| && passengers[targets[k]].compartment == comp :: FoundFor(View(), targets, next, k)
      ensures forall k | k in found && k !in group :: k in next && next[k] == found[k]
    {
      hide Assigned, GroupSize;
      next := found;
      for r := 0 to |group|
        invariant forall q | 0 <= q < r :: group[q] < |targets| && FoundFor(View(), targets, next, group[q])
        invariant forall k | k in found && k !in group :: k in next && next[k] == found[k]
      {
        assert InGroupAt(passengers, targets, comp, group[r], r) && group[r] in group;
        ghost var before := next;
        next := next[group[r] := chosen[r]];
        assert FoundFor(View(), targets, next, group[r]);
        forall q | 0 <= q < r ensures FoundFor(View(), targets, next, group[q]) {
          assert InGroupAt(passengers, targets, comp, group[q], q) && FoundFor(View(), targets, before, group[q]);
        }
      }
    }

    /** The seats noted, in the order of the party. */
    method InOrderOf(targets: seq<nat>, found: map<nat, string>) returns (out: seq<string>)
      requires (forall k | 0 <= k < |targets| :: targets[k] < |passengers|) && AllSeatable(View(), targets)
      requires forall k | 0 <= k < |targets| :: FoundFor(View(), targets, found, k)
      ensures out == PartySeats(View(), targets)
    {
      hide Assigned, GroupSize;
      out := [];
      for k := 0 to |targets|
        invariant |out| == k && forall j | 0 <= j < k :: out[j] == SeatOfTarget(View(), targets, j)
      {
        assert FoundFor(View(), targets, found, k);
        out := out + [found[k]];
      }
    }

    /** Seats for a party, compartment by compartment, together where a row allows. */
    method FindSeats(targets: seq<nat>) returns (seats: Option<seq<string>>)
      requires forall k | 0 <= k < |targets| :: targets[k] < |passengers|
      ensures seats == if AllSeatable(View(), targets) then Some(PartySeats(View(), targets)) else None
    {
      hide Assigned, GroupSize;
      var comps := CompartmentsOf(targets);
      // The order compartments are taken in cannot be told apart: nothing is taken yet.
      var found: map<nat, string> := map[];
      for i := 0 to |comps|
        invariant forall k | 0 <= k < |targets| && passengers[targets[k]].compartment in comps[..i] ::
                    FoundFor(View(), targets, found, k)
      {
        var comp := comps[i];
        ghost var earlier := comps[..i];
        assert comps[..i + 1] == earlier + [comp];
        var group := GroupOf(targets, comp);
        var chosen := cabin.Assign(comp, |group|);
        if chosen.None? {
          assert comp in comps;
          ghost var j :| 0 <= j < |targets| && passengers[targets[j]].compartment == comp;
          assert GroupSeats(View(), targets, j).None?;
          return None;
        }
        ghost var before := found;
        found := NoteSeats(targets, comp, group, chosen.value, found);
        forall k | 0 <= k < |targets| && passengers[targets[k]].compartment in earlier && passengers[targets[k]].compartment != comp
          ensures FoundFor(View(), targets, found, k)
        {
          assert FoundFor(View(), targets, before, k);
        }
        forall k | 0 <= k < |targets| && passengers[targets[k]].compartment in comps[..i + 1]
          ensures FoundFor(View(), targets, found, k)
        {
          if passengers[targets[k]].compartment == comp {
            var r :| 0 <= r < |group| && group[r] == k;
          }
        }
      }
      assert comps[..|comps|] == comps;
      forall k | 0 <= k < |targets| ensures FoundFor(View(), targets, found, k) {
      }
      assert AllSeatable(View(), targets);
      var out := InOrderOf(targets, found);
      seats := Some(out);
    }

    /** Each in turn takes its seat and a sequence number. */
    method TakeSeats(targets: seq<nat>, seats: seq<string>) returns (outcome: Outcome)
      requires |seats| == |targets| && forall k | 0 <= k < |targets| :: targets[k] < |passengers|
      modifies this, cabin
      ensures (View(), outcome) == TakeAll(old(View()), targets, seats)
    {
      hide TakeError;
      ghost var start := View();
      for k := 0 to |targets|
        invariant |passengers| == |start.passengers|
        invariant TakeAll(View(), targets[k..], seats[k..]) == TakeAll(start, targets, seats)
      {
        var i, seat := targets[k], seats[k];
        assert targets[k..][0] == i && targets[k..][1..] == targets[k + 1..];
        assert seats[k..][0] == seat && seats[k..][1..] == seats[k + 1..];
        ghost var before := View();
        var error := cabin.Take(seat, passengers[i].id);
        if error.Some? {
          assert View() == before;
          return Refused(ErrorOf(error.value));
        }
        passengers := passengers[i := passengers[i].(seat := seat, status := Accepted, sequence := nextSeq)];
        nextSeq := nextSeq + 1;
        assert View() == Seated(before, i, seat);
      }
      assert targets[|targets|..] == [] && seats[|seats|..] == [];
      outcome := Done;
    }

    method AcceptParty(targets: seq<nat>, seat: string, bags: seq<Bag>) returns (outcome: Outcome)
      requires targets != [] && forall k | 0 <= k < |targets| :: targets[k] < |passengers|
      requires seat != "" ==> |targets| == 1
      modifies this, cabin
      ensures (View(), outcome) == AcceptTargets(old(View()), targets, seat, bags)
    {
      hide TakeAll, AllSeatable, PartySeats, SeatCompartment, Normalise;
      var lead := targets[0];
      var seats: seq<string>;
      if seat != "" {
        var tidy := Normalise(seat);
        var comp := cabin.Has(tidy);
        if comp.None? {
          return Refused(SeatUnknown);
        }
        if tidy in cabin.occupied {
          return Refused(SeatIsTaken);
        }
        passengers := passengers[lead := passengers[lead].(compartment := comp.value)];
        seats := [tidy];
      } else {
        var found := FindSeats(targets);
        if found.None? {
          return Refused(NoSeat);
        }
        seats := found.value;
      }
      outcome := TakeSeats(targets, seats);
      if outcome.Done? {
        passengers := passengers[lead := passengers[lead].(bags := passengers[lead].bags + bags)];
      }
    }

    method Accept(req: AcceptRequest) returns (outcome: Outcome)
      modifies this, cabin
      ensures (View(), outcome) == AfterAccept(old(View()), req)
    {
      hide AcceptTargets, Resolve;
      if stage == Closed {
        return Refused(FlightClosed);
      }
      if stage == CheckInClosed && !req.force {
        return Refused(CheckInHasClosed);
      }
      var resolved := ResolveRequest(req);
      if resolved.Unresolved? {
        return Refused(resolved.error);
      }
      if req.seat != "" && |resolved.targets| > 1 {
        return Refused(OneSeatOneName);
      }
      outcome := AcceptParty(resolved.targets, req.seat, req.bags);
    }

    // -------------------------------------------------------------- go-shows

    method SpareSeats(comp: string) returns (spare: int)
      ensures spare == Spare(View(), comp)
    {
      var owed: int := 0;
      for i := 0 to |passengers|
        invariant owed == Owed(passengers[..i], comp)
      {
        ghost var sofar := passengers[..i + 1];
        assert sofar[..i] == passengers[..i] && sofar[i] == passengers[i];
        if passengers[i].status == Listed && passengers[i].compartment == comp {
          owed := owed + 1;
        }
      }
      assert passengers[..|passengers|] == passengers;
      var free := cabin.Free(comp);
      spare := free - owed;
    }

    method AcceptGoShow(g: GoShow) returns (outcome: Outcome)
      modifies this, cabin
      ensures (View(), outcome) == AfterGoShow(old(View()), g)
    {
      hide AcceptTargets, Spare;
      if stage == Closed {
        return Refused(FlightClosed);
      }
      if stage == CheckInClosed {
        return Refused(CheckInHasClosed);
      }
      if g.surname == "" {
        return Refused(NoSurname);
      }
      var n, p := |passengers|, Newcomer(View(), g);
      nextID := nextID + 1;
      passengers := passengers + [p];
      var spare := SpareSeats(p.compartment);
      if g.standby || GoShowAs(g) == IdPad || spare <= 0 {
        return Done;
      }
      outcome := AcceptParty([n], g.seat, g.bags);
      match outcome {
        case Done =>
        case Refused(e) =>
          if e == NoSeat {
            return Panicked;
          }
          passengers := passengers[..n];
        case Panicked =>
      }
    }

    // -------------------------------------------------------------- boarding and taking off

    method Board(id: int) returns (outcome: Outcome)
      modifies this
      ensures (View(), outcome) == AfterBoard(old(View()), id)
    {
      if stage == Closed {
        return Refused(FlightClosed);
      }
      var found := Lookup(id);
      if found.None? {
        return Refused(PassengerNotFound);
      }
      var p := passengers[found.value];
      if p.status == Boarded {
        return Refused(AlreadyBoarded);
      }
      if p.status != Accepted {
        return Refused(NotAccepted);
      }
      passengers := passengers[found.value := p.(status := Boarded)];
      outcome := Done;
    }

    /** Frees the seat and marks the bags to come off. */
    method TakeOff(i: nat)
      requires i < |passengers|
      modifies this, cabin
      ensures View() == old(View()).(passengers := old(passengers)[i := TakenOff(old(passengers)[i])],
                                     occupied := old(cabin.occupied) - SeatHeld(old(passengers)[i]))
    {
      var p := passengers[i];
      if p.seat != "" {
        cabin.Release(p.seat);
      }
      var bags := p.bags;
      for j := 0 to |bags|
        invariant |bags| == |p.bags|
        invariant forall k | 0 <= k < |bags| :: bags[k] == if k < j then p.bags[k].(offloaded := true) else p.bags[k]
      {
        bags := bags[j := bags[j].(offloaded := true)];
      }
      assert bags == OffBags(p.bags);
      passengers := passengers[i := p.(status := Offloaded, bags := bags)];
    }

    method Offload(id: int) returns (outcome: Outcome)
      modifies this, cabin
      ensures (View(), outcome) == AfterOffload(old(View()), id)
    {
      if stage == Closed {
        return Refused(FlightClosed);
      }
      var found := Lookup(id);
      if found.None? {
        return Refused(PassengerNotFound);
      }
      if !Flying(passengers[found.value]) {
        return Refused(NotAccepted);
      }
      TakeOff(found.value);
      outcome := Done;
    }

    // -------------------------------------------------------------- closing check-in

    method CollectStandby() returns (waiting: seq<nat>)
      ensures waiting == StandbyOf(passengers)
    {
      waiting := [];
      for i := 0 to |passengers|
        invariant waiting == StandbyOf(passengers[..i])
      {
        ghost var sofar := passengers[..i + 1];
        assert sofar[..i] == passengers[..i] && sofar[i] == passengers[i];
        if passengers[i].status == Standby {
          waiting := waiting + [i];
        }
      }
      assert passengers[..|passengers|] == passengers;
    }

    /** Where one more goes in the order: a stable insertion. */
    method PlaceInOrder(order: seq<nat>, i: nat) returns (k: nat)
      requires i < |passengers| && forall j | 0 <= j < |order| :: order[j] < |passengers|
      ensures k == PlaceFor(passengers, order, i)
    {
      hide Before;
      k := |order|;
      assert order[..k] == order;
      while k > 0 && Before(passengers[i], passengers[order[k - 1]])
        invariant k <= |order| && PlaceFor(passengers, order, i) == PlaceFor(passengers, order[..k], i)
      {
        assert order[..k][..k - 1] == order[..k - 1] && order[..k][k - 1] == order[k - 1];
        k := k - 1;
      }
      assert k > 0 ==> order[..k][k - 1] == order[k - 1];
    }

    /** The order the standby list is cleared in. */
    method RankStandby() returns (order: seq<nat>)
      ensures order == Ranked(passengers, StandbyOf(passengers))
    {
      hide Before, StandbyOf;
      var waiting := CollectStandby();
      order := [];
      for i := 0 to |waiting|
        invariant order == Ranked(passengers, waiting[..i])
      {
        ghost var sofar := waiting[..i + 1];
        assert sofar[..i] == waiting[..i] && sofar[i] == waiting[i];
        var k := PlaceInOrder(order, waiting[i]);
        order := order[..k] + [waiting[i]] + order[k..];
      }
      assert waiting[..|waiting|] == waiting;
    }

    /** Clears the standby list into whatever seats remain. */
    method CloseStandby()
      modifies this, cabin
      ensures View() == CheckInOver(old(View()))
    {
      hide AcceptTargets, Ranked, StandbyOf;
      if stage != Open {
        return;
      }
      stage := CheckInClosed;
      var order := RankStandby();
      ghost var start := View();
      for k := 0 to |order|
        invariant |passengers| == |start.passengers|
        invariant ClearAll(View(), order[k..]) == ClearAll(start, order)
      {
        assert order[k..][0] == order[k] && order[k..][1..] == order[k + 1..];
        var outcome := AcceptParty([order[k]], "", []);
      }
      assert order[|order|..] == [];
    }

    method CloseCheckIn() returns (outcome: Outcome)
      modifies this, cabin
      ensures (View(), outcome) == AfterCloseCheckIn(old(View()))
    {
      if stage == Closed {
        return Refused(FlightClosed);
      }
      CloseStandby();
      outcome := Done;
    }

    // -------------------------------------------------------------- closing the flight

    /** No-shows are declared and whoever has not boarded comes off. */
    method ClearDoor()
      modifies this, cabin
      ensures View() == old(View()).(passengers := AllAtDoor(old(passengers)),
                                     occupied := old(cabin.occupied) - SeatsGivenUp(old(passengers)))
    {
      hide TakenOff, SeatHeld, AtDoor, SeatsGivenUp;
      ghost var was, held := passengers, cabin.occupied;
      assert was[..0] == [];
      NobodyOff(held);
      for i := 0 to |passengers|
        invariant |passengers| == |was|
        invariant forall k | 0 <= k < |was| :: passengers[k] == if k < i then AtDoor(was[k]) else was[k]
        invariant cabin.occupied == held - SeatsGivenUp(was[..i])
        invariant View() == old(View()).(passengers := passengers, occupied := cabin.occupied)
      {
        DoorNext(held, was, i);
        match passengers[i].status {
          case Listed => passengers := passengers[i := passengers[i].(status := NoShow)];
          case Accepted => TakeOff(i);
          case _ =>
        }
      }
      assert was[..|was|] == was && passengers == AllAtDoor(was);
    }

    method Reconcile() returns (r: Reconciliation)
      ensures r == Reconciled(passengers)
    {
      hide MatchBag;
      r := NOTHING_MATCHED;
      for i := 0 to |passengers|
        invariant r == Reconciled(passengers[..i])
      {
        var p := passengers[i];
        ghost var sofar, before := passengers[..i + 1], r;
        assert sofar[..i] == passengers[..i] && sofar[i] == p;
        for j := 0 to |p.bags|
          invariant r == MatchBags(before, p, p.bags[..j])
        {
          ghost var some := p.bags[..j + 1];
          assert some[..j] == p.bags[..j] && some[j] == p.bags[j];
          r := MatchBag(r, p, p.bags[j]);
        }
        assert p.bags[..|p.bags|] == p.bags;
      }
      assert passengers[..|passengers|] == passengers;
    }

    /** Loaded bags whose passenger did not fly come off. */
    method PullBags()
      modifies this
      ensures View() == old(View()).(passengers := AllPulled(old(passengers)))
    {
      ghost var was := passengers;
      for i := 0 to |passengers|
        invariant |passengers| == |was|
        invariant forall k | 0 <= k < |was| :: passengers[k] == if k < i then Pulled(was[k]) else was[k]
        invariant View() == old(View()).(passengers := passengers)
      {
        if passengers[i].status != Boarded {
          var bags := passengers[i].bags;
          for j := 0 to |bags|
            invariant |bags| == |was[i].bags|
            invariant forall k | 0 <= k < |bags| :: bags[k] == if k < j then PulledBags(was[i].bags)[k] else was[i].bags[k]
          {
            if bags[j].loaded {
              bags := bags[j := bags[j].(loaded := false, offloaded := true)];
            }
          }
          assert bags == PulledBags(was[i].bags);
          passengers := passengers[i := passengers[i].(bags := bags)];
        }
      }
      assert passengers == AllPulled(was);
    }

    /** The bags and kilos load planning counts. */
    method PlanBags() returns (bags: nat, kilos: int)
      ensures (bags, kilos) == PlannedBags(passengers)
    {
      bags, kilos := 0, 0;
      for i := 0 to |passengers|
        invariant (bags, kilos) == PlannedBags(passengers[..i])
      {
        var p := passengers[i];
        ghost var sofar, n, w := passengers[..i + 1], bags, kilos;
        assert sofar[..i] == passengers[..i] && sofar[i] == p;
        if p.status == Boarded {
          for j := 0 to |p.bags|
            invariant (bags, kilos) == (n + BagLoad(p.bags[..j]).0, w + BagLoad(p.bags[..j]).1)
          {
            ghost var some := p.bags[..j + 1];
            assert some[..j] == p.bags[..j] && some[j] == p.bags[j];
            if !p.bags[j].offloaded {
              bags, kilos := bags + 1, kilos + p.bags[j].weight;
            }
          }
          assert p.bags[..|p.bags|] == p.bags;
        }
      }
      assert passengers[..|passengers|] == passengers;
    }

    method CloseFlight(opts: CloseOptions) returns (outcome: Outcome)
      modifies this, cabin
      ensures (View(), outcome) == AfterCloseFlight(old(View()), opts)
    {
      hide CheckInOver, Reconciled, PlannedBags, SeatsGivenUp;
      if stage == Closed {
        return Refused(FlightClosed);
      }
      if stage == Open && !opts.force {
        return Refused(CheckInStillOpen);
      }
      CloseStandby();
      ClearDoor();
      var rec := Reconcile();
      if opts.requireReconciled && rec.unaccompanied != [] {
        return Refused(UnreconciledBags(rec.unaccompanied));
      }
      PullBags();
      var bags, kilos := PlanBags();
      closure := Some(Closure(rec, bags, kilos));
      stage := Closed;
      outcome := Done;
    }

    method CancelFlight() returns (outcome: Outcome)
      modifies this, cabin
      ensures (View(), outcome) == AfterCancel(old(View()))
    {
      hide TakenOff, SeatHeld, Grounded, SeatsOf, Flying;
      if stage == Closed {
        return Refused(FlightClosed);
      }
      ghost var was, held := passengers, cabin.occupied;
      assert was[..0] == [];
      NobodyOff(held);
      for i := 0 to |passengers|
        invariant |passengers| == |was|
        invariant forall k | 0 <= k < |was| :: passengers[k] == if k < i then Grounded(was[k]) else was[k]
        invariant cabin.occupied == held - SeatsOf(was[..i])
        invariant View() == old(View()).(passengers := passengers, occupied := cabin.occupied)
      {
        GroundNext(held, was, i);
        if Flying(passengers[i]) {
          TakeOff(i);
        }
      }
      assert was[..|was|] == was && passengers == AllGrounded(was);
      stage := Closed;
      outcome := Done;
    }

    // -------------------------------------------------------------- the name list

    method AddName(class_: string, n: Name)
      modifies this
      ensures View() == AddNames(old(View()), class_, n)
    {
      hide CompartmentFor, PartyKey;
      var key := PartyKey(n);
      for i := 0 to |passengers|
        invariant forall k | 0 <= k < i :: !InParty(passengers[k], key)
      {
        if InParty(passengers[i], key) {
          return;
        }
      }
      var deleted: Option<nat> := None;
      for i := 0 to |passengers|
        invariant deleted == FirstDeleted(passengers[..i], key)
      {
        ghost var sofar := passengers[..i + 1];
        assert sofar[..i] == passengers[..i] && sofar[i] == passengers[i];
        if deleted.None? && passengers[i].party == key && passengers[i].status == Deleted {
          deleted := Some(i);
        }
      }
      assert passengers[..|passengers|] == passengers;
      if deleted.Some? {
        var i := deleted.value;
        passengers := passengers[i := passengers[i].(status := Listed, class_ := class_,
                                                     compartment := CompartmentFor(cabin.layout, class_))];
        return;
      }
      EnlistParty(class_, n);
    }

    method EnlistParty(class_: string, n: Name)
      modifies this
      ensures View() == EnlistedAll(old(View()), class_, n, PartySize(n))
    {
      hide CompartmentFor, PartyKey;
      for i := 0 to PartySize(n)
        invariant View() == EnlistedAll(old(View()), class_, n, i)
      {
        passengers := passengers + [ListedName(View(), class_, n, i)];
        nextID := nextID + 1;
      }
    }

    method DeleteName(n: Name)
      modifies this
      ensures View() == DeleteNames(old(View()), n)
    {
      hide PartyKey;
      var key := PartyKey(n);
      ghost var was := passengers;
      for i := 0 to |passengers|
        invariant |passengers| == |was| && View() == old(View()).(passengers := passengers)
        invariant forall k | 0 <= k < |was| :: passengers[k] == if k < i then Struck(was[k], key) else was[k]
      {
        var p := passengers[i];
        if InParty(p, key) {
          if Waiting(p) {
            passengers := passengers[i := p.(status := Deleted)];
          } else if Flying(p) {
            passengers := passengers[i := p.(deletedAfterAcceptance := true)];
          }
        }
      }
      assert passengers == DeleteNames(old(View()), n).passengers;
    }

    method ChangeName(class_: string, n: Name)
      modifies this
      ensures View() == ChangeNames(old(View()), class_, n)
    {
      hide CompartmentFor, PartyKey, AddNames;
      var key := PartyKey(n);
      ghost var was := passengers;
      var members := 0;
      for i := 0 to |passengers|
        invariant |passengers| == |was| && View() == old(View()).(passengers := passengers)
        invariant members >= 0 && (members > 0 <==> exists k | 0 <= k < i :: InParty(was[k], key))
        invariant forall k | 0 <= k < |was| ::
                    passengers[k] == if k < i then Amended(cabin.layout, was[k], class_, key) else was[k]
      {
        var p := passengers[i];
        if InParty(p, key) {
          members := members + 1;
          if class_ != "" && p.status == Listed {
            passengers := passengers[i := p.(class_ := class_, compartment := CompartmentFor(cabin.layout, class_))];
          }
        }
      }
      if members == 0 {
        assert passengers == was;
        AddName(class_, n);
      } else {
        assert passengers == ChangeNames(old(View()), class_, n).passengers;
      }
    }

    method ApplyOne(change: Change, class_: string, n: Name)
      modifies this
      ensures View() == ApplyName(old(View()), change, class_, n)
    {
      match change {
        case Delete => DeleteName(n);
        case Add => AddName(class_, n);
        case Amend => ChangeName(class_, n);
      }
    }

    method ApplyItems(change: Change, class_: string, names: seq<Name>)
      modifies this
      ensures View() == ApplyNames(old(View()), change, class_, names)
    {
      hide ApplyName;
      for i := 0 to |names|
        invariant View() == ApplyNames(old(View()), change, class_, names[..i])
      {
        ghost var sofar := names[..i + 1];
        assert sofar[..i] == names[..i] && sofar[i] == names[i];
        ApplyOne(change, class_, names[i]);
      }
      assert names[..|names|] == names;
    }

    method ApplyPNL(list: NameList) returns (outcome: Outcome)
      modifies this
      ensures (View(), outcome) == AfterPNL(old(View()), list)
    {
      hide ApplyNames;
      for i := 0 to |passengers|
        invariant forall k | 0 <= k < i :: passengers[k].status == Listed || passengers[k].status == Deleted
      {
        if passengers[i].status != Listed && passengers[i].status != Deleted {
          return Refused(ListAfterAccept);
        }
      }
      if list.part in parts || complete {
        return Done;
      }
      parts := parts + {list.part};
      ghost var start := View();
      for i := 0 to |list.groups|
        invariant View() == ListGroups(start, list.groups[..i])
      {
        ghost var sofar := list.groups[..i + 1];
        assert sofar[..i] == list.groups[..i] && sofar[i] == list.groups[i];
        ApplyItems(Add, list.groups[i].class_, list.groups[i].names);
      }
      assert list.groups[..|list.groups|] == list.groups;
      if list.final {
        complete := true;
      }
      outcome := Done;
    }

    /** All of a message's changes of one kind. */
    method ApplyChanges(change: Change, groups: seq<Group>)
      modifies this
      ensures View() == ApplyGroups(old(View()), change, groups)
    {
      hide ApplyNames;
      for i := 0 to |groups|
        invariant View() == ApplyGroups(old(View()), change, groups[..i])
      {
        var g := groups[i];
        ghost var sofar, before := groups[..i + 1], View();
        assert sofar[..i] == groups[..i] && sofar[i] == g;
        for j := 0 to |g.sections|
          invariant View() == ApplySections(before, change, g.class_, g.sections[..j])
        {
          ghost var some := g.sections[..j + 1];
          assert some[..j] == g.sections[..j] && some[j] == g.sections[j];
          if g.sections[j].0 == change {
            ApplyItems(change, g.class_, g.sections[j].1);
          }
        }
        assert g.sections[..|g.sections|] == g.sections;
      }
      assert groups[..|groups|] == groups;
    }

    method ApplyNameList(list: NameList) returns (outcome: Outcome)
      modifies this
      ensures (View(), outcome) == AfterNameList(old(View()), list)
    {
      hide ApplyGroups, AfterPNL;
      if stage == Closed {
        return Refused(FlightClosed);
      }
      match list.kind {
        case PNL => outcome := ApplyPNL(list);
        case ADL =>
          ApplyChanges(Delete, list.groups);
          ApplyChanges(Add, list.groups);
          ApplyChanges(Amend, list.groups);
          outcome := Done;
      }
    }

    // -------------------------------------------------------------- bags and restarts

    method FindTag(bags: seq<Bag>, tag: string) returns (j: nat)
      ensures if HasTag(bags, tag) then j < |bags| && LoadFirst(bags, tag) == bags[j := bags[j].(loaded := true)]
              else j == |bags|
    {
      j := 0;
      while j < |bags| && bags[j].tag != tag
        invariant j <= |bags| && forall k | 0 <= k < j :: bags[k].tag != tag
      {
        j := j + 1;
      }
      if j < |bags| {
        FirstWithTag(bags, tag, j);
      }
    }

    method MarkTag(tag: string) returns (known: bool)
      modifies this
      ensures View() == old(View()).(passengers := MarkLoaded(old(passengers), tag))
      ensures known == TagKnown(old(passengers), tag)
    {
      hide LoadFirst, HasTag, MarkLoaded;
      ghost var was := passengers;
      assert was[0..] == was && was[..0] == [];
      for i := 0 to |passengers|
        invariant passengers == was && View() == old(View())
        invariant MarkLoaded(was, tag) == was[..i] + MarkLoaded(was[i..], tag)
        invariant forall k | 0 <= k < i :: !HasTag(was[k].bags, tag)
      {
        var bags := passengers[i].bags;
        MarkStep(was, tag, i);
        var j := FindTag(bags, tag);
        if j < |bags| {
          passengers := passengers[i := passengers[i].(bags := bags[j := bags[j].(loaded := true)])];
          return true;
        }
      }
      assert was[|was|..] == [] && was[..|was|] == was;
      NothingMarked(tag);
      known := false;
    }

    /** Tags reported loaded; the ones nobody here checked are returned. */
    method ReportBags(tags: seq<string>) returns (unknown: seq<string>)
      modifies this
      ensures View() == AfterBagReport(old(View()), tags)
      ensures unknown == UnknownTags(old(passengers), tags)
    {
      hide MarkLoaded, TagKnown;
      unknown := [];
      for i := 0 to |tags|
        invariant View() == AfterBagReport(old(View()), tags[..i])
        invariant unknown == UnknownTags(old(passengers), tags[..i])
      {
        ghost var sofar := tags[..i + 1];
        assert sofar[..i] == tags[..i] && sofar[i] == tags[i];
        ReportKeepsTags(old(View()), tags[..i], tags[i]);
        var known := MarkTag(tags[i]);
        if !known {
          unknown := unknown + [tags[i]];
        }
      }
      assert tags[..|tags|] == tags;
    }

    /** Rebuilds occupancy from the passengers who hold seats. */
    method Reindex()
      modifies cabin
      ensures View() == old(View()).(occupied := Reindexed(passengers))
    {
      cabin.occupied := map[];
      for i := 0 to |passengers|
        invariant cabin.occupied == Reindexed(passengers[..i])
      {
        var p := passengers[i];
        ghost var sofar := passengers[..i + 1];
        assert sofar[..i] == passengers[..i] && sofar[i] == p;
        if p.seat != "" && Flying(p) {
          cabin.occupied := cabin.occupied[p.seat := p.id];
        }
      }
      assert passengers[..|passengers|] == passengers;
    }
  }

  // ---------------------------------------------------------------- steps of the loops

  /** Someone of the record is already accepted. */
  ghost predicate SomeFlying(ps: seq<Passenger>, locator: string, surname: string) {
    exists p :: p in ps && Matches(p, locator, surname) && Flying(p)
  }

  lemma NobodyYet(ps: seq<Passenger>, locator: string, surname: string)
    ensures WaitingOf(ps[..0], locator, surname) == [] && !SomeFlying(ps[..0], locator, surname)
  {
  }

  lemma OfRecordNext(ps: seq<Passenger>, i: nat, locator: string, surname: string)
    requires i < |ps|
    ensures WaitingOf(ps[..i + 1], locator, surname)
         == WaitingOf(ps[..i], locator, surname) + (if Matches(ps[i], locator, surname) && Waiting(ps[i]) then [i] else [])
    ensures SomeFlying(ps[..i + 1], locator, surname)
       <==> SomeFlying(ps[..i], locator, surname) || (Matches(ps[i], locator, surname) && Flying(ps[i]))
    ensures !(Waiting(ps[i]) && Flying(ps[i]))
  {
    hide Matches;
    var some := ps[..i + 1];
    assert some == ps[..i] + [ps[i]] && some[..i] == ps[..i];
    assert forall q :: q in some <==> q in ps[..i] || q == ps[i];
  }

  lemma NobodyOff(held: Occupancy)
    ensures held - SeatsGivenUp([]) == held && held - SeatsOf([]) == held
  {
  }

  /** One passenger more at the closing door. */
  lemma DoorNext(held: Occupancy, ps: seq<Passenger>, i: nat)
    requires i < |ps|
    ensures held - SeatsGivenUp(ps[..i + 1])
         == held - SeatsGivenUp(ps[..i]) - (if ps[i].status == Accepted then SeatHeld(ps[i]) else {})
    ensures AtDoor(ps[i]) == match ps[i].status
                             case Listed => ps[i].(status := NoShow)
                             case Accepted => TakenOff(ps[i])
                             case _ => ps[i]
  {
    hide TakenOff, SeatHeld;
    assert ps[..i + 1][..i] == ps[..i];
  }

  /** One passenger more off a cancelled flight. */
  lemma GroundNext(held: Occupancy, ps: seq<Passenger>, i: nat)
    requires i < |ps|
    ensures held - SeatsOf(ps[..i + 1]) == held - SeatsOf(ps[..i]) - (if Flying(ps[i]) then SeatHeld(ps[i]) else {})
    ensures Grounded(ps[i]) == if Flying(ps[i]) then TakenOff(ps[i]) else ps[i]
  {
    hide TakenOff, SeatHeld, Flying;
    assert ps[..i + 1][..i] == ps[..i];
  }

  lemma NothingMarked(tag: string)
    ensures MarkLoaded([], tag) == []
  {
  }

  /** Some passenger of the flight checked a bag with the tag. */
  predicate TagKnown(ps: seq<Passenger>, tag: string) {
    exists i | 0 <= i < |ps| :: HasTag(ps[i].bags, tag)
  }

  /** The reported tags nobody checked, as often as they were reported. */
  function UnknownTags(ps: seq<Passenger>, tags: seq<string>): seq<string> {
    if tags == [] then []
    else
      var before, tag := UnknownTags(ps, tags[..|tags| - 1]), tags[|tags| - 1];
      if TagKnown(ps, tag) then before else before + [tag]
  }

  /** Marking bags changes no tags. */
  lemma MarkingKeepsTags(ps: seq<Passenger>, tag: string, other: string)
    ensures TagKnown(MarkLoaded(ps, tag), other) == TagKnown(ps, other)
  {
    hide MarkLoaded, LoadFirst;
    var marked := MarkLoaded(ps, tag);
    forall i | 0 <= i < |ps| ensures HasTag(marked[i].bags, other) == HasTag(ps[i].bags, other) {
      LoadingKeepsTags(ps[i].bags, tag, other);
    }
  }

  lemma LoadingKeepsTags(bags: seq<Bag>, tag: string, other: string)
    ensures HasTag(LoadFirst(bags, tag), other) == HasTag(bags, other)
  {
    hide LoadFirst;
    var marked := LoadFirst(bags, tag);
    assert forall j | 0 <= j < |bags| :: marked[j].tag == bags[j].tag;
  }

  lemma {:induction false} ReportKeepsTags(m: Manifest, tags: seq<string>, other: string)
    ensures TagKnown(AfterBagReport(m, tags).passengers, other) == TagKnown(m.passengers, other)
    decreases |tags|
  {
    hide TagKnown, MarkLoaded;
    if tags != [] {
      ReportKeepsTags(m, tags[..|tags| - 1], other);
      MarkingKeepsTags(AfterBagReport(m, tags[..|tags| - 1]).passengers, tags[|tags| - 1], other);
    }
  }

  lemma {:induction false} FirstWithTag(bags: seq<Bag>, tag: string, j: nat)
    requires j < |bags| && bags[j].tag == tag && forall k | 0 <= k < j :: bags[k].tag != tag
    ensures HasTag(bags, tag) && LoadFirst(bags, tag) == bags[j := bags[j].(loaded := true)]
    decreases j
  {
    var marked := bags[j].(loaded := true);
    if j == 0 {
      UpdateFirst(bags, marked);
    } else {
      FirstWithTag(bags[1..], tag, j - 1);
      UpdateLater(bags, j, marked);
    }
  }

  /** One passenger on. */
  lemma MarkStep(ps: seq<Passenger>, tag: string, i: nat)
    requires i < |ps| && MarkLoaded(ps, tag) == ps[..i] + MarkLoaded(ps[i..], tag)
    ensures MarkLoaded(ps, tag)
            == if HasTag(ps[i].bags, tag) then ps[i := ps[i].(bags := LoadFirst(ps[i].bags, tag))]
               else ps[..i + 1] + MarkLoaded(ps[i + 1..], tag)
  {
    hide LoadFirst, HasTag;
    var rest := ps[i..];
    assert rest[0] == ps[i] && rest[1..] == ps[i + 1..];
    if HasTag(ps[i].bags, tag) {
      var marked := ps[i].(bags := LoadFirst(ps[i].bags, tag));
      UpdateAmong(ps, i, marked);
    } else {
      TakeOneMore(ps, i, MarkLoaded(ps[i + 1..], tag));
    }
  }

  /** Target k sits in the compartment, the r-th of the party to do so. */
  predicate InGroupAt(ps: seq<Passenger>, targets: seq<nat>, comp: string, k: nat, r: nat)
    requires forall j | 0 <= j < |targets| :: targets[j] < |ps|
  {
    k < |targets| && ps[targets[k]].compartment == comp && GroupSize(ps, targets[..k], comp) == r
  }

  predicate IsGroup(ps: seq<Passenger>, targets: seq<nat>, comp: string, group: seq<nat>)
    requires forall j | 0 <= j < |targets| :: targets[j] < |ps|
  {
    && |group| == GroupSize(ps, targets, comp)
    && (forall r | 0 <= r < |group| :: InGroupAt(ps, targets, comp, group[r], r))
    && (forall j | 0 <= j < |targets| && ps[targets[j]].compartment == comp ::
          exists r | 0 <= r < |group| :: group[r] == j)
  }

  /** Target k's compartment seats its group, and the seat noted for k is its own. */
  predicate FoundFor(m: Manifest, targets: seq<nat>, found: map<nat, string>, k: nat)
    requires k < |targets| && forall j | 0 <= j < |targets| :: targets[j] < |m.passengers|
  {
    var seats := GroupSeats(m, targets, k);
    var rank := GroupSize(m.passengers, targets[..k], m.passengers[targets[k]].compartment);
    seats.Some? && k in found && rank < |seats.value| && found[k] == seats.value[rank]
  }
}
