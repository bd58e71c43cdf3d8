/** What each operation at the counter and the gate does to each passenger, told by
    their own fields and by the seats that are free. */
module DcsCounter {
  import opened Wrappers
  import opened Text
  import Decimal
  import opened DcsCabin
  import opened DcsSeating
  import opened DcsFlight
  import opened DcsRuns
  import opened DcsOperations

  // ---------------------------------------------------------------- whom a request names

  /** The request gives an ID, and it is this passenger's; or it gives a locator or a
      surname or both, and they are. */
  predicate NamedBy(p: Passenger, req: AcceptRequest) {
    if req.passengerID > 0 then p.id == req.passengerID
    else
      && (Normalise(req.locator) != "" || Normalise(req.surname) != "")
      && Normalise(req.locator) in {"", p.locator} && Normalise(req.surname) in {"", p.surname}
  }

  predicate CanAccept(p: Passenger) {
    p.status in {Listed, Standby}
  }

  predicate HoldsSeat(p: Passenger) {
    p.status in {Accepted, Boarded}
  }

  lemma {:induction false} FindIs(ps: seq<Passenger>, id: int, n: int, i: nat)
    requires IdsRise(ps, n)
    ensures Find(ps, id) == Some(i) <==> i < |ps| && ps[i].id == id
    ensures Find(ps, id).None? <==> forall k | 0 <= k < |ps| :: ps[k].id != id
    decreases |ps|
  {
    if ps != [] {
      FindIs(ps[..|ps| - 1], id, n, i);
      var found := Find(ps[..|ps| - 1], id);
      assert found.Some? ==> ps[found.value].id == id;
    }
  }

  lemma {:induction false} WaitingOfIs(ps: seq<Passenger>, locator: string, surname: string, i: nat)
    ensures i in WaitingOf(ps, locator, surname)
       <==> i < |ps| && CanAccept(ps[i]) && locator in {"", ps[i].locator} && surname in {"", ps[i].surname}
    decreases |ps|
  {
    if ps != [] {
      WaitingOfIs(ps[..|ps| - 1], locator, surname, i);
    }
  }

  /** The passengers resolved are, in list order, exactly those named who may be accepted;
      and where there are none the error says why: somebody named is accepted already, or
      the one passenger asked for by ID cannot be, or nobody is found. */
  lemma ResolvedIsNamed(ps: seq<Passenger>, req: AcceptRequest, nextID: int, i: nat)
    requires IdsRise(ps, nextID)
    ensures var r := Resolve(ps, req);
            && (r.Targets? ==> (i in r.targets <==> i < |ps| && NamedBy(ps[i], req) && CanAccept(ps[i])))
            && (r.Unresolved? ==> i < |ps| && NamedBy(ps[i], req) ==> !CanAccept(ps[i]))
            && (r.Unresolved? ==> (r.error == AlreadyAccepted <==> exists k | 0 <= k < |ps| :: NamedBy(ps[k], req) && HoldsSeat(ps[k])))
            && (r.Unresolved? ==> r.error in {AlreadyAccepted, PassengerNotFound} || r.error.NotAcceptable?)
            && (r.Unresolved? && r.error.NotAcceptable? ==> req.passengerID > 0 && r.error.status in {NoShow, Offloaded})
            && (r.Unresolved? && req.passengerID > 0 && i < |ps| && NamedBy(ps[i], req) && ps[i].status in {NoShow, Offloaded}
                ==> r.error == NotAcceptable(ps[i].status))
  {
    hide Resolve, NamedBy;
    if req.passengerID > 0 {
      assert forall p :: NamedBy(p, req) <==> p.id == req.passengerID by {
        NamedById(req);
      }
      ResolvedById(ps, req, nextID, i);
    } else {
      ResolvedByName(ps, req, i);
    }
  }

  lemma NamedById(req: AcceptRequest)
    requires req.passengerID > 0
    ensures forall p :: NamedBy(p, req) <==> p.id == req.passengerID
  {
  }

  lemma ResolvedByName(ps: seq<Passenger>, req: AcceptRequest, i: nat)
    requires req.passengerID <= 0
    ensures var r := Resolve(ps, req);
            && (r.Targets? ==> (i in r.targets <==> i < |ps| && NamedBy(ps[i], req) && CanAccept(ps[i])))
            && (r.Unresolved? ==> i < |ps| && NamedBy(ps[i], req) ==> !CanAccept(ps[i]))
            && (r.Unresolved? ==> (r.error == AlreadyAccepted <==> exists k | 0 <= k < |ps| :: NamedBy(ps[k], req) && HoldsSeat(ps[k])))
            && (r.Unresolved? ==> r.error in {AlreadyAccepted, PassengerNotFound})
  {
    hide Normalise, WaitingOf;
    var locator, surname := Normalise(req.locator), Normalise(req.surname);
    WaitingOfIs(ps, locator, surname, i);
    if locator != "" || surname != "" {
      NobodyWaiting(ps, locator, surname);
      if p :| p in ps && Matches(p, locator, surname) && Flying(p) {
        var k :| 0 <= k < |ps| && ps[k] == p;
        assert NamedBy(ps[k], req) && HoldsSeat(ps[k]);
      }
      if k :| 0 <= k < |ps| && NamedBy(ps[k], req) && HoldsSeat(ps[k]) {
        assert ps[k] in ps && Matches(ps[k], locator, surname) && Flying(ps[k]);
      }
    }
  }

  lemma ResolvedById(ps: seq<Passenger>, req: AcceptRequest, nextID: int, i: nat)
    requires IdsRise(ps, nextID) && req.passengerID > 0
    ensures var r := Resolve(ps, req);
            && (r.Targets? ==> (i in r.targets <==> i < |ps| && ps[i].id == req.passengerID && CanAccept(ps[i])))
            && (r.Unresolved? ==> i < |ps| && ps[i].id == req.passengerID ==> !CanAccept(ps[i]))
            && (r.Unresolved? ==> (r.error == AlreadyAccepted
                                   <==> exists k | 0 <= k < |ps| :: ps[k].id == req.passengerID && HoldsSeat(ps[k])))
            && (r.Unresolved? ==> r.error in {AlreadyAccepted, PassengerNotFound} || r.error.NotAcceptable?)
            && (r.Unresolved? && r.error.NotAcceptable? ==> r.error.status in {NoShow, Offloaded})
            && (r.Unresolved? && i < |ps| && ps[i].id == req.passengerID && ps[i].status in {NoShow, Offloaded}
                ==> r.error == NotAcceptable(ps[i].status))
  {
    FindIs(ps, req.passengerID, nextID, i);
    var found := Find(ps, req.passengerID);
    if found.Some? {
      FindIs(ps, req.passengerID, nextID, found.value);
      assert forall k | 0 <= k < |ps| && ps[k].id == req.passengerID :: k == found.value;
    }
  }

  lemma NobodyWaiting(ps: seq<Passenger>, locator: string, surname: string)
    ensures WaitingOf(ps, locator, surname) == []
       <==> forall k | 0 <= k < |ps| && locator in {"", ps[k].locator} && surname in {"", ps[k].surname} :: !CanAccept(ps[k])
  {
    var waiting := WaitingOf(ps, locator, surname);
    forall k: nat ensures k in waiting <==>
      k < |ps| && CanAccept(ps[k]) && locator in {"", ps[k].locator} && surname in {"", ps[k].surname}
    {
      WaitingOfIs(ps, locator, surname, k);
    }
    if waiting != [] {
      assert waiting[0] in waiting;
    }
  }

  // ---------------------------------------------------------------- acceptance

  /** How many of the targets sit in the compartment. */
  ghost function InCabin(ps: seq<Passenger>, targets: seq<nat>, comp: string): set<nat> {
    set k: nat | k < |targets| && targets[k] < |ps| && ps[targets[k]].compartment == comp
  }

  lemma {:induction false} GroupSizeIs(ps: seq<Passenger>, targets: seq<nat>, comp: string)
    requires forall k | 0 <= k < |targets| :: targets[k] < |ps|
    ensures GroupSize(ps, targets, comp) == |InCabin(ps, targets, comp)|
    decreases |targets|
  {
    if targets != [] {
      var n := |targets| - 1;
      GroupSizeIs(ps, targets[..n], comp);
      assert InCabin(ps, targets, comp)
          == InCabin(ps, targets[..n], comp) + (if ps[targets[n]].compartment == comp then {n} else {});
    }
  }

  /** Accepted into a free seat of the cabin sat in, with a sequence number and more bags. */
  predicate TookSeat(m: Manifest, p: Passenger, q: Passenger, sequence: int, bags: seq<Bag>) {
    && q == p.(status := Accepted, seat := q.seat, compartment := q.compartment, sequence := sequence, bags := p.bags + bags)
    && q.seat !in m.occupied && SeatCompartment(m.layout, q.seat) == Some(q.compartment)
  }

  /** The party is accepted in list order, the bags on its first member; it sits in its
      own cabins, or where the one seat asked for is; everyone else is as before. */
  ghost predicate Seats(m: Manifest, next: Manifest, targets: seq<nat>, seat: string, bags: seq<Bag>) {
    && |next.passengers| == |m.passengers|
    && (forall k | 0 <= k < |targets| && targets[k] < |m.passengers| ::
          var p, q := m.passengers[targets[k]], next.passengers[targets[k]];
          && TookSeat(m, p, q, m.nextSeq + k, if k == 0 then bags else [])
          && if seat == "" then q.compartment == p.compartment else q.seat == Normalise(seat))
    && (forall i | 0 <= i < |m.passengers| && i !in targets :: next.passengers[i] == m.passengers[i])
    && next == m.(passengers := next.passengers, occupied := next.occupied, nextSeq := m.nextSeq + |targets|)
  }

  lemma {:induction false} TakeAllTouches(m: Manifest, targets: seq<nat>, seats: seq<string>)
    requires |seats| == |targets| && forall j | 0 <= j < |targets| :: targets[j] < |m.passengers|
    ensures var next := TakeAll(m, targets, seats).0;
            next == m.(passengers := next.passengers, occupied := next.occupied, nextSeq := next.nextSeq)
    decreases |targets|
  {
    hide TakeError;
    if targets != [] && TakeError(m.layout, m.occupied, seats[0], m.passengers[targets[0]].id).None? {
      TakeAllTouches(Seated(m, targets[0], seats[0]), targets[1..], seats[1..]);
    }
  }

  lemma SeatsTagged(m: Manifest, base: Manifest, targets: seq<nat>, seats: seq<string>, seat: string, bags: seq<Bag>)
    requires Sound(base) && targets != [] && |seats| == |targets| && Seatless(base, targets) && Takeable(base, seats)
    requires SameButTargets(m, base, targets)
    requires forall k | 0 <= k < |targets| :: SeatCompartment(m.layout, seats[k]) == Some(base.passengers[targets[k]].compartment)
    requires seat == "" ==> base == m
    requires seat != "" ==> seats == [Normalise(seat)]
    ensures Seats(m, Tagged(TakeAll(base, targets, seats), targets[0], bags).0, targets, seat, bags)
  {
    hide Sound, SeatCompartment, TakeAll, Normalise, PartySeated, Seats;
    TakeAllSeats(base, targets, seats);
    TakeAllTouches(base, targets, seats);
    TaggedSits(m, base, TakeAll(base, targets, seats).0, targets, seats, seat, bags);
  }

  lemma TaggedSits(m: Manifest, base: Manifest, seated: Manifest, targets: seq<nat>, seats: seq<string>, seat: string, bags: seq<Bag>)
    requires targets != [] && |seats| == |targets| && Seatless(base, targets) && Takeable(base, seats)
    requires SameButTargets(m, base, targets) && PartySeated(base, seated, targets, seats)
    requires seated == base.(passengers := seated.passengers, occupied := seated.occupied, nextSeq := seated.nextSeq)
    requires forall k | 0 <= k < |targets| :: SeatCompartment(m.layout, seats[k]) == Some(base.passengers[targets[k]].compartment)
    requires seat == "" ==> base == m
    requires seat != "" ==> seats == [Normalise(seat)]
    ensures Seats(m, WithBags(seated, targets[0], bags), targets, seat, bags)
  {
    hide SeatCompartment, Normalise, TookSeat, Takeable, WithBags, Flying;
    TagsTouch(seated, targets[0], bags);
    var next := WithBags(seated, targets[0], bags);
    assert targets[0] in targets;
    forall k | 0 <= k < |targets|
      ensures targets[k] < |m.passengers|
      ensures TookSeat(m, m.passengers[targets[k]], next.passengers[targets[k]], m.nextSeq + k, if k == 0 then bags else [])
      ensures var q := next.passengers[targets[k]];
              q.seat == seats[k] && q.compartment == base.passengers[targets[k]].compartment
    {
      TargetSits(m, base, seated, targets, seats, bags, k);
    }
    forall i | 0 <= i < |m.passengers| && i !in targets ensures next.passengers[i] == m.passengers[i] {
      OthersStay(seated, targets[0], bags, i);
    }
  }

  lemma OthersStay(m: Manifest, lead: nat, bags: seq<Bag>, i: nat)
    requires lead < |m.passengers| && i < |m.passengers| && i != lead
    ensures WithBags(m, lead, bags).passengers[i] == m.passengers[i]
  {
  }

  lemma TagsTouch(m: Manifest, lead: nat, bags: seq<Bag>)
    requires lead < |m.passengers|
    ensures var next := WithBags(m, lead, bags);
            |next.passengers| == |m.passengers| && next == m.(passengers := next.passengers)
  {
  }

  lemma TargetSits(m: Manifest, base: Manifest, seated: Manifest, targets: seq<nat>, seats: seq<string>, bags: seq<Bag>, k: nat)
    requires k < |targets| == |seats| && Seatless(base, targets) && Takeable(base, seats)
    requires SameButTargets(m, base, targets) && PartySeated(base, seated, targets, seats)
    requires SeatCompartment(m.layout, seats[k]) == Some(base.passengers[targets[k]].compartment)
    ensures targets[k] < |m.passengers| == |seated.passengers|
    ensures var q := WithBags(seated, targets[0], bags).passengers[targets[k]];
            && TookSeat(m, m.passengers[targets[k]], q, m.nextSeq + k, if k == 0 then bags else [])
            && q.seat == seats[k] && q.compartment == base.passengers[targets[k]].compartment
  {
    hide SeatCompartment, TookSeat, Flying;
    assert k > 0 ==> targets[0] < targets[k];
    SeatTaken(m, m.passengers[targets[k]], base.passengers[targets[k]], seats[k], m.nextSeq + k, if k == 0 then bags else []);
    assert seated.passengers[targets[k]] == base.passengers[targets[k]].(seat := seats[k], status := Accepted, sequence := m.nextSeq + k);
    NoMoreBags(seated.passengers[targets[k]]);
  }

  lemma NoMoreBags(p: Passenger)
    ensures p.(bags := p.bags + []) == p
  {
  }

  lemma SeatTaken(m: Manifest, p: Passenger, b: Passenger, seat: string, sequence: int, bags: seq<Bag>)
    requires b == p.(compartment := b.compartment) && seat !in m.occupied && SeatCompartment(m.layout, seat) == Some(b.compartment)
    ensures TookSeat(m, p, b.(seat := seat, status := Accepted, sequence := sequence, bags := b.bags + bags), sequence, bags)
  {
  }

  predicate SeatFree(m: Manifest, seat: string) {
    SeatCompartment(m.layout, Normalise(seat)).Some? && Normalise(seat) !in m.occupied
  }

  /** Every cabin the party sits in has a free seat for each of those. */
  ghost predicate RoomForAll(m: Manifest, targets: seq<nat>)
    requires forall k | 0 <= k < |targets| :: targets[k] < |m.passengers|
  {
    forall k | 0 <= k < |targets| ::
      var comp := m.passengers[targets[k]].compartment;
      FreeCount(m.layout, m.occupied, comp) >= |InCabin(m.passengers, targets, comp)|
  }

  lemma RoomIsSeatable(m: Manifest, targets: seq<nat>)
    requires WellFormed(m.layout) && InCompartments(m.passengers) && forall k | 0 <= k < |targets| :: targets[k] < |m.passengers|
    ensures AllSeatable(m, targets) <==> RoomForAll(m, targets)
  {
    hide WellFormed, FreeCount, Assigned, GroupSize, InCabin;
    forall k | 0 <= k < |targets|
      ensures var comp := m.passengers[targets[k]].compartment;
              GroupSeats(m, targets, k).Some?
              <==> FreeCount(m.layout, m.occupied, comp) >= |InCabin(m.passengers, targets, comp)|
    {
      var comp := m.passengers[targets[k]].compartment;
      GroupGrows(m.passengers, targets, k);
      GroupSizeIs(m.passengers, targets, comp);
      AssignIsRight(m.layout, m.occupied, comp, GroupSize(m.passengers, targets, comp));
    }
  }

  /** Seating a party is done exactly when its seats can be had, and then it sits as
      said; otherwise nothing changes and the error says which seat could not be had. */
  lemma AcceptTargetsMeans(m: Manifest, targets: seq<nat>, seat: string, bags: seq<Bag>)
    requires Sound(m) && WellFormed(m.layout) && targets != [] && Seatless(m, targets) && NamesOneSeat(targets, seat)
    ensures var r := AcceptTargets(m, targets, seat, bags);
            && (r.1 == Done <==> if seat == "" then RoomForAll(m, targets) else SeatFree(m, seat))
            && (r.1 == Done ==> Sound(r.0) && Seats(m, r.0, targets, seat, bags))
            && (r.1 != Done ==> r.0 == m)
            && (r.1 != Done ==>
                  r.1 == Refused(if seat == "" then NoSeat
                                 else if SeatCompartment(m.layout, Normalise(seat)).None? then SeatUnknown else SeatIsTaken))
  {
    hide Sound, WellFormed, SeatCompartment, Normalise, AllSeatable, PartySeats, TakeAll, PartyAccepted, RoomForAll, Takeable, Seats;
    AcceptTargetsRight(m, targets, seat, bags);
    AreInCompartments(m);
    if seat == "" {
      RoomIsSeatable(m, targets);
      if AllSeatable(m, targets) {
        PartySeatsTakeable(m, targets);
        PartySeatsPlaced(m, targets);
        SeatsTagged(m, m, targets, PartySeats(m, targets), seat, bags);
      }
    } else if SeatFree(m, seat) {
      NamedSeatTaken(m, targets, seat, bags);
    }
  }

  lemma PartySeatsPlaced(m: Manifest, targets: seq<nat>)
    requires WellFormed(m.layout) && InCompartments(m.passengers)
    requires (forall j | 0 <= j < |targets| :: targets[j] < |m.passengers|) && AllSeatable(m, targets)
    ensures forall k | 0 <= k < |targets| ::
              SeatCompartment(m.layout, PartySeats(m, targets)[k]) == Some(m.passengers[targets[k]].compartment)
  {
    hide WellFormed, SeatCompartment, AllSeatable, SeatOfTarget;
    forall k | 0 <= k < |targets|
      ensures SeatCompartment(m.layout, PartySeats(m, targets)[k]) == Some(m.passengers[targets[k]].compartment)
    {
      TargetSeat(m, targets, k);
    }
  }

  lemma NamedSeatTaken(m: Manifest, targets: seq<nat>, seat: string, bags: seq<Bag>)
    requires Sound(m) && WellFormed(m.layout) && |targets| == 1 && Seatless(m, targets) && seat != "" && SeatFree(m, seat)
    ensures AcceptTargets(m, targets, seat, bags).1 == Done
    ensures Seats(m, AcceptTargets(m, targets, seat, bags).0, targets, seat, bags)
  {
    hide Sound, WellFormed, SeatCompartment, Normalise, TakeAll, Seats;
    var comp := SeatCompartment(m.layout, Normalise(seat)).value;
    SeatCompartmentKnown(m.layout, Normalise(seat));
    NamedSeat(m, targets, seat, comp, bags);
    MovedKeeps(m, targets[0], comp);
    var moved := m.(passengers := m.passengers[targets[0] := m.passengers[targets[0]].(compartment := comp)]);
    SeatsTagged(m, moved, targets, [Normalise(seat)], seat, bags);
  }

  predicate Admitting(m: Manifest, req: AcceptRequest) {
    m.stage == Open || (m.stage == CheckInClosed && req.force)
  }

  /** Check-in, exactly: closed flights take nobody, closed check-in only by force; the
      request must name somebody who may be accepted, and one somebody for a seat of its
      own; and the seats must be there. Each refusal says which of these failed. */
  lemma AcceptedExactly(m: Manifest, req: AcceptRequest)
    requires Sound(m) && WellFormed(m.layout)
    ensures var r, found := AfterAccept(m, req), Resolve(m.passengers, req);
            && (r.1 == Done <==>
                  && Admitting(m, req) && found.Targets?
                  && if req.seat == "" then RoomForAll(m, found.targets) else |found.targets| == 1 && SeatFree(m, req.seat))
            && (r.1 == Done ==> Sound(r.0) && Seats(m, r.0, found.targets, req.seat, req.bags))
            && (r.1 != Done ==> r.0 == m)
            && (m.stage == Closed ==> r.1 == Refused(FlightClosed))
            && (m.stage == CheckInClosed && !req.force ==> r.1 == Refused(CheckInHasClosed))
            && (Admitting(m, req) && found.Unresolved? ==> r.1 == Refused(found.error))
            && (Admitting(m, req) && found.Targets? && req.seat != "" && |found.targets| > 1 ==> r.1 == Refused(OneSeatOneName))
  {
    hide Sound, WellFormed, AcceptTargets, RoomForAll, Seats, SeatFree;
    var found := Resolve(m.passengers, req);
    if found.Targets? && NamesOneSeat(found.targets, req.seat) {
      AcceptTargetsMeans(m, found.targets, req.seat, req.bags);
    }
  }

  // ---------------------------------------------------------------- together

  /** All the seats of a party in one cabin are in one aisle block whenever some block of
      that cabin has a seat for each of them. */
  lemma PartySitsTogether(m: Manifest, targets: seq<nat>, comp: string)
    requires WellFormed(m.layout) && InCompartments(m.passengers)
    requires (forall j | 0 <= j < |targets| :: targets[j] < |m.passengers|) && AllSeatable(m, targets)
    requires HasRoom(Blocks(m.layout, comp), m.occupied, |InCabin(m.passengers, targets, comp)|)
    ensures exists b :: b in Blocks(m.layout, comp) && forall k | 0 <= k < |targets| && m.passengers[targets[k]].compartment == comp ::
              PartySeats(m, targets)[k] in b
  {
    hide WellFormed, Blocks, Assigned, GroupSize, InCabin, HasRoom, FreeCount;
    GroupSizeIs(m.passengers, targets, comp);
    var n := GroupSize(m.passengers, targets, comp);
    if k :| 0 <= k < |targets| && m.passengers[targets[k]].compartment == comp {
      GroupGrows(m.passengers, targets, k);
      AssignIsRight(m.layout, m.occupied, comp, n);
      var seats := Assigned(m.layout, m.occupied, comp, n).value;
      var b :| b in Blocks(m.layout, comp) && forall s | s in seats :: s in b;
      forall j | 0 <= j < |targets| && m.passengers[targets[j]].compartment == comp ensures PartySeats(m, targets)[j] in b {
        GroupGrows(m.passengers, targets, j);
        assert SeatOfTarget(m, targets, j) in seats;
      }
    } else {
      SomeBlock(Blocks(m.layout, comp), m.occupied, |InCabin(m.passengers, targets, comp)|);
    }
  }

  lemma SomeBlock(blocks: seq<seq<string>>, occ: Occupancy, n: nat)
    requires HasRoom(blocks, occ, n)
    ensures exists b :: b in blocks
  {
  }

  /** The word stands at a place, and an aisle or the side is on either hand. */
  predicate RunAt(letters: string, word: string, i: nat) {
    && i + |word| <= |letters| && letters[i..i + |word|] == word
    && (i > 0 ==> letters[i - 1] == ' ') && (i + |word| < |letters| ==> letters[i + |word|] == ' ')
  }

  lemma RunLater(before: string, letters: string, word: string, i: nat)
    requires RunAt(letters, word, i) && word != "" && ' ' !in word
    requires before != "" && letters != "" && (before == " " || letters[0] == ' ')
    ensures RunAt(before + letters, word, |before| + i)
  {
    var all, k := before + letters, |before| + i;
    assert all[k..k + |word|] == letters[i..i + |word|];
    assert word[0] == letters[i];
  }

  lemma FirstWordRuns(letters: string)
    requires letters != "" && letters[0] != ' '
    ensures var word := letters[..WordEnd(letters)]; word != "" && ' ' !in word && RunAt(letters, word, 0)
  {
  }

  lemma RunGoesOn(letters: string, n: nat, word: string, i: nat)
    requires 0 < n < |letters| && ((n == 1 && letters[0] == ' ') || letters[n] == ' ')
    requires RunAt(letters[n..], word, i) && word != "" && ' ' !in word
    ensures RunAt(letters, word, n + i)
  {
    assert n == 1 && letters[0] == ' ' ==> letters[..n] == " ";
    RunLater(letters[..n], letters[n..], word, i);
    assert letters[..n] + letters[n..] == letters;
  }

  /** The letters of an aisle block run from an aisle or the side to the next without a
      break. */
  lemma {:induction false} FieldsAreRuns(letters: string, word: string) returns (i: nat)
    requires word in Fields(letters)
    ensures word != "" && ' ' !in word && RunAt(letters, word, i)
    decreases |letters|
  {
    hide RunAt;
    var n := if letters[0] == ' ' then 1 else WordEnd(letters);
    if letters[0] != ' ' && word == letters[..n] {
      FirstWordRuns(letters);
      i := 0;
    } else {
      i := FieldsAreRuns(letters[n..], word);
      RunGoesOn(letters, n, word, i);
      i := n + i;
    }
  }

  // ---------------------------------------------------------------- go-shows

  /** Those on the list for the cabin who have yet to come to the counter. */
  ghost function ListedFor(ps: seq<Passenger>, comp: string): set<nat> {
    set i: nat | i < |ps| && ps[i].status == Listed && ps[i].compartment == comp
  }

  lemma {:induction false} OwedIs(ps: seq<Passenger>, comp: string)
    ensures Owed(ps, comp) == |ListedFor(ps, comp)|
    decreases |ps|
  {
    if ps != [] {
      var n := |ps| - 1;
      OwedIs(ps[..n], comp);
      assert ListedFor(ps, comp)
          == ListedFor(ps[..n], comp) + (if ps[n].status == Listed && ps[n].compartment == comp then {n} else {});
    }
  }

  /** The newcomer as written down: the next ID, names in capitals, class Y unless one is
      given, and a category that says why, unless one is given. */
  predicate IsNewcomer(m: Manifest, g: GoShow, p: Passenger) {
    && p.id == m.nextID && p.surname == Upper(g.surname) && p.given == Upper(g.given) && p.locator == Upper(g.locator)
    && p.class_ == (if g.class_ == "" then "Y" else g.class_)
    && p.category == (if g.category != Ordinary then g.category else if g.locator != "" then GoShowCategory else NoRec)
    && !p.deletedAfterAcceptance
  }

  /** A go-show must wait when asked to, as staff always do, and unless the free seats of
      its cabin outnumber the passengers on the list for that cabin. */
  ghost predicate GoShowWaits(m: Manifest, g: GoShow, comp: string) {
    || g.standby || g.category == IdPad
    || FreeCount(m.layout, m.occupied, comp) <= |ListedFor(m.passengers, comp)|
  }

  lemma NewcomerOwedNothing(m: Manifest, p: Passenger, comp: string)
    requires p.status == Standby
    ensures Owed(Enlisted(m, p).passengers, comp) == |ListedFor(m.passengers, comp)|
  {
    OwedIs(m.passengers, comp);
    assert (m.passengers + [p])[..|m.passengers|] == m.passengers;
  }

  lemma MustWaitIs(m: Manifest, g: GoShow, p: Passenger)
    requires p.status == Standby
    ensures MustWait(Enlisted(m, p), g, p.compartment) <==> GoShowWaits(m, g, p.compartment)
  {
    hide FreeCount, Owed;
    NewcomerOwedNothing(m, p, p.compartment);
  }

  /** A newcomer goes behind everyone on the list. One who must wait waits, whatever seat
      was asked for; one who need not is accepted, with the bags; and one whose own seat
      cannot be had is turned away and leaves no trace but the ID. */
  ghost predicate Serves(m: Manifest, g: GoShow, next: Manifest, outcome: Outcome) {
    var n, comp := |m.passengers|, CompartmentFor(m.layout, if g.class_ == "" then "Y" else g.class_);
    var waits, seated := GoShowWaits(m, g, comp), g.seat == "" || SeatFree(m, g.seat);
    && next.nextID == m.nextID + 1 && next.stage == m.stage
    && (outcome == Done <==> waits || seated)
    && (outcome == Done ==> |next.passengers| == n + 1 && next.passengers[..n] == m.passengers && IsNewcomer(m, g, next.passengers[n]))
    && (waits ==>
          && |next.passengers| > n
          && var p := next.passengers[n];
          p.status == Standby && p.compartment == comp && p.seat == "" && p.bags == [] && next.occupied == m.occupied)
    && (!waits && seated ==>
          && |next.passengers| > n
          && var p := next.passengers[n];
          && p.status == Accepted && p.bags == g.bags && p.sequence == m.nextSeq
          && p.seat !in m.occupied && SeatCompartment(m.layout, p.seat) == Some(p.compartment)
          && if g.seat == "" then p.compartment == comp else p.seat == Normalise(g.seat))
    && (!waits && !seated ==>
          next == m.(nextID := m.nextID + 1)
          && outcome == Refused(if SeatCompartment(m.layout, Normalise(g.seat)).None? then SeatUnknown else SeatIsTaken))
  }

  /** Go-shows are served while check-in is open and a surname is given, as said; never
      later, not even by force. */
  lemma GoShowServed(m: Manifest, g: GoShow)
    requires Sound(m) && WellFormed(m.layout)
    ensures var r := AfterGoShow(m, g);
            if m.stage == Open && g.surname != "" then Serves(m, g, r.0, r.1)
            else r == (m, Refused(if m.stage == Closed then FlightClosed
                                  else if m.stage == CheckInClosed then CheckInHasClosed else NoSurname))
  {
    if m.stage == Open && g.surname != "" {
      OpenGoShowServed(m, g);
    }
  }

  lemma OpenGoShowServed(m: Manifest, g: GoShow)
    requires Sound(m) && WellFormed(m.layout) && m.stage == Open && g.surname != ""
    ensures Serves(m, g, AfterGoShow(m, g).0, AfterGoShow(m, g).1)
  {
    hide Sound, WellFormed, SeatCompartment, AcceptTargets, FreeCount, MustWait, GoShowWaits, RoomForAll, Normalise, CompartmentFor;
    var p, n := Newcomer(m, g), |m.passengers|;
    var with := Enlisted(m, p);
    assert with.passengers[..n] == m.passengers;
    CompartmentNamed(m.layout, p.class_);
    EnlistedKeeps(m, p);
    MustWaitIs(m, g, p);
    if !GoShowWaits(m, g, p.compartment) {
      AcceptTargetsMeans(with, [n], g.seat, g.bags);
      RoomForOne(m, g, p);
      assert n in [n];
      var next := AcceptTargets(with, [n], g.seat, g.bags).0;
      if AcceptTargets(with, [n], g.seat, g.bags).1 == Done {
        assert next.passengers[[n][0]].bags == [] + g.bags;
        assert next.passengers[..n] == with.passengers[..n];
      }
    }
  }

  lemma RoomForOne(m: Manifest, g: GoShow, p: Passenger)
    requires !GoShowWaits(m, g, p.compartment)
    ensures RoomForAll(Enlisted(m, p), [|m.passengers|])
  {
    hide FreeCount;
    assert InCabin(Enlisted(m, p).passengers, [|m.passengers|], p.compartment) == {0};
  }
}
