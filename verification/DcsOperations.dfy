/** Every operation on a departure keeps it sound, so every run does; a party is accepted
    whole or not at all. */
module DcsOperations {
  import opened Wrappers
  import opened Text
  import opened DcsCabin
  import opened DcsSeating
  import opened DcsFlight
  import opened DcsRuns

  // ---------------------------------------------------------------- acceptance

  lemma BagsKeep(m: Manifest, i: nat, bags: seq<Bag>)
    requires Sound(m) && i < |m.passengers|
    ensures Sound(WithBags(m, i, bags))
  {
    StandingKeeps(m, WithBags(m, i, bags));
  }

  /** A passenger moved to another cabin. */
  lemma MovedKeeps(m: Manifest, i: nat, comp: string)
    requires Sound(m) && i < |m.passengers| && comp != ""
    ensures Sound(m.(passengers := m.passengers[i := m.passengers[i].(compartment := comp)]))
  {
    StandingKeeps(m, m.(passengers := m.passengers[i := m.passengers[i].(compartment := comp)]));
  }

  lemma {:induction false} CompartmentKnown(layout: Layout, row: int, letter: char)
    requires WellFormed(layout)
    ensures CompartmentAt(layout, row, letter) != Some("")
    decreases |layout|
  {
    if layout != [] {
      WellFormedTail(layout);
      CompartmentKnown(layout[1..], row, letter);
    }
  }

  lemma SeatCompartmentKnown(layout: Layout, seat: string)
    requires WellFormed(layout)
    ensures SeatCompartment(layout, seat) != Some("")
  {
    var at := SplitSeat(seat);
    if at.Some? {
      CompartmentKnown(layout, at.value.0, at.value.1);
    }
  }

  /** Accepted: everyone asked for holds a seat and the next sequence numbers in order,
      and nobody else is touched. */
  ghost predicate PartyAccepted(m: Manifest, next: Manifest, targets: seq<nat>) {
    && |next.passengers| == |m.passengers| && next.nextSeq == m.nextSeq + |targets|
    && (forall k | 0 <= k < |targets| && targets[k] < |m.passengers| ::
          var p, q := m.passengers[targets[k]], next.passengers[targets[k]];
          q.status == Accepted && q.sequence == m.nextSeq + k && q.id == p.id && q.category == p.category)
    && (forall i | 0 <= i < |m.passengers| && i !in targets :: next.passengers[i] == m.passengers[i])
    && next.layout == m.layout && next.stage == m.stage && next.nextID == m.nextID
    && m.occupied.Keys <= next.occupied.Keys && |next.occupied| == |m.occupied| + |targets|
  }

  lemma {:induction false} TakeAllCounts(m: Manifest, targets: seq<nat>, seats: seq<string>)
    requires Sound(m) && |seats| == |targets| && Seatless(m, targets) && Takeable(m, seats)
    ensures |TakeAll(m, targets, seats).0.occupied| == |m.occupied| + |targets|
    decreases |targets|
  {
    hide Sound, SeatCompartment;
    if targets != [] {
      var next := Seated(m, targets[0], seats[0]);
      SeatedKeeps(m, targets[0], seats[0]);
      RestTakeable(m, targets, seats);
      TakeAllCounts(next, targets[1..], seats[1..]);
      assert TakeError(m.layout, m.occupied, seats[0], m.passengers[targets[0]].id).None?;
      assert next.occupied.Keys == m.occupied.Keys + {seats[0]};
    }
  }

  /** Apart from the cabin a target sits in, the same. */
  ghost predicate SameButTargets(m: Manifest, base: Manifest, targets: seq<nat>) {
    && |base.passengers| == |m.passengers| && base == m.(passengers := base.passengers)
    && (forall i | 0 <= i < |m.passengers| ::
          base.passengers[i] == m.passengers[i].(compartment := base.passengers[i].compartment))
    && (forall i | 0 <= i < |m.passengers| && i !in targets :: base.passengers[i] == m.passengers[i])
  }

  /** What seating the party and tagging its bags comes to. */
  lemma SeatedAndTagged(m: Manifest, base: Manifest, targets: seq<nat>, seats: seq<string>, bags: seq<Bag>)
    requires Sound(base) && targets != [] && |seats| == |targets| && Seatless(base, targets) && Takeable(base, seats)
    requires SameButTargets(m, base, targets)
    ensures var r := Tagged(TakeAll(base, targets, seats), targets[0], bags);
            r.1 == Done && Sound(r.0) && PartyAccepted(m, r.0, targets)
  {
    hide Sound, Takeable, TakeAll;
    TakeAllSeats(base, targets, seats);
    TakeAllCounts(base, targets, seats);
    var seated := TakeAll(base, targets, seats).0;
    BagsKeep(seated, targets[0], bags);
    TaggedAccepted(m, base, seated, targets, seats, bags);
  }

  lemma TaggedAccepted(m: Manifest, base: Manifest, seated: Manifest, targets: seq<nat>, seats: seq<string>, bags: seq<Bag>)
    requires targets != [] && |seats| == |targets| && Seatless(base, targets) && SameButTargets(m, base, targets)
    requires PartySeated(base, seated, targets, seats) && |seated.occupied| == |base.occupied| + |targets|
    ensures PartyAccepted(m, WithBags(seated, targets[0], bags), targets)
  {
    assert targets[0] in targets;
    var next := WithBags(seated, targets[0], bags);
    forall k | 0 <= k < |targets|
      ensures var p, q := m.passengers[targets[k]], next.passengers[targets[k]];
              q.status == Accepted && q.sequence == m.nextSeq + k && q.id == p.id && q.category == p.category
    {
      assert k > 0 ==> targets[0] < targets[k];
    }
  }

  predicate NamesOneSeat(targets: seq<nat>, seat: string) {
    seat != "" ==> |targets| == 1
  }

  /** Accepting never fails half way. */
  lemma AcceptTargetsRight(m: Manifest, targets: seq<nat>, seat: string, bags: seq<Bag>)
    requires Sound(m) && WellFormed(m.layout) && targets != [] && Seatless(m, targets) && NamesOneSeat(targets, seat)
    ensures var r := AcceptTargets(m, targets, seat, bags);
            && (r.1 == Done ==> Sound(r.0) && PartyAccepted(m, r.0, targets))
            && (r.1 != Done ==> r.1.Refused? && r.0 == m)
            && (seat == "" ==> if AllSeatable(m, targets) then r.1 == Done else r.1 == Refused(NoSeat))
            && (seat != "" ==> r.1 != Refused(NoSeat))
  {
    hide Sound, WellFormed, SeatCompartment, Takeable, Normalise, AllSeatable, PartySeats, TakeAll, PartyAccepted;
    if seat != "" {
      var comp := SeatCompartment(m.layout, Normalise(seat));
      if comp.Some? && Normalise(seat) !in m.occupied {
        NamedSeat(m, targets, seat, comp.value, bags);
      }
    } else if AllSeatable(m, targets) {
      AreInCompartments(m);
      PartySeatsTakeable(m, targets);
      SeatedAndTagged(m, m, targets, PartySeats(m, targets), bags);
    }
  }

  lemma AreInCompartments(m: Manifest)
    requires Sound(m)
    ensures InCompartments(m.passengers)
  {
  }

  lemma NamedSeat(m: Manifest, targets: seq<nat>, seat: string, comp: string, bags: seq<Bag>)
    requires Sound(m) && WellFormed(m.layout) && |targets| == 1 && Seatless(m, targets)
    requires SeatCompartment(m.layout, Normalise(seat)) == Some(comp) && Normalise(seat) !in m.occupied
    ensures var moved := m.(passengers := m.passengers[targets[0] := m.passengers[targets[0]].(compartment := comp)]);
            var r := Tagged(TakeAll(moved, targets, [Normalise(seat)]), targets[0], bags);
            r.1 == Done && Sound(r.0) && PartyAccepted(m, r.0, targets)
  {
    hide Sound, WellFormed, SeatCompartment, Normalise, TakeAll, PartyAccepted;
    SeatCompartmentKnown(m.layout, Normalise(seat));
    MovedKeeps(m, targets[0], comp);
    var moved := m.(passengers := m.passengers[targets[0] := m.passengers[targets[0]].(compartment := comp)]);
    SeatedAndTagged(m, moved, targets, [Normalise(seat)], bags);
  }

  /** A party is accepted whole or nothing changes. */
  lemma AcceptIsAllOrNothing(m: Manifest, req: AcceptRequest)
    requires Sound(m) && WellFormed(m.layout)
    ensures var r := AfterAccept(m, req);
            && (r.1 == Done ==> Sound(r.0) && PartyAccepted(m, r.0, Resolve(m.passengers, req).targets))
            && (r.1 != Done ==> r.1.Refused? && r.0 == m)
  {
    hide Sound, WellFormed, AcceptTargets, PartyAccepted;
    var resolved := Resolve(m.passengers, req);
    if resolved.Targets? && NamesOneSeat(resolved.targets, req.seat) {
      AcceptTargetsRight(m, resolved.targets, req.seat, req.bags);
    }
  }

  /** Without a requested seat, a party is accepted exactly when every compartment some
      of it sits in has a free seat for each of those. */
  lemma SeatsDecideAcceptance(m: Manifest, req: AcceptRequest)
    requires Sound(m) && WellFormed(m.layout) && m.stage == Open && req.seat == "" && Resolve(m.passengers, req).Targets?
    ensures var ts := Resolve(m.passengers, req).targets;
            AfterAccept(m, req).1 == Done
            <==> forall k | 0 <= k < |ts| ::
                   var comp := m.passengers[ts[k]].compartment;
                   FreeCount(m.layout, m.occupied, comp) >= GroupSize(m.passengers, ts, comp)
  {
    hide Sound, WellFormed, AcceptTargets, PartyAccepted, Resolve, FreeCount, Assigned, GroupSize;
    var ts := Resolve(m.passengers, req).targets;
    AcceptTargetsRight(m, ts, "", req.bags);
    AreInCompartments(m);
    forall k | 0 <= k < |ts|
      ensures GroupSeats(m, ts, k).Some?
              <==> FreeCount(m.layout, m.occupied, m.passengers[ts[k]].compartment)
                   >= GroupSize(m.passengers, ts, m.passengers[ts[k]].compartment)
    {
      GroupGrows(m.passengers, ts, k);
      var comp := m.passengers[ts[k]].compartment;
      AssignIsRight(m.layout, m.occupied, comp, GroupSize(m.passengers, ts, comp));
    }
  }

  // ---------------------------------------------------------------- go-shows

  /** With a seat to spare one can be found for one passenger. */
  lemma SpareIsSeatable(m: Manifest, i: nat)
    requires WellFormed(m.layout) && InCompartments(m.passengers) && i < |m.passengers|
    ensures AllSeatable(m, [i]) <==> FreeCount(m.layout, m.occupied, m.passengers[i].compartment) >= 1
  {
    hide WellFormed, FreeCount, Assigned;
    var comp := m.passengers[i].compartment;
    OneTarget(m.passengers, i);
    AssignIsRight(m.layout, m.occupied, comp, 1);
    assert AllSeatable(m, [i]) <==> GroupSeats(m, [i], 0).Some?;
  }

  lemma OneTarget(ps: seq<Passenger>, i: nat)
    requires i < |ps|
    ensures GroupSize(ps, [i], ps[i].compartment) == 1
  {
    assert [i][..0] == [];
    assert GroupSize(ps, [i][..0], ps[i].compartment) == 0;
  }

  /** A go-show is never turned away for want of a seat, which is just as well: the
      operation would stop on an acceptance that is not there. Without a named seat it
      is accepted or waits. */
  lemma GoShowIsNeverStranded(m: Manifest, g: GoShow)
    requires Sound(m) && WellFormed(m.layout)
    ensures var r := AfterGoShow(m, g);
            && r.1 != Panicked && r.1 != Refused(NoSeat)
            && (m.stage == Open && g.surname != "" && g.seat == "" ==> r.1 == Done)
            && Sound(r.0)
  {
    hide Sound, WellFormed, SeatCompartment, AcceptTargets, FreeCount, Owed, AllSeatable, PartyAccepted;
    var p, n := Newcomer(m, g), |m.passengers|;
    var with := Enlisted(m, p);
    CompartmentNamed(m.layout, p.class_);
    EnlistedKeeps(m, p);
    if m.stage == Open && g.surname != "" && !MustWait(with, g, p.compartment) {
      AreInCompartments(with);
      SpareIsSeatable(with, n);
      AcceptTargetsRight(with, [n], g.seat, g.bags);
      if AcceptTargets(with, [n], g.seat, g.bags).1 != Done {
        assert with.passengers[..n] == m.passengers;
        CounterMovesOn(m, with.(passengers := with.passengers[..n]));
      }
    }
  }

  lemma CounterMovesOn(m: Manifest, next: Manifest)
    requires Sound(m) && next == m.(nextID := m.nextID + 1)
    ensures Sound(next)
  {
    hide SeatCompartment;
  }

  // ---------------------------------------------------------------- the name list

  lemma {:induction false} EnlistedAllKeeps(m: Manifest, class_: string, n: Name, count: nat)
    requires Sound(m)
    ensures Sound(EnlistedAll(m, class_, n, count))
    decreases count
  {
    hide Sound, CompartmentFor;
    if count > 0 {
      EnlistedAllKeeps(m, class_, n, count - 1);
      CompartmentNamed(m.layout, class_);
      var before := EnlistedAll(m, class_, n, count - 1);
      CompartmentNamed(before.layout, class_);
      EnlistedKeeps(before, ListedName(before, class_, n, count - 1));
    }
  }

  lemma AddNamesKeeps(m: Manifest, class_: string, n: Name)
    requires Sound(m)
    ensures Sound(AddNames(m, class_, n))
  {
    hide CompartmentFor, EnlistedAll;
    CompartmentNamed(m.layout, class_);
    EnlistedAllKeeps(m, class_, n, PartySize(n));
    var i := FirstDeleted(m.passengers, PartyKey(n));
    if !IsListed(m.passengers, PartyKey(n)) && i.Some? {
      StandingKeeps(m, AddNames(m, class_, n));
    }
  }

  lemma DeleteKeeps(m: Manifest, n: Name)
    requires Sound(m)
    ensures Sound(DeleteNames(m, n))
  {
    hide PartyKey, IdsRise, SequencesDiffer, Exact, KnownSeats;
    StandingKeeps(m, DeleteNames(m, n));
  }

  lemma ChangeKeeps(m: Manifest, class_: string, n: Name)
    requires Sound(m)
    ensures Sound(ChangeNames(m, class_, n))
  {
    hide PartyKey, CompartmentFor, IdsRise, SequencesDiffer, Exact, KnownSeats;
    if IsListed(m.passengers, PartyKey(n)) {
      CompartmentNamed(m.layout, class_);
      StandingKeeps(m, ChangeNames(m, class_, n));
    } else {
      AddNamesKeeps(m, class_, n);
    }
  }

  lemma ApplyNameKeeps(m: Manifest, change: Change, class_: string, n: Name)
    requires Sound(m)
    ensures Sound(ApplyName(m, change, class_, n))
  {
    hide Sound, DeleteNames, AddNames, ChangeNames;
    match change
    case Delete => DeleteKeeps(m, n);
    case Add => AddNamesKeeps(m, class_, n);
    case Amend => ChangeKeeps(m, class_, n);
  }

  lemma {:induction false} ApplyNamesKeeps(m: Manifest, change: Change, class_: string, names: seq<Name>)
    requires Sound(m)
    ensures Sound(ApplyNames(m, change, class_, names))
    decreases |names|
  {
    hide Sound, ApplyName;
    if names != [] {
      ApplyNamesKeeps(m, change, class_, names[..|names| - 1]);
      ApplyNameKeeps(ApplyNames(m, change, class_, names[..|names| - 1]), change, class_, names[|names| - 1]);
    }
  }

  lemma {:induction false} ApplySectionsKeeps(m: Manifest, change: Change, class_: string, sections: seq<(Change, seq<Name>)>)
    requires Sound(m)
    ensures Sound(ApplySections(m, change, class_, sections))
    decreases |sections|
  {
    hide Sound, ApplyNames;
    if sections != [] {
      var init, s := sections[..|sections| - 1], sections[|sections| - 1];
      ApplySectionsKeeps(m, change, class_, init);
      ApplyNamesKeeps(ApplySections(m, change, class_, init), change, class_, s.1);
    }
  }

  lemma {:induction false} ApplyGroupsKeeps(m: Manifest, change: Change, groups: seq<Group>)
    requires Sound(m)
    ensures Sound(ApplyGroups(m, change, groups))
    decreases |groups|
  {
    hide Sound, ApplySections;
    if groups != [] {
      var init, g := groups[..|groups| - 1], groups[|groups| - 1];
      ApplyGroupsKeeps(m, change, init);
      ApplySectionsKeeps(ApplyGroups(m, change, init), change, g.class_, g.sections);
    }
  }

  lemma {:induction false} ListGroupsKeeps(m: Manifest, groups: seq<Group>)
    requires Sound(m)
    ensures Sound(ListGroups(m, groups))
    decreases |groups|
  {
    hide Sound, ApplyNames;
    if groups != [] {
      var init, g := groups[..|groups| - 1], groups[|groups| - 1];
      ListGroupsKeeps(m, init);
      ApplyNamesKeeps(ListGroups(m, init), Add, g.class_, g.names);
    }
  }

  lemma NameListKeeps(m: Manifest, list: NameList)
    requires Sound(m)
    ensures Sound(AfterNameList(m, list).0)
  {
    hide ListGroups, ApplyGroups, SeatCompartment, Exact, IdsRise, SequencesDiffer;
    match list.kind
    case PNL =>
      var seen := m.(parts := m.parts + {list.part});
      assert Sound(seen);
      ListGroupsKeeps(seen, list.groups);
    case ADL =>
      ApplyGroupsKeeps(m, Delete, list.groups);
      var deleted := ApplyGroups(m, Delete, list.groups);
      ApplyGroupsKeeps(deleted, Add, list.groups);
      ApplyGroupsKeeps(ApplyGroups(deleted, Add, list.groups), Amend, list.groups);
  }

  // ---------------------------------------------------------------- boarding and bags

  lemma BoardKeeps(m: Manifest, id: int)
    requires Sound(m)
    ensures Sound(AfterBoard(m, id).0)
  {
    hide SeatCompartment, Exact, IdsRise, SequencesDiffer;
    var next := AfterBoard(m, id).0;
    assert AllSameStanding(m.passengers, next.passengers);
    StandingKeeps(m, next);
  }

  lemma {:induction false} BagReportKeeps(m: Manifest, tags: seq<string>)
    requires Sound(m)
    ensures Sound(AfterBagReport(m, tags))
    decreases |tags|
  {
    if tags != [] {
      BagReportKeeps(m, tags[..|tags| - 1]);
      var before := AfterBagReport(m, tags[..|tags| - 1]);
      var next := before.(passengers := MarkLoaded(before.passengers, tags[|tags| - 1]));
      assert AllSameStanding(before.passengers, next.passengers);
      StandingKeeps(before, next);
    }
  }
}
