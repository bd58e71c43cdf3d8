/** What a name list does, item by item: who is listed, deleted or moved to another
    class, told by the party and what its members were before. */
module DcsLists {
  import opened Wrappers
  import opened DcsCabin
  import opened DcsFlight

  // ---------------------------------------------------------------- the cabin a class sits in

  /** How early a booking class looks to a cabin: first, business and economy classes each
      try their own, then the others in this order. */
  function Turn(class_: string, comp: string): nat {
    if class_ in ["F", "A", "P", "R"] then (if comp == "F" then 0 else if comp == "C" then 1 else 2)
    else if class_ in ["J", "C", "D", "I", "Z"] then (if comp == "C" then 0 else if comp == "Y" then 1 else 2)
    else (if comp == "Y" then 0 else if comp == "C" then 1 else 2)
  }

  /** A booking sits in the first cabin of its turn that the aircraft has, and in Y on an
      aircraft with none of the three. */
  lemma ClassSitsByTurn(layout: Layout, class_: string)
    ensures var comp := CompartmentFor(layout, class_);
            && comp in ["F", "C", "Y"]
            && (forall i | 0 <= i < |layout| && layout[i].compartment in ["F", "C", "Y"] ::
                  Turn(class_, comp) <= Turn(class_, layout[i].compartment))
            && ((exists i | 0 <= i < |layout| :: layout[i].compartment in ["F", "C", "Y"]) ==>
                  exists i | 0 <= i < |layout| :: layout[i].compartment == comp)
            && ((forall i | 0 <= i < |layout| :: layout[i].compartment !in ["F", "C", "Y"]) ==> comp == "Y")
  {
    PresentOfThree(layout, "F", "C", "Y");
    PresentOfThree(layout, "C", "Y", "F");
    PresentOfThree(layout, "Y", "C", "F");
  }

  lemma PresentOfThree(layout: Layout, a: string, b: string, c: string)
    ensures FirstPresent(layout, [a, b, c])
         == if HasCompartment(layout, a) then a else if HasCompartment(layout, b) then b
            else if HasCompartment(layout, c) then c else FirstPresent(layout, [])
  {
    hide HasCompartment;
    assert [a, b, c][1..] == [b, c] && [b, c][1..] == [c] && [c][1..] == [];
    assert FirstPresent(layout, [c]) == if HasCompartment(layout, c) then c else FirstPresent(layout, []);
    assert FirstPresent(layout, [b, c]) == if HasCompartment(layout, b) then b else FirstPresent(layout, [c]);
  }

  // ---------------------------------------------------------------- parties

  lemma SlashAt(before: string, after: string)
    ensures var s := before + "/" + after;
            && s[|before|] == '/' && s[..|before|] == before && s[|before| + 1..] == after
            && ('/' !in before ==> forall k | 0 <= k < |before| :: s[k] != '/')
            && ('/' !in after ==> forall k | |before| < k < |s| :: s[k] != '/')
  {
    var s := before + "/" + after;
    assert forall k | 0 <= k < |before| :: s[k] == before[k];
    assert forall k | |before| < k < |s| :: s[k] == after[k - |before| - 1];
  }

  lemma SplitOnce(a: string, x: string, b: string, y: string)
    requires '/' !in a && '/' !in b && a + "/" + x == b + "/" + y
    ensures a == b && x == y
  {
    SlashAt(a, x);
    SlashAt(b, y);
  }

  lemma SplitLast(x: string, a: string, y: string, b: string)
    requires '/' !in a && '/' !in b && x + "/" + a == y + "/" + b
    ensures a == b && x == y
  {
    SlashAt(x, a);
    SlashAt(y, b);
  }

  /** A name with nothing in it that the key is put together with. */
  predicate PlainName(s: string) {
    s != "" && '/' !in s
  }

  lemma {:induction false} JoinedNames(xs: seq<string>, ys: seq<string>)
    requires forall i | 0 <= i < |xs| :: PlainName(xs[i])
    requires forall i | 0 <= i < |ys| :: PlainName(ys[i])
    ensures Joined(xs) == Joined(ys) <==> xs == ys
    decreases |xs|
  {
    JoinedShape(xs);
    JoinedShape(ys);
    if |xs| > 1 && |ys| > 1 {
      var n, k := |xs| - 1, |ys| - 1;
      JoinedNames(xs[..n], ys[..k]);
      if Joined(xs) == Joined(ys) {
        SplitLast(Joined(xs[..n]), xs[n], Joined(ys[..k]), ys[k]);
        assert xs == xs[..n] + [xs[n]] && ys == ys[..k] + [ys[k]];
      }
    }
  }

  /** No names, one, or several can be told from the result. */
  lemma JoinedShape(xs: seq<string>)
    requires forall i | 0 <= i < |xs| :: PlainName(xs[i])
    ensures xs == [] <==> Joined(xs) == ""
    ensures |xs| > 1 <==> '/' in Joined(xs)
  {
    if |xs| > 1 {
      assert Joined(xs)[|Joined(xs[..|xs| - 1])|] == '/';
    }
  }

  /** Two name items are the same party when their locators and surnames agree, or, where
      neither has a locator, their surnames and all the given names do. */
  lemma SameParty(n: Name, k: Name)
    requires PlainName(n.surname) && PlainName(k.surname) && '/' !in n.locator && '/' !in k.locator
    requires (n.locator == "") == (k.locator == "")
    requires forall i | 0 <= i < |n.givens| :: PlainName(n.givens[i])
    requires forall i | 0 <= i < |k.givens| :: PlainName(k.givens[i])
    ensures PartyKey(n) == PartyKey(k)
       <==> n.surname == k.surname && (if n.locator != "" then n.locator == k.locator else n.givens == k.givens)
  {
    if PartyKey(n) == PartyKey(k) {
      if n.locator != "" {
        SplitOnce(n.locator, n.surname, k.locator, k.surname);
      } else {
        SplitOnce(n.surname, Joined(n.givens), k.surname, Joined(k.givens));
      }
    }
    JoinedNames(n.givens, k.givens);
  }

  // ---------------------------------------------------------------- one item

  predicate Present(ps: seq<Passenger>, key: string) {
    exists i | 0 <= i < |ps| :: ps[i].party == key && ps[i].status != Deleted
  }

  /** On the list in a class, otherwise as before. */
  predicate ListedIn(layout: Layout, p: Passenger, q: Passenger, class_: string) {
    q == p.(status := Listed, class_ := class_, compartment := CompartmentFor(layout, class_))
  }

  /** Member k of a party newly listed. */
  predicate IsMember(m: Manifest, q: Passenger, class_: string, n: Name, k: nat) {
    && q.id == m.nextID + k && q.surname == n.surname && q.locator == n.locator && q.party == PartyKey(n)
    && q.given == (if k < |n.givens| then n.givens[k] else "TBA")
    && q.class_ == class_ && q.compartment == CompartmentFor(m.layout, class_)
    && q.status == Listed && q.category == Ordinary && q.seat == "" && q.sequence == 0 && q.bags == [] && !q.deletedAfterAcceptance
  }

  /** As many as the item counts, or as it names, but at least one. */
  predicate IsPartySize(n: Name, size: nat) {
    size >= 1 && (n.party > 0 ==> size == n.party) && (n.party <= 0 ==> size == 1 || size == |n.givens|)
    && (n.party <= 0 ==> size >= |n.givens|)
  }

  lemma {:induction false} EnlistedAllIs(m: Manifest, class_: string, n: Name, count: nat)
    ensures var next := EnlistedAll(m, class_, n, count);
            && |next.passengers| == |m.passengers| + count && next.passengers[..|m.passengers|] == m.passengers
            && next == m.(passengers := next.passengers, nextID := m.nextID + count)
            && forall i | |m.passengers| <= i < |next.passengers| ::
                 IsMember(m, next.passengers[i], class_, n, i - |m.passengers|)
    decreases count
  {
    hide CompartmentFor, PartyKey;
    if count > 0 {
      EnlistedAllIs(m, class_, n, count - 1);
      var before := EnlistedAll(m, class_, n, count - 1);
      assert IsMember(m, ListedName(before, class_, n, count - 1), class_, n, count - 1);
    } else {
      assert m.passengers[..|m.passengers|] == m.passengers;
    }
  }

  lemma {:induction false} FirstDeletedIs(ps: seq<Passenger>, key: string)
    ensures match FirstDeleted(ps, key)
            case None => forall k | 0 <= k < |ps| && ps[k].party == key :: ps[k].status != Deleted
            case Some(i) => i < |ps| && ps[i].party == key && ps[i].status == Deleted
                            && forall k | 0 <= k < i && ps[k].party == key :: ps[k].status != Deleted
    decreases |ps|
  {
    if ps != [] {
      FirstDeletedIs(ps[..|ps| - 1], key);
    }
  }

  /** An addition lists nobody twice: of a party on the list nothing changes; of one all
      deleted, the first member alone is put back, in the item's class; a new party joins
      the end of the list, one passenger for each the item counts or names. */
  lemma AdditionMeans(m: Manifest, class_: string, n: Name)
    ensures var next, key, ps := ApplyName(m, Add, class_, n), PartyKey(n), m.passengers;
            if Present(ps, key) then next == m
            else if exists i | 0 <= i < |ps| :: ps[i].party == key then
              exists i: nat :: i < |ps| && ps[i].party == key && (forall k | 0 <= k < i :: ps[k].party != key)
                               && |next.passengers| == |ps| && next == m.(passengers := ps[i := next.passengers[i]])
                               && ListedIn(m.layout, ps[i], next.passengers[i], class_)
            else
              exists size: nat :: IsPartySize(n, size)
                               && |next.passengers| == |ps| + size && next.passengers[..|ps|] == ps
                               && next == m.(passengers := next.passengers, nextID := m.nextID + size)
                               && forall i | |ps| <= i < |ps| + size :: IsMember(m, next.passengers[i], class_, n, i - |ps|)
  {
    hide CompartmentFor, PartyKey, EnlistedAll, IsMember;
    var key, ps := PartyKey(n), m.passengers;
    FirstDeletedIs(ps, key);
    EnlistedAllIs(m, class_, n, PartySize(n));
    assert IsPartySize(n, PartySize(n));
    if !Present(ps, key) {
      if i :| 0 <= i < |ps| && ps[i].party == key {
        assert ps[i].status == Deleted;
        var first := FirstDeleted(ps, key).value;
        assert forall k | 0 <= k < first :: ps[k].party != key;
        assert ListedIn(m.layout, ps[first], AddNames(m, class_, n).passengers[first], class_);
      } else {
        assert FirstDeleted(ps, key).None?;
        assert ApplyName(m, Add, class_, n) == EnlistedAll(m, class_, n, PartySize(n));
      }
    }
  }

  /** A deletion strikes every member still listed or waiting; one the airport has accepted
      or boarded stays and is marked; nobody else changes. */
  lemma DeletionMeans(m: Manifest, class_: string, n: Name)
    ensures var next := ApplyName(m, Delete, class_, n);
            && |next.passengers| == |m.passengers| && next == m.(passengers := next.passengers)
            && forall i | 0 <= i < |m.passengers| ::
                 var p := m.passengers[i];
                 next.passengers[i]
                 == if p.party == PartyKey(n) && p.status in {Listed, Standby} then p.(status := Deleted)
                    else if p.party == PartyKey(n) && p.status in {Accepted, Boarded} then p.(deletedAfterAcceptance := true)
                    else p
  {
    hide PartyKey;
  }

  /** A change moves the members still listed to the item's class, if it gives one; those
      the airport already has stay as they are; a party not on the list is added. */
  lemma AmendmentMeans(m: Manifest, class_: string, n: Name)
    ensures var next := ApplyName(m, Amend, class_, n);
            if !Present(m.passengers, PartyKey(n)) then next == ApplyName(m, Add, class_, n)
            else
              && |next.passengers| == |m.passengers| && next == m.(passengers := next.passengers)
              && forall i | 0 <= i < |m.passengers| ::
                   var p, q := m.passengers[i], next.passengers[i];
                   if p.party == PartyKey(n) && p.status == Listed && class_ != "" then ListedIn(m.layout, p, q, class_) else q == p
  {
    hide PartyKey, CompartmentFor, AddNames;
  }

  // ---------------------------------------------------------------- whole lists

  datatype Item = Item(class_: string, name: Name)

  function InClass(class_: string, names: seq<Name>): (r: seq<Item>)
    ensures |r| == |names| && forall i | 0 <= i < |r| :: r[i] == Item(class_, names[i])
  {
    seq(|names|, i requires 0 <= i < |names| => Item(class_, names[i]))
  }

  /** The items of a group's sections for one change, in order. */
  function SectionItems(class_: string, sections: seq<(Change, seq<Name>)>, change: Change): seq<Item> {
    if sections == [] then []
    else (if sections[0].0 == change then InClass(class_, sections[0].1) else []) + SectionItems(class_, sections[1..], change)
  }

  /** The items of every group for one change, in order. */
  function ItemsFor(groups: seq<Group>, change: Change): seq<Item> {
    if groups == [] then [] else SectionItems(groups[0].class_, groups[0].sections, change) + ItemsFor(groups[1..], change)
  }

  /** The names every group lists outright. */
  function ItemsListed(groups: seq<Group>): seq<Item> {
    if groups == [] then [] else InClass(groups[0].class_, groups[0].names) + ItemsListed(groups[1..])
  }

  /** One item after another. */
  function Each(m: Manifest, change: Change, items: seq<Item>): Manifest
    decreases |items|
  {
    if items == [] then m else Each(ApplyName(m, change, items[0].class_, items[0].name), change, items[1..])
  }

  lemma {:induction false} EachConcat(m: Manifest, change: Change, xs: seq<Item>, ys: seq<Item>)
    ensures Each(m, change, xs + ys) == Each(Each(m, change, xs), change, ys)
    decreases |xs|
  {
    hide ApplyName;
    if xs == [] {
      assert xs + ys == ys;
    } else {
      assert (xs + ys)[1..] == xs[1..] + ys;
      EachConcat(ApplyName(m, change, xs[0].class_, xs[0].name), change, xs[1..], ys);
    }
  }

  lemma {:induction false} NamesAreEach(m: Manifest, change: Change, class_: string, names: seq<Name>)
    ensures ApplyNames(m, change, class_, names) == Each(m, change, InClass(class_, names))
    decreases |names|
  {
    hide ApplyName;
    if names != [] {
      var init, n := names[..|names| - 1], names[|names| - 1];
      NamesAreEach(m, change, class_, init);
      assert InClass(class_, names) == InClass(class_, init) + [Item(class_, n)];
      EachConcat(m, change, InClass(class_, init), [Item(class_, n)]);
      EachOne(Each(m, change, InClass(class_, init)), change, Item(class_, n));
    }
  }

  lemma EachOne(m: Manifest, change: Change, item: Item)
    ensures Each(m, change, [item]) == ApplyName(m, change, item.class_, item.name)
  {
    hide ApplyName;
    assert [item][1..] == [];
  }

  lemma {:induction false} SectionItemsConcat(class_: string, xs: seq<(Change, seq<Name>)>, ys: seq<(Change, seq<Name>)>, change: Change)
    ensures SectionItems(class_, xs + ys, change) == SectionItems(class_, xs, change) + SectionItems(class_, ys, change)
    decreases |xs|
  {
    if xs == [] {
      assert xs + ys == ys;
    } else {
      assert (xs + ys)[1..] == xs[1..] + ys;
      SectionItemsConcat(class_, xs[1..], ys, change);
    }
  }

  lemma {:induction false} SectionsAreEach(m: Manifest, change: Change, class_: string, sections: seq<(Change, seq<Name>)>)
    ensures ApplySections(m, change, class_, sections) == Each(m, change, SectionItems(class_, sections, change))
    decreases |sections|
  {
    hide ApplyNames, InClass;
    if sections != [] {
      var init, s := sections[..|sections| - 1], sections[|sections| - 1];
      SectionsAreEach(m, change, class_, init);
      assert sections == init + [s];
      SectionItemsConcat(class_, init, [s], change);
      OneSection(class_, s, change);
      var before := SectionItems(class_, init, change);
      EachConcat(m, change, before, SectionItems(class_, [s], change));
      NamesAreEach(Each(m, change, before), change, class_, s.1);
    }
  }

  lemma OneSection(class_: string, s: (Change, seq<Name>), change: Change)
    ensures SectionItems(class_, [s], change) == if s.0 == change then InClass(class_, s.1) else []
  {
    assert [s][1..] == [];
  }

  lemma {:induction false} ItemsForConcat(xs: seq<Group>, ys: seq<Group>, change: Change)
    ensures ItemsFor(xs + ys, change) == ItemsFor(xs, change) + ItemsFor(ys, change)
    ensures ItemsListed(xs + ys) == ItemsListed(xs) + ItemsListed(ys)
    decreases |xs|
  {
    hide SectionItems, InClass;
    if xs == [] {
      assert xs + ys == ys;
    } else {
      assert (xs + ys)[1..] == xs[1..] + ys;
      ItemsForConcat(xs[1..], ys, change);
    }
  }

  lemma OneGroup(g: Group, change: Change)
    ensures ItemsFor([g], change) == SectionItems(g.class_, g.sections, change) && ItemsListed([g]) == InClass(g.class_, g.names)
  {
    hide SectionItems, InClass;
    assert [g][1..] == [];
  }

  lemma {:induction false} GroupsAreEach(m: Manifest, change: Change, groups: seq<Group>)
    ensures ApplyGroups(m, change, groups) == Each(m, change, ItemsFor(groups, change))
    ensures ListGroups(m, groups) == Each(m, Add, ItemsListed(groups))
    decreases |groups|
  {
    hide ApplySections, ApplyNames, InClass, SectionItems, Each;
    if groups == [] {
      assert Each(m, change, []) == m && Each(m, Add, []) == m by {
        NoItems(m, change);
        NoItems(m, Add);
      }
    } else {
      var init, g := groups[..|groups| - 1], groups[|groups| - 1];
      GroupsAreEach(m, change, init);
      assert groups == init + [g];
      ItemsForConcat(init, [g], change);
      OneGroup(g, change);
      EachConcat(m, change, ItemsFor(init, change), ItemsFor([g], change));
      EachConcat(m, Add, ItemsListed(init), ItemsListed([g]));
      SectionsAreEach(Each(m, change, ItemsFor(init, change)), change, g.class_, g.sections);
      NamesAreEach(Each(m, Add, ItemsListed(init)), Add, g.class_, g.names);
    }
  }

  lemma NoItems(m: Manifest, change: Change)
    ensures Each(m, change, []) == m
  {
  }

  /** A change list works through all its deletions, then all its additions, then all its
      changes; a name list adds every name it lists, once for each part, until the final
      part and before anybody is accepted. Either is refused once the flight is closed. */
  lemma ListMeans(m: Manifest, list: NameList)
    ensures var (next, outcome) := AfterNameList(m, list);
            if m.stage == Closed then next == m && outcome == Refused(FlightClosed)
            else
              match list.kind
              case ADL =>
                outcome == Done && next == Each(Each(Each(m, Delete, ItemsFor(list.groups, Delete)),
                                                     Add, ItemsFor(list.groups, Add)),
                                                Amend, ItemsFor(list.groups, Amend))
              case PNL =>
                if exists i | 0 <= i < |m.passengers| :: m.passengers[i].status !in {Listed, Deleted}
                then next == m && outcome == Refused(ListAfterAccept)
                else if list.part in m.parts || m.complete then next == m && outcome == Done
                else
                  outcome == Done
                  && next == Each(m.(parts := m.parts + {list.part}), Add, ItemsListed(list.groups)).(complete := list.final)
  {
    hide ApplyGroups, ListGroups, Each, ItemsFor, ItemsListed;
    GroupsAreEach(m, Delete, list.groups);
    var deleted := Each(m, Delete, ItemsFor(list.groups, Delete));
    GroupsAreEach(deleted, Add, list.groups);
    GroupsAreEach(Each(deleted, Add, ItemsFor(list.groups, Add)), Amend, list.groups);
    GroupsAreEach(m.(parts := m.parts + {list.part}), Add, list.groups);
    EachKeepsCount(m.(parts := m.parts + {list.part}), Add, ItemsListed(list.groups));
  }

  lemma {:induction false} EachKeepsCount(m: Manifest, change: Change, items: seq<Item>)
    ensures Each(m, change, items).complete == m.complete && Each(m, change, items).parts == m.parts
    decreases |items|
  {
    hide AddNames, DeleteNames, ChangeNames;
    if items != [] {
      ApplyNameParts(m, change, items[0].class_, items[0].name);
      EachKeepsCount(ApplyName(m, change, items[0].class_, items[0].name), change, items[1..]);
    }
  }

  lemma ApplyNameParts(m: Manifest, change: Change, class_: string, n: Name)
    ensures ApplyName(m, change, class_, n).complete == m.complete && ApplyName(m, change, class_, n).parts == m.parts
  {
    hide EnlistedAll, CompartmentFor, PartyKey;
    EnlistedAllIs(m, class_, n, PartySize(n));
  }

  /** Once a list is worked through, every party it adds is on the list. */
  lemma {:induction false} EachIsPresent(m: Manifest, items: seq<Item>, k: nat)
    requires k < |items|
    ensures Present(Each(m, Add, items).passengers, PartyKey(items[k].name))
    decreases |items|
  {
    hide ApplyName, PartyKey;
    var next := ApplyName(m, Add, items[0].class_, items[0].name);
    if k == 0 {
      AddedIsPresent(m, items[0].class_, items[0].name);
      StaysPresent(next, items[1..], PartyKey(items[0].name));
    } else {
      EachIsPresent(next, items[1..], k - 1);
    }
  }

  lemma AddedIsPresent(m: Manifest, class_: string, n: Name)
    ensures Present(ApplyName(m, Add, class_, n).passengers, PartyKey(n))
  {
    hide CompartmentFor, PartyKey, IsMember;
    AdditionMeans(m, class_, n);
    var next, key, ps := ApplyName(m, Add, class_, n), PartyKey(n), m.passengers;
    if !Present(ps, key) {
      if exists i | 0 <= i < |ps| :: ps[i].party == key {
        var i: nat :| i < |ps| && ps[i].party == key && ListedIn(m.layout, ps[i], next.passengers[i], class_)
                      && |next.passengers| == |ps|;
        assert next.passengers[i].party == key;
      } else {
        assert next.passengers[|ps|].party == key && next.passengers[|ps|].status == Listed by {
          assert IsMember(m, next.passengers[|ps|], class_, n, 0);
          MemberOfParty(m, next.passengers[|ps|], class_, n, 0);
        }
      }
    }
  }

  lemma MemberOfParty(m: Manifest, q: Passenger, class_: string, n: Name, k: nat)
    requires IsMember(m, q, class_, n, k)
    ensures q.party == PartyKey(n) && q.status == Listed
  {
  }

  lemma {:induction false} StaysPresent(m: Manifest, items: seq<Item>, key: string)
    requires Present(m.passengers, key)
    ensures Present(Each(m, Add, items).passengers, key)
    decreases |items|
  {
    hide ApplyName, PartyKey;
    if items != [] {
      AddingKeeps(m, items[0].class_, items[0].name, key);
      StaysPresent(ApplyName(m, Add, items[0].class_, items[0].name), items[1..], key);
    }
  }

  lemma AddingKeeps(m: Manifest, class_: string, n: Name, key: string)
    requires Present(m.passengers, key)
    ensures Present(ApplyName(m, Add, class_, n).passengers, key)
  {
    hide CompartmentFor, PartyKey, IsMember;
    AdditionMeans(m, class_, n);
    var next, ps := ApplyName(m, Add, class_, n), m.passengers;
    var i :| 0 <= i < |ps| && ps[i].party == key && ps[i].status != Deleted;
    assert next.passengers[i].party == key && next.passengers[i].status != Deleted;
  }

  /** So a list that comes twice adds nobody the second time. */
  lemma {:induction false} TwiceIsOnce(m: Manifest, items: seq<Item>)
    requires forall k | 0 <= k < |items| :: Present(m.passengers, PartyKey(items[k].name))
    ensures Each(m, Add, items) == m
    decreases |items|
  {
    hide PartyKey, ApplyName;
    if items != [] {
      AdditionMeans(m, items[0].class_, items[0].name);
      TwiceIsOnce(m, items[1..]);
    }
  }
}
