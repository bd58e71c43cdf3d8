/** What the seat map keeps: every seat has one name, and a party is seated right. */
module DcsSeating {
  import opened Wrappers
  import opened Text
  import opened Sequences
  import Decimal
  import opened DcsCabin

  // ---------------------------------------------------------------- well-formed cabins

  predicate IsLetter(c: char) {
    'A' <= c <= 'Z'
  }

  predicate WellFormedSection(s: Section) {
    && s.fromRow >= 0 && s.compartment in ["F", "C", "Y"]
    && (forall c | c in s.letters :: c == ' ' || IsLetter(c))
    && (forall i, j | 0 <= i < j < |s.letters| && s.letters[i] != ' ' :: s.letters[i] != s.letters[j])
  }

  predicate Apart(s: Section, t: Section) {
    s.toRow < t.fromRow || t.toRow < s.fromRow
  }

  /** Cabin codes, capital letters that differ within a row, and disjoint row ranges. */
  predicate WellFormed(layout: Layout) {
    && (forall i | 0 <= i < |layout| :: WellFormedSection(layout[i]))
    && (forall i, j | 0 <= i < j < |layout| :: Apart(layout[i], layout[j]))
  }

  lemma WellFormedTail(layout: Layout)
    requires WellFormed(layout) && layout != []
    ensures WellFormedSection(layout[0]) && WellFormed(layout[1..])
  {
  }

  // ---------------------------------------------------------------- seat names

  /** A printed seat name is in the form it is keyed under, and is read back as itself. */
  lemma SeatNameReads(row: int, letter: char)
    requires row >= 0 && IsLetter(letter)
    ensures Normalise(SeatName(row, letter)) == SeatName(row, letter)
    ensures SplitSeat(SeatName(row, letter)) == Some((row, letter))
  {
    var name, digits := SeatName(row, letter), Decimal.Itoa(row);
    Decimal.ItoaPlain(row);
    Decimal.AtoiOfItoa(row);
    assert name[0] == digits[0] && digits[0] in digits;
    assert TrimSpace(name) == name;
    forall i | 0 <= i < |name| ensures UpperChar(name[i]) == name[i] {
      assert i < |digits| ==> name[i] == digits[i] && digits[i] in digits;
    }
    assert Upper(name) == name;
    assert name[..|name| - 1] == digits;
  }

  lemma SeatNameInjective(row: int, letter: char, row2: int, letter2: char)
    requires SeatName(row, letter) == SeatName(row2, letter2)
    ensures row == row2 && letter == letter2
  {
    var name := SeatName(row, letter);
    assert name[..|name| - 1] == Decimal.Itoa(row) == Decimal.Itoa(row2);
    assert name[|name| - 1] == letter == letter2;
    Decimal.ItoaInjective(row, row2);
  }

  ghost predicate SeatOf(s: Section, seat: string, row: int, letter: char) {
    HasLetter(s, row, letter) && seat == SeatName(row, letter)
  }

  lemma {:induction false} RowSeatsMember(row: int, letters: string, seat: string)
    ensures seat in RowSeats(row, letters) <==> exists l :: l in letters && l != ' ' && seat == SeatName(row, l)
    decreases |letters|
  {
    hide SeatName;
    if letters != "" {
      RowSeatsMember(row, letters[1..], seat);
      assert forall l :: l in letters <==> l == letters[0] || l in letters[1..];
    }
  }

  lemma {:induction false} SectionSeatsMember(s: Section, from: int, seat: string)
    requires s.fromRow <= from
    ensures seat in SectionSeats(s, from) <==> exists r, l :: from <= r && SeatOf(s, seat, r, l)
    decreases s.toRow - from
  {
    hide SeatName;
    if from <= s.toRow {
      RowSeatsMember(from, s.letters, seat);
      SectionSeatsMember(s, from + 1, seat);
      if l :| l in s.letters && l != ' ' && seat == SeatName(from, l) {
        assert SeatOf(s, seat, from, l);
      }
      if r, l :| from <= r && SeatOf(s, seat, r, l) {
        assert r == from ==> l in s.letters;
      }
    }
  }

  /** The seat's section, among those of the compartment. */
  ghost predicate SeatInSection(layout: Layout, comp: string, seat: string, k: nat) {
    k < |layout| && layout[k].compartment == comp && exists r, l :: SeatOf(layout[k], seat, r, l)
  }

  lemma {:induction false} SeatsInMember(layout: Layout, comp: string, seat: string)
    ensures seat in SeatsIn(layout, comp) <==> exists k: nat :: SeatInSection(layout, comp, seat, k)
    decreases |layout|
  {
    hide SectionSeats, SeatOf;
    if layout != [] {
      var s := layout[0];
      SeatsInMember(layout[1..], comp, seat);
      SectionSeatsMember(s, s.fromRow, seat);
      AnySeatOf(s, seat);
      if k: nat :| SeatInSection(layout[1..], comp, seat, k) {
        assert SeatInSection(layout, comp, seat, k + 1);
      }
      if k: nat :| SeatInSection(layout, comp, seat, k) {
        assert k > 0 ==> SeatInSection(layout[1..], comp, seat, k - 1);
      }
      if s.compartment == comp && seat in SectionSeats(s, s.fromRow) {
        assert SeatInSection(layout, comp, seat, 0);
      }
    }
  }

  lemma AnySeatOf(s: Section, seat: string)
    ensures (exists r, l :: s.fromRow <= r && SeatOf(s, seat, r, l)) <==> (exists r, l :: SeatOf(s, seat, r, l))
  {
    if r, l :| SeatOf(s, seat, r, l) {
      assert s.fromRow <= r;
    }
  }

  // ---------------------------------------------------------------- no seat twice

  lemma DistinctConcat<T>(xs: seq<T>, ys: seq<T>)
    requires Distinct(xs) && Distinct(ys) && forall x | x in xs :: x !in ys
    ensures Distinct(xs + ys)
  {
    var all := xs + ys;
    forall i, j | 0 <= i < j < |all| ensures all[i] != all[j] {
      if i < |xs| <= j {
        assert xs[i] in xs && ys[j - |xs|] in ys;
      }
    }
  }

  lemma {:induction false} RowSeatsDistinct(row: int, letters: string)
    requires forall i, j | 0 <= i < j < |letters| && letters[i] != ' ' :: letters[i] != letters[j]
    ensures Distinct(RowSeats(row, letters))
    decreases |letters|
  {
    hide SeatName;
    if letters != "" && letters[0] != ' ' {
      var seat := SeatName(row, letters[0]);
      RowSeatsDistinct(row, letters[1..]);
      RowSeatsMember(row, letters[1..], seat);
      if l :| l in letters[1..] && l != ' ' && seat == SeatName(row, l) {
        SeatNameInjective(row, letters[0], row, l);
      }
      DistinctConcat([seat], RowSeats(row, letters[1..]));
    } else if letters != "" {
      RowSeatsDistinct(row, letters[1..]);
    }
  }

  /** No seat of a row is in a later one. */
  lemma RowsDiffer(s: Section, row: int, seat: string)
    requires s.fromRow <= row && seat in RowSeats(row, s.letters)
    ensures seat !in SectionSeats(s, row + 1)
  {
    hide SeatName;
    RowSeatsMember(row, s.letters, seat);
    SectionSeatsMember(s, row + 1, seat);
    var l :| l in s.letters && l != ' ' && seat == SeatName(row, l);
    if r, k :| row + 1 <= r && SeatOf(s, seat, r, k) {
      SeatNameInjective(row, l, r, k);
    }
  }

  lemma {:induction false} SectionSeatsDistinct(s: Section, row: int)
    requires WellFormedSection(s) && s.fromRow <= row
    ensures Distinct(SectionSeats(s, row))
    decreases s.toRow - row
  {
    if row <= s.toRow {
      RowSeatsDistinct(row, s.letters);
      SectionSeatsDistinct(s, row + 1);
      forall seat | seat in RowSeats(row, s.letters) ensures seat !in SectionSeats(s, row + 1) {
        RowsDiffer(s, row, seat);
      }
      DistinctConcat(RowSeats(row, s.letters), SectionSeats(s, row + 1));
    }
  }

  /** A seat is in one section only. */
  lemma SectionsDiffer(layout: Layout, i: nat, j: nat, seat: string, row: int, letter: char, row2: int, letter2: char)
    requires WellFormed(layout) && i < |layout| && j < |layout|
    requires SeatOf(layout[i], seat, row, letter) && SeatOf(layout[j], seat, row2, letter2)
    ensures i == j && row == row2 && letter == letter2
  {
    assert i < j ==> Apart(layout[i], layout[j]);
    assert j < i ==> Apart(layout[j], layout[i]);
    SeatNameInjective(row, letter, row2, letter2);
  }

  lemma {:induction false} SeatsDistinct(layout: Layout, comp: string)
    requires WellFormed(layout)
    ensures Distinct(SeatsIn(layout, comp))
    decreases |layout|
  {
    hide SectionSeats, SeatOf;
    if layout != [] {
      var s, rest := layout[0], SeatsIn(layout[1..], comp);
      WellFormedTail(layout);
      SeatsDistinct(layout[1..], comp);
      if s.compartment == comp {
        SectionSeatsDistinct(s, s.fromRow);
        forall seat | seat in SectionSeats(s, s.fromRow) ensures seat !in rest {
          SectionSeatsMember(s, s.fromRow, seat);
          SeatsInMember(layout[1..], comp, seat);
          if k: nat :| SeatInSection(layout[1..], comp, seat, k) {
            var r, l :| SeatOf(s, seat, r, l);
            var r2, l2 :| SeatOf(layout[1..][k], seat, r2, l2);
            SectionsDiffer(layout, 0, k + 1, seat, r, l, r2, l2);
          }
        }
        DistinctConcat(SectionSeats(s, s.fromRow), rest);
      }
    }
  }

  /** The seat map finds every seat in the compartment it is listed in. */
  lemma SeatIsFound(layout: Layout, comp: string, seat: string)
    requires WellFormed(layout) && seat in SeatsIn(layout, comp)
    ensures SeatCompartment(layout, seat) == Some(comp) && Normalise(seat) == seat
  {
    SeatsInMember(layout, comp, seat);
    var k: nat :| SeatInSection(layout, comp, seat, k);
    var r, l :| SeatOf(layout[k], seat, r, l);
    assert WellFormedSection(layout[k]);
    SeatNameReads(r, l);
    FoundInSection(layout, k, r, l);
  }

  lemma {:induction false} FoundInSection(layout: Layout, k: nat, row: int, letter: char)
    requires WellFormed(layout) && k < |layout| && HasLetter(layout[k], row, letter)
    ensures CompartmentAt(layout, row, letter) == Some(layout[k].compartment)
    decreases |layout|
  {
    WellFormedTail(layout);
    if k > 0 {
      assert Apart(layout[0], layout[k]);
      assert layout[1..][k - 1] == layout[k];
      FoundInSection(layout[1..], k - 1, row, letter);
    }
  }

  // ---------------------------------------------------------------- free seats

  lemma {:induction false} FreeMember(seats: seq<string>, occ: Occupancy, seat: string)
    ensures seat in FreeOf(seats, occ) <==> seat in seats && seat !in occ
    decreases |seats|
  {
    if seats != [] {
      FreeMember(seats[1..], occ, seat);
      assert seat in seats <==> seat == seats[0] || seat in seats[1..];
    }
  }

  lemma {:induction false} FreeDistinct(seats: seq<string>, occ: Occupancy)
    requires Distinct(seats)
    ensures Distinct(FreeOf(seats, occ))
    decreases |seats|
  {
    if seats != [] {
      FreeDistinct(seats[1..], occ);
      FreeMember(seats[1..], occ, seats[0]);
      DistinctConcat(if seats[0] in occ then [] else [seats[0]], FreeOf(seats[1..], occ));
    }
  }

  /** Taking a seat makes one seat fewer free where it was free, and none elsewhere. */
  lemma {:induction false} TakenIsOneFewer(seats: seq<string>, occ: Occupancy, seat: string, id: int)
    requires Distinct(seats) && seat !in occ
    ensures |FreeOf(seats, occ[seat := id])| == |FreeOf(seats, occ)| - (if seat in seats then 1 else 0)
    decreases |seats|
  {
    if seats != [] {
      TakenIsOneFewer(seats[1..], occ, seat, id);
      assert seat in seats <==> seat == seats[0] || seat in seats[1..];
      assert seat == seats[0] ==> seat !in seats[1..];
    }
  }

  lemma {:induction false} FreeCountIsFree(layout: Layout, occ: Occupancy, comp: string)
    requires comp != ""
    ensures FreeCount(layout, occ, comp) == |FreeIn(layout, occ, comp)|
    decreases |layout|
  {
    hide SectionSeats, FreeOf;
    if layout == [] {
      NoSeats(occ);
    } else {
      FreeCountIsFree(layout[1..], occ, comp);
      var own, rest := SectionSeats(layout[0], layout[0].fromRow), SeatsIn(layout[1..], comp);
      FreeConcat(own, rest, occ);
      assert [] + rest == rest;
    }
  }

  lemma NoSeats(occ: Occupancy)
    ensures FreeOf([], occ) == []
  {
  }

  // ---------------------------------------------------------------- blocks are runs of seats

  function Concat(blocks: seq<seq<string>>): seq<string> {
    if blocks == [] then [] else blocks[0] + Concat(blocks[1..])
  }

  lemma {:induction false} ConcatAdd(xs: seq<seq<string>>, ys: seq<seq<string>>)
    ensures Concat(xs + ys) == Concat(xs) + Concat(ys)
    decreases |xs|
  {
    if xs == [] {
      assert xs + ys == ys;
    } else {
      assert (xs + ys)[0] == xs[0] && (xs + ys)[1..] == xs[1..] + ys;
      ConcatAdd(xs[1..], ys);
      AddAssoc(xs[0], Concat(xs[1..]), Concat(ys));
    }
  }

  lemma {:induction false} RowSeatsAdd(row: int, a: string, b: string)
    ensures RowSeats(row, a + b) == RowSeats(row, a) + RowSeats(row, b)
    decreases |a|
  {
    hide SeatName;
    if a == "" {
      assert a + b == b;
    } else {
      assert (a + b)[0] == a[0] && (a + b)[1..] == a[1..] + b;
      RowSeatsAdd(row, a[1..], b);
    }
  }

  lemma {:induction false} RowBlocks(row: int, letters: string)
    ensures Concat(BlockSeats(row, Fields(letters))) == RowSeats(row, letters)
    decreases |letters|
  {
    hide SeatName;
    if letters != "" {
      if letters[0] == ' ' {
        RowBlocks(row, letters[1..]);
        assert [] + RowSeats(row, letters[1..]) == RowSeats(row, letters[1..]);
      } else {
        var n := WordEnd(letters);
        RowBlocks(row, letters[n..]);
        RowSeatsAdd(row, letters[..n], letters[n..]);
        assert letters[..n] + letters[n..] == letters;
        var blocks := Fields(letters);
        assert blocks[0] == letters[..n] && blocks[1..] == Fields(letters[n..]);
      }
    }
  }

  lemma {:induction false} SectionBlockSeats(s: Section, row: int)
    ensures Concat(SectionBlocks(s, row)) == SectionSeats(s, row)
    decreases s.toRow - row
  {
    hide RowSeats, BlockSeats, Fields;
    if row <= s.toRow {
      RowBlocks(row, s.letters);
      SectionBlockSeats(s, row + 1);
      ConcatAdd(BlockSeats(row, Fields(s.letters)), SectionBlocks(s, row + 1));
    }
  }

  /** The blocks of a compartment, one after another, are its seats. */
  lemma {:induction false} BlocksAreSeats(layout: Layout, comp: string)
    ensures Concat(Blocks(layout, comp)) == SeatsIn(layout, comp)
    decreases |layout|
  {
    hide SectionBlocks, SectionSeats;
    if layout != [] {
      BlocksAreSeats(layout[1..], comp);
      SectionBlockSeats(layout[0], layout[0].fromRow);
      var own := if layout[0].compartment == comp then SectionBlocks(layout[0], layout[0].fromRow) else [];
      ConcatAdd(own, Blocks(layout[1..], comp));
    }
  }

  lemma {:induction false} BlockIsARun(blocks: seq<seq<string>>, block: seq<string>)
    requires block in blocks
    ensures exists x, y :: Concat(blocks) == x + block + y
    decreases |blocks|
  {
    if block == blocks[0] {
      assert Concat(blocks) == [] + block + Concat(blocks[1..]);
    } else {
      BlockIsARun(blocks[1..], block);
      var x, y :| Concat(blocks[1..]) == x + block + y;
      assert Concat(blocks) == (blocks[0] + x) + block + y;
    }
  }

  lemma RunDistinct<T>(x: seq<T>, block: seq<T>, y: seq<T>)
    requires Distinct(x + block + y)
    ensures Distinct(block) && forall e | e in block :: e in x + block + y
  {
    var all := x + block + y;
    forall i, j | 0 <= i < j < |block| ensures block[i] != block[j] {
      assert all[|x| + i] == block[i] && all[|x| + j] == block[j];
    }
  }

  // ---------------------------------------------------------------- a party is seated right

  ghost predicate HasRoom(blocks: seq<seq<string>>, occ: Occupancy, n: nat) {
    exists b :: b in blocks && |FreeOf(b, occ)| >= n
  }

  lemma {:induction false} FirstFitFits(blocks: seq<seq<string>>, occ: Occupancy, n: nat)
    ensures FirstFit(blocks, occ, n).Some? <==> HasRoom(blocks, occ, n)
    ensures FirstFit(blocks, occ, n).Some? ==>
              exists b :: b in blocks && |FreeOf(b, occ)| >= n && FirstFit(blocks, occ, n).value == FreeOf(b, occ)[..n]
    decreases |blocks|
  {
    hide FreeOf;
    if blocks != [] {
      FirstFitFits(blocks[1..], occ, n);
      assert forall b :: b in blocks <==> b == blocks[0] || b in blocks[1..];
    }
  }

  /** n distinct free seats of the compartment. */
  ghost predicate Seatable(layout: Layout, occ: Occupancy, comp: string, seats: seq<string>, n: nat) {
    && |seats| == n && Distinct(seats)
    && forall s | s in seats :: s !in occ && s in SeatsIn(layout, comp)
  }

  ghost predicate InOneBlock(layout: Layout, comp: string, seats: seq<string>) {
    exists b :: b in Blocks(layout, comp) && forall s | s in seats :: s in b
  }

  lemma FirstFree(seats: seq<string>, occ: Occupancy, n: nat)
    requires Distinct(seats) && n <= |FreeOf(seats, occ)|
    ensures Distinct(FreeOf(seats, occ)[..n]) && forall s | s in FreeOf(seats, occ)[..n] :: s in seats && s !in occ
  {
    FreeDistinct(seats, occ);
    forall s | s in FreeOf(seats, occ)[..n] ensures s in seats && s !in occ {
      FreeMember(seats, occ, s);
    }
  }

  lemma BlockSeatable(layout: Layout, occ: Occupancy, comp: string, b: seq<string>, n: nat)
    requires WellFormed(layout) && b in Blocks(layout, comp) && n <= |FreeOf(b, occ)|
    ensures Seatable(layout, occ, comp, FreeOf(b, occ)[..n], n) && InOneBlock(layout, comp, FreeOf(b, occ)[..n])
    ensures n <= |FreeIn(layout, occ, comp)|
  {
    hide WellFormed, Blocks, SeatsIn, FreeOf;
    BlockIsARun(Blocks(layout, comp), b);
    BlocksAreSeats(layout, comp);
    SeatsDistinct(layout, comp);
    var x, y :| SeatsIn(layout, comp) == x + b + y;
    RunDistinct(x, b, y);
    FirstFree(b, occ, n);
    FreeConcat(x + b, y, occ);
    FreeConcat(x, b, occ);
  }

  /** A party of n gets n distinct free seats of its compartment, all in one aisle block
      whenever some block has n free, and is turned away exactly when fewer than n are
      free. */
  lemma AssignIsRight(layout: Layout, occ: Occupancy, comp: string, n: nat)
    requires WellFormed(layout) && n > 0 && comp != ""
    ensures var seats := Assigned(layout, occ, comp, n);
            && (seats.None? <==> FreeCount(layout, occ, comp) < n)
            && (seats.Some? ==> Seatable(layout, occ, comp, seats.value, n))
            && (HasRoom(Blocks(layout, comp), occ, n) ==> seats.Some? && InOneBlock(layout, comp, seats.value))
  {
    hide WellFormed, Blocks, SeatsIn, FreeOf, FirstFit, FreeCount, Seatable, InOneBlock, HasRoom;
    FreeCountIsFree(layout, occ, comp);
    FirstFitFits(Blocks(layout, comp), occ, n);
    var fit := FirstFit(Blocks(layout, comp), occ, n);
    if fit.Some? {
      var b :| b in Blocks(layout, comp) && |FreeOf(b, occ)| >= n && fit.value == FreeOf(b, occ)[..n];
      BlockSeatable(layout, occ, comp, b, n);
    } else if |FreeIn(layout, occ, comp)| >= n {
      ScatteredSeatable(layout, occ, comp, n);
    }
  }

  lemma ScatteredSeatable(layout: Layout, occ: Occupancy, comp: string, n: nat)
    requires WellFormed(layout) && n <= |FreeIn(layout, occ, comp)|
    ensures Seatable(layout, occ, comp, FreeIn(layout, occ, comp)[..n], n)
  {
    hide WellFormed, SeatsIn, FreeOf;
    SeatsDistinct(layout, comp);
    FirstFree(SeatsIn(layout, comp), occ, n);
  }

  /** What taking a seat of one compartment leaves free in every compartment. */
  lemma TakingLeavesFree(layout: Layout, occ: Occupancy, seat: string, id: int, comp: string)
    requires WellFormed(layout) && comp != "" && seat !in occ
    ensures FreeCount(layout, occ[seat := id], comp)
         == FreeCount(layout, occ, comp) - (if seat in SeatsIn(layout, comp) then 1 else 0)
  {
    hide WellFormed, SeatsIn, FreeOf, FreeCount;
    FreeCountIsFree(layout, occ, comp);
    FreeCountIsFree(layout, occ[seat := id], comp);
    SeatsDistinct(layout, comp);
    TakenIsOneFewer(SeatsIn(layout, comp), occ, seat, id);
  }
}
