/** The seat map: which seats a cabin has, which are free, and how a party is seated. */
module DcsCabin {
  import opened Wrappers
  import opened Text
  import opened Sequences
  import Decimal

  /** A run of identical rows; the letters of one row, with a blank at each aisle. */
  datatype Section = Section(compartment: string, fromRow: int, toRow: int, letters: string)

  type Layout = seq<Section>

  /** Who holds each seat. */
  type Occupancy = map<string, int>

  function SeatName(row: int, letter: char): string {
    Decimal.Itoa(row) + [letter]
  }

  /** Row and letter. The row is read as a number, so leading zeros and a sign pass. */
  function SplitSeat(seat: string): Option<(int, char)> {
    var s := Normalise(seat);
    if |s| < 2 then None
    else
      match Decimal.Atoi(s[..|s| - 1])
      case NotANumber => None
      case Number(row) => Some((row, s[|s| - 1]))
  }

  /** Whether the section has the seat. */
  predicate HasLetter(s: Section, row: int, letter: char) {
    s.fromRow <= row <= s.toRow && letter != ' ' && letter in s.letters
  }

  /** The compartment of the first section that has the seat. */
  function CompartmentAt(layout: Layout, row: int, letter: char): Option<string> {
    if layout == [] then None
    else if HasLetter(layout[0], row, letter) then Some(layout[0].compartment)
    else CompartmentAt(layout[1..], row, letter)
  }

  function SeatCompartment(layout: Layout, seat: string): Option<string> {
    match SplitSeat(seat)
    case None => None
    case Some(at) => CompartmentAt(layout, at.0, at.1)
  }

  // ---------------------------------------------------------------- seats in cabin order

  function RowSeats(row: int, letters: string): seq<string> {
    if letters == "" then []
    else (if letters[0] == ' ' then [] else [SeatName(row, letters[0])]) + RowSeats(row, letters[1..])
  }

  /** Where the first word ends. */
  function WordEnd(s: string): (n: nat)
    ensures n <= |s| && (n < |s| ==> s[n] == ' ') && forall i | 0 <= i < n :: s[i] != ' '
  {
    if s == "" || s[0] == ' ' then 0 else 1 + WordEnd(s[1..])
  }

  /** The words between the blanks. */
  function Fields(s: string): seq<string> {
    if s == "" then []
    else if s[0] == ' ' then Fields(s[1..])
    else [s[..WordEnd(s)]] + Fields(s[WordEnd(s)..])
  }

  /** The seats of each aisle block of a row. */
  function BlockSeats(row: int, blocks: seq<string>): seq<seq<string>> {
    if blocks == [] then [] else [RowSeats(row, blocks[0])] + BlockSeats(row, blocks[1..])
  }

  function SectionBlocks(s: Section, row: int): seq<seq<string>>
    decreases s.toRow - row
  {
    if row > s.toRow then [] else BlockSeats(row, Fields(s.letters)) + SectionBlocks(s, row + 1)
  }

  function SectionSeats(s: Section, row: int): seq<string>
    decreases s.toRow - row
  {
    if row > s.toRow then [] else RowSeats(row, s.letters) + SectionSeats(s, row + 1)
  }

  /** The aisle blocks of a compartment, front to back. */
  function Blocks(layout: Layout, comp: string): seq<seq<string>> {
    if layout == [] then []
    else
      (if layout[0].compartment == comp then SectionBlocks(layout[0], layout[0].fromRow) else [])
      + Blocks(layout[1..], comp)
  }

  /** The seats of a compartment, front to back. */
  function SeatsIn(layout: Layout, comp: string): seq<string> {
    if layout == [] then []
    else
      (if layout[0].compartment == comp then SectionSeats(layout[0], layout[0].fromRow) else [])
      + SeatsIn(layout[1..], comp)
  }

  function FreeOf(seats: seq<string>, occ: Occupancy): seq<string> {
    if seats == [] then [] else (if seats[0] in occ then [] else [seats[0]]) + FreeOf(seats[1..], occ)
  }

  function FreeIn(layout: Layout, occ: Occupancy, comp: string): seq<string> {
    FreeOf(SeatsIn(layout, comp), occ)
  }

  /** The unoccupied seats of a compartment; of the cabin, for an empty name. */
  function FreeCount(layout: Layout, occ: Occupancy, comp: string): nat {
    if layout == [] then 0
    else
      (if comp == "" || layout[0].compartment == comp then |FreeOf(SectionSeats(layout[0], layout[0].fromRow), occ)| else 0)
      + FreeCount(layout[1..], occ, comp)
  }

  // ---------------------------------------------------------------- assignment

  function First<T>(xs: seq<T>, n: nat): (r: seq<T>)
    ensures |r| <= n
  {
    if |xs| <= n then xs else xs[..n]
  }

  /** The first block with room for n. */
  function FirstFit(blocks: seq<seq<string>>, occ: Occupancy, n: nat): (seats: Option<seq<string>>)
    ensures seats.Some? ==> |seats.value| == n
  {
    if blocks == [] then None
    else if |FreeOf(blocks[0], occ)| >= n then Some(FreeOf(blocks[0], occ)[..n])
    else FirstFit(blocks[1..], occ, n)
  }

  /** Together in one block if some block has room, otherwise the first free seats in
      cabin order. None: not enough seats. */
  function Assigned(layout: Layout, occ: Occupancy, comp: string, n: int): (seats: Option<seq<string>>)
    ensures seats.Some? ==> |seats.value| == if n <= 0 then 0 else n
  {
    if n <= 0 then Some([])
    else
      match FirstFit(Blocks(layout, comp), occ, n)
      case Some(seats) => Some(seats)
      case None =>
        var free := FreeIn(layout, occ, comp);
        if |free| >= n then Some(free[..n]) else None
  }

  // ---------------------------------------------------------------- the cabin

  datatype SeatError = NoSuchSeat | SeatTaken

  class Cabin {
    const layout: Layout
    var occupied: Occupancy

    constructor (layout: Layout)
      ensures this.layout == layout && occupied == map[]
    {
      this.layout := layout;
      occupied := map[];
    }

    method Has(seat: string) returns (comp: Option<string>)
      ensures comp == SeatCompartment(layout, seat)
    {
      var at := SplitSeat(seat);
      if at.None? {
        return None;
      }
      for i := 0 to |layout|
        invariant CompartmentAt(layout, at.value.0, at.value.1) == CompartmentAt(layout[i..], at.value.0, at.value.1)
      {
        assert layout[i..][0] == layout[i] && layout[i..][1..] == layout[i + 1..];
        if HasLetter(layout[i], at.value.0, at.value.1) {
          return Some(layout[i].compartment);
        }
      }
      comp := None;
    }

    method FreeInRow(row: int, letters: string) returns (free: seq<string>)
      ensures free == FreeOf(RowSeats(row, letters), occupied)
    {
      hide FreeOf, RowSeats, SeatName;
      free := [];
      for i := 0 to |letters|
        invariant free + FreeOf(RowSeats(row, letters[i..]), occupied) == FreeOf(RowSeats(row, letters), occupied)
      {
        assert letters[i..][0] == letters[i] && letters[i..][1..] == letters[i + 1..];
        ghost var rest := FreeOf(RowSeats(row, letters[i + 1..]), occupied);
        RowSeatsFree(row, letters[i..], occupied);
        assert [] + rest == rest;
        if letters[i] != ' ' {
          var seat := SeatName(row, letters[i]);
          if seat !in occupied {
            AddAssoc(free, [seat], rest);
            free := free + [seat];
          }
        }
      }
      assert letters[|letters|..] == [];
      NoLetters(row, occupied);
    }

    method Free(comp: string) returns (n: nat)
      ensures n == FreeCount(layout, occupied, comp)
    {
      n := 0;
      for i := 0 to |layout|
        invariant n + FreeCount(layout[i..], occupied, comp) == FreeCount(layout, occupied, comp)
      {
        var s := layout[i];
        assert layout[i..][0] == s && layout[i..][1..] == layout[i + 1..];
        if comp == "" || s.compartment == comp {
          var row := s.fromRow;
          while row <= s.toRow
            invariant n + |FreeOf(SectionSeats(s, row), occupied)| + FreeCount(layout[i + 1..], occupied, comp)
                   == FreeCount(layout, occupied, comp)
            decreases s.toRow - row
          {
            FreeConcat(RowSeats(row, s.letters), SectionSeats(s, row + 1), occupied);
            var free := FreeInRow(row, s.letters);
            n := n + |free|;
            row := row + 1;
          }
        }
      }
      assert layout[|layout|..] == [];
    }

    /** One row's blocks, front to back. */
    method FitInRow(row: int, blocks: seq<string>, n: nat, ghost behind: seq<seq<string>>) returns (seats: Option<seq<string>>)
      ensures FirstFit(BlockSeats(row, blocks) + behind, occupied, n)
           == if seats.Some? then seats else FirstFit(behind, occupied, n)
    {
      for i := 0 to |blocks|
        invariant FirstFit(BlockSeats(row, blocks) + behind, occupied, n)
               == FirstFit(BlockSeats(row, blocks[i..]) + behind, occupied, n)
      {
        assert blocks[i..][0] == blocks[i] && blocks[i..][1..] == blocks[i + 1..];
        BlockStep(row, blocks[i..], behind, occupied, n);
        var free := FreeInRow(row, blocks[i]);
        if |free| >= n {
          return Some(free[..n]);
        }
      }
      assert blocks[|blocks|..] == [] && [] + behind == behind;
      seats := None;
    }

    /** A block of one row with room for the whole party, front to back. */
    method Together(comp: string, n: nat) returns (seats: Option<seq<string>>)
      ensures seats == FirstFit(Blocks(layout, comp), occupied, n)
    {
      hide FirstFit, BlockSeats, FreeOf, RowSeats, Fields;
      for i := 0 to |layout|
        invariant FirstFit(Blocks(layout, comp), occupied, n) == FirstFit(Blocks(layout[i..], comp), occupied, n)
      {
        var s := layout[i];
        ghost var behind := Blocks(layout[i + 1..], comp);
        assert layout[i..][0] == s && layout[i..][1..] == layout[i + 1..];
        assert [] + behind == behind;
        if s.compartment == comp {
          var row := s.fromRow;
          while row <= s.toRow
            invariant FirstFit(Blocks(layout, comp), occupied, n) == FirstFit(SectionBlocks(s, row) + behind, occupied, n)
            decreases s.toRow - row
          {
            AddAssoc(BlockSeats(row, Fields(s.letters)), SectionBlocks(s, row + 1), behind);
            seats := FitInRow(row, Fields(s.letters), n, SectionBlocks(s, row + 1) + behind);
            if seats.Some? {
              return;
            }
            row := row + 1;
          }
        }
      }
      assert layout[|layout|..] == [];
      NoBlocks(occupied, n);
      seats := None;
    }

    /** The first n free seats of a compartment, or all there are. */
    method Scattered(comp: string, n: nat) returns (out: seq<string>)
      ensures out == First(FreeIn(layout, occupied, comp), n)
    {
      hide FreeOf, RowSeats, First;
      out := [];
      for i := 0 to |layout|
        invariant |out| <= n
        invariant out + First(FreeIn(layout[i..], occupied, comp), n - |out|) == First(FreeIn(layout, occupied, comp), n)
      {
        var s := layout[i];
        ghost var behind := SeatsIn(layout[i + 1..], comp);
        assert layout[i..][0] == s && layout[i..][1..] == layout[i + 1..];
        assert [] + behind == behind;
        if s.compartment == comp {
          var row := s.fromRow;
          while row <= s.toRow
            invariant |out| <= n
            invariant out + First(FreeOf(SectionSeats(s, row) + behind, occupied), n - |out|)
                   == First(FreeIn(layout, occupied, comp), n)
            decreases s.toRow - row
          {
            ghost var rest := SectionSeats(s, row + 1) + behind;
            RowStep(s, row, behind, occupied);
            var free := FreeInRow(row, s.letters);
            FirstSteps(out, free, FreeOf(rest, occupied), n);
            out := out + First(free, n - |out|);
            row := row + 1;
          }
        }
      }
      assert layout[|layout|..] == [];
      NothingLeft(occupied, n - |out|);
    }

    /** Finds seats for a party; Take marks them. */
    method Assign(comp: string, n: int) returns (seats: Option<seq<string>>)
      ensures seats == Assigned(layout, occupied, comp, n)
    {
      if n <= 0 {
        return Some([]);
      }
      seats := Together(comp, n);
      if seats.Some? {
        return;
      }
      var out := Scattered(comp, n);
      if |out| < n {
        return None;
      }
      assert |FreeIn(layout, occupied, comp)| == n ==> FreeIn(layout, occupied, comp)[..n] == FreeIn(layout, occupied, comp);
      seats := Some(out);
    }

    method Take(seat: string, id: int) returns (error: Option<SeatError>)
      modifies this
      ensures error == TakeError(layout, old(occupied), seat, id)
      ensures occupied == if error.None? then old(occupied)[seat := id] else old(occupied)
    {
      var comp := Has(seat);
      if comp.None? {
        return Some(NoSuchSeat);
      }
      if seat in occupied && occupied[seat] != id {
        return Some(SeatTaken);
      }
      occupied := occupied[seat := id];
      error := None;
    }

    method Release(seat: string)
      modifies this
      ensures occupied == old(occupied) - {seat}
    {
      occupied := occupied - {seat};
    }
  }

  function TakeError(layout: Layout, occ: Occupancy, seat: string, id: int): Option<SeatError> {
    if SeatCompartment(layout, seat).None? then Some(NoSuchSeat)
    else if seat in occ && occ[seat] != id then Some(SeatTaken)
    else None
  }

  // ---------------------------------------------------------------- steps of the scans

  lemma {:induction false} FreeConcat(xs: seq<string>, ys: seq<string>, occ: Occupancy)
    ensures FreeOf(xs + ys, occ) == FreeOf(xs, occ) + FreeOf(ys, occ)
    decreases |xs|
  {
    if xs == [] {
      assert xs + ys == ys;
    } else {
      assert (xs + ys)[0] == xs[0] && (xs + ys)[1..] == xs[1..] + ys;
      FreeConcat(xs[1..], ys, occ);
    }
  }

  /** One letter on. */
  lemma RowSeatsFree(row: int, letters: string, occ: Occupancy)
    requires letters != ""
    ensures FreeOf(RowSeats(row, letters), occ)
         == (if letters[0] == ' ' || SeatName(row, letters[0]) in occ then [] else [SeatName(row, letters[0])])
            + FreeOf(RowSeats(row, letters[1..]), occ)
  {
    hide SeatName;
    var rest := RowSeats(row, letters[1..]);
    if letters[0] == ' ' {
      assert RowSeats(row, letters) == rest;
    } else {
      var seats := [SeatName(row, letters[0])] + rest;
      assert seats[1..] == rest;
    }
  }

  lemma NoLetters(row: int, occ: Occupancy)
    ensures FreeOf(RowSeats(row, ""), occ) == []
  {
  }

  lemma NoBlocks(occ: Occupancy, n: nat)
    ensures FirstFit([], occ, n) == None
  {
  }

  lemma BlockStep(row: int, blocks: seq<string>, behind: seq<seq<string>>, occ: Occupancy, n: nat)
    requires blocks != []
    ensures var free := FreeOf(RowSeats(row, blocks[0]), occ);
            FirstFit(BlockSeats(row, blocks) + behind, occ, n)
            == if |free| >= n then Some(free[..n]) else FirstFit(BlockSeats(row, blocks[1..]) + behind, occ, n)
  {
    hide RowSeats, FreeOf;
    var all := BlockSeats(row, blocks) + behind;
    assert all[0] == RowSeats(row, blocks[0]) && all[1..] == BlockSeats(row, blocks[1..]) + behind;
  }

  lemma RowStep(s: Section, row: int, behind: seq<string>, occ: Occupancy)
    requires row <= s.toRow
    ensures FreeOf(SectionSeats(s, row) + behind, occ)
         == FreeOf(RowSeats(row, s.letters), occ) + FreeOf(SectionSeats(s, row + 1) + behind, occ)
  {
    hide FreeOf, RowSeats;
    AddAssoc(RowSeats(row, s.letters), SectionSeats(s, row + 1), behind);
    FreeConcat(RowSeats(row, s.letters), SectionSeats(s, row + 1) + behind, occ);
  }

  lemma NothingLeft(occ: Occupancy, n: nat)
    ensures First(FreeOf([], occ), n) == []
  {
  }

  lemma FirstSteps<T>(out: seq<T>, xs: seq<T>, ys: seq<T>, n: nat)
    requires |out| <= n
    ensures var next := out + First(xs, n - |out|);
            |next| <= n && next + First(ys, n - |next|) == out + First(xs + ys, n - |out|)
  {
  }
}
