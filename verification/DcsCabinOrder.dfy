/** The order seats are given in: front to back, left to right, the first block with room
    first; and that a seat taken stays its taker's. */
module DcsCabinOrder {
  import opened Wrappers
  import opened DcsCabin
  import opened DcsSeating

  // ---------------------------------------------------------------- front to back

  predicate Precedes(xs: seq<string>, x: string, y: string) {
    exists i, j | 0 <= i < j < |xs| :: xs[i] == x && xs[j] == y
  }

  lemma PrecedesAcross(xs: seq<string>, ys: seq<string>, x: string, y: string)
    requires x in xs && y in ys
    ensures Precedes(xs + ys, x, y)
  {
    var i :| 0 <= i < |xs| && xs[i] == x;
    var j :| 0 <= j < |ys| && ys[j] == y;
    assert (xs + ys)[i] == x && (xs + ys)[|xs| + j] == y;
  }

  lemma PrecedesLeft(xs: seq<string>, ys: seq<string>, x: string, y: string)
    requires Precedes(xs, x, y)
    ensures Precedes(xs + ys, x, y)
  {
    var i, j :| 0 <= i < j < |xs| && xs[i] == x && xs[j] == y;
    assert (xs + ys)[i] == x && (xs + ys)[j] == y;
  }

  lemma PrecedesRight(xs: seq<string>, ys: seq<string>, x: string, y: string)
    requires Precedes(ys, x, y)
    ensures Precedes(xs + ys, x, y)
  {
    var i, j :| 0 <= i < j < |ys| && ys[i] == x && ys[j] == y;
    assert (xs + ys)[|xs| + i] == x && (xs + ys)[|xs| + j] == y;
  }

  lemma {:induction false} SeatInRow(row: int, letters: string, p: nat)
    requires p < |letters| && letters[p] != ' '
    ensures SeatName(row, letters[p]) in RowSeats(row, letters)
    decreases |letters|
  {
    hide SeatName;
    if p > 0 {
      SeatInRow(row, letters[1..], p - 1);
    }
  }

  lemma LeftToRight(row: int, letters: string, p: nat, q: nat)
    requires p < q < |letters| && letters[p] != ' ' && letters[q] != ' '
    ensures Precedes(RowSeats(row, letters), SeatName(row, letters[p]), SeatName(row, letters[q]))
  {
    hide SeatName, RowSeats, Precedes;
    var left, right := letters[..p + 1], letters[p + 1..];
    assert letters == left + right && left[p] == letters[p] && right[q - p - 1] == letters[q];
    RowSeatsAdd(row, left, right);
    SeatInRow(row, left, p);
    SeatInRow(row, right, q - p - 1);
    PrecedesAcross(RowSeats(row, left), RowSeats(row, right), SeatName(row, letters[p]), SeatName(row, letters[q]));
  }

  lemma {:induction false} SeatInSection(s: Section, from: int, row: int, p: nat)
    requires from <= row <= s.toRow && p < |s.letters| && s.letters[p] != ' '
    ensures SeatName(row, s.letters[p]) in SectionSeats(s, from)
    decreases row - from
  {
    hide SeatName, RowSeats;
    if from == row {
      SeatInRow(row, s.letters, p);
    } else {
      SeatInSection(s, from + 1, row, p);
    }
  }

  lemma {:induction false} SectionFrontToBack(s: Section, from: int, row: int, row2: int, p: nat, q: nat)
    requires from <= row <= row2 <= s.toRow && p < |s.letters| && q < |s.letters|
    requires s.letters[p] != ' ' && s.letters[q] != ' ' && (row == row2 ==> p < q)
    ensures Precedes(SectionSeats(s, from), SeatName(row, s.letters[p]), SeatName(row2, s.letters[q]))
    decreases row - from
  {
    hide SeatName, RowSeats, Precedes;
    var x, y := SeatName(row, s.letters[p]), SeatName(row2, s.letters[q]);
    if from < row {
      SectionFrontToBack(s, from + 1, row, row2, p, q);
      PrecedesRight(RowSeats(from, s.letters), SectionSeats(s, from + 1), x, y);
    } else if row == row2 {
      LeftToRight(row, s.letters, p, q);
      PrecedesLeft(RowSeats(from, s.letters), SectionSeats(s, from + 1), x, y);
    } else {
      SeatInRow(row, s.letters, p);
      SeatInSection(s, from + 1, row2, q);
      PrecedesAcross(RowSeats(from, s.letters), SectionSeats(s, from + 1), x, y);
    }
  }

  /** A seat of a section, by row and place in it. */
  predicate SeatOf(s: Section, comp: string, row: int, p: nat) {
    s.compartment == comp && s.fromRow <= row <= s.toRow && p < |s.letters| && s.letters[p] != ' '
  }

  lemma {:induction false} SeatInLayout(layout: Layout, comp: string, i: nat, row: int, p: nat)
    requires i < |layout| && SeatOf(layout[i], comp, row, p)
    ensures SeatName(row, layout[i].letters[p]) in SeatsIn(layout, comp)
    decreases |layout|
  {
    hide SeatName, SectionSeats;
    if i == 0 {
      SeatInSection(layout[0], layout[0].fromRow, row, p);
    } else {
      SeatInLayout(layout[1..], comp, i - 1, row, p);
    }
  }

  /** The seats of a compartment are listed by section, then by row, then left to right. */
  lemma {:induction false} SeatsFrontToBack(layout: Layout, comp: string, i: nat, j: nat, row: int, row2: int, p: nat, q: nat)
    requires i <= j < |layout| && SeatOf(layout[i], comp, row, p) && SeatOf(layout[j], comp, row2, q)
    requires i == j ==> row < row2 || (row == row2 && p < q)
    ensures Precedes(SeatsIn(layout, comp), SeatName(row, layout[i].letters[p]), SeatName(row2, layout[j].letters[q]))
    decreases |layout|
  {
    hide SeatName, SectionSeats, Precedes;
    var x, y := SeatName(row, layout[i].letters[p]), SeatName(row2, layout[j].letters[q]);
    var here := if layout[0].compartment == comp then SectionSeats(layout[0], layout[0].fromRow) else [];
    if i > 0 {
      SeatsFrontToBack(layout[1..], comp, i - 1, j - 1, row, row2, p, q);
      PrecedesRight(here, SeatsIn(layout[1..], comp), x, y);
    } else if j > 0 {
      SeatInSection(layout[0], layout[0].fromRow, row, p);
      SeatInLayout(layout[1..], comp, j - 1, row2, q);
      PrecedesAcross(here, SeatsIn(layout[1..], comp), x, y);
    } else {
      SectionFrontToBack(layout[0], layout[0].fromRow, row, row2, p, q);
      PrecedesLeft(here, SeatsIn(layout[1..], comp), x, y);
    }
  }

  // ---------------------------------------------------------------- the first block with room

  lemma {:induction false} FirstFitIsFirst(blocks: seq<seq<string>>, occ: Occupancy, n: nat, k: nat)
    requires k < |blocks| && |FreeOf(blocks[k], occ)| >= n && forall i | 0 <= i < k :: |FreeOf(blocks[i], occ)| < n
    ensures FirstFit(blocks, occ, n) == Some(FreeOf(blocks[k], occ)[..n])
    decreases k
  {
    hide FreeOf;
    if k > 0 {
      FirstFitIsFirst(blocks[1..], occ, n, k - 1);
    }
  }

  lemma {:induction false} NoFit(blocks: seq<seq<string>>, occ: Occupancy, n: nat)
    requires forall i | 0 <= i < |blocks| :: |FreeOf(blocks[i], occ)| < n
    ensures FirstFit(blocks, occ, n) == None
    decreases |blocks|
  {
    hide FreeOf;
    if blocks != [] {
      NoFit(blocks[1..], occ, n);
    }
  }

  /** A party is given the first free seats of the first block that has enough; when none
      has, the first free seats of the compartment; when it has too few, nothing. The blocks
      one after the other are the seats of the compartment. */
  lemma FirstSeatsAreGiven(layout: Layout, occ: Occupancy, comp: string, n: nat)
    requires n > 0
    ensures var blocks, free := Blocks(layout, comp), FreeIn(layout, occ, comp);
            && Concat(blocks) == SeatsIn(layout, comp)
            && (forall k | 0 <= k < |blocks| && |FreeOf(blocks[k], occ)| >= n && (forall i | 0 <= i < k :: |FreeOf(blocks[i], occ)| < n) ::
                  Assigned(layout, occ, comp, n) == Some(FreeOf(blocks[k], occ)[..n]))
            && ((forall i | 0 <= i < |blocks| :: |FreeOf(blocks[i], occ)| < n) ==>
                  Assigned(layout, occ, comp, n) == if |free| >= n then Some(free[..n]) else None)
  {
    hide Blocks, FreeOf, FreeIn, SeatsIn;
    var blocks := Blocks(layout, comp);
    BlocksAreSeats(layout, comp);
    forall k | 0 <= k < |blocks| && |FreeOf(blocks[k], occ)| >= n && (forall i | 0 <= i < k :: |FreeOf(blocks[i], occ)| < n)
      ensures Assigned(layout, occ, comp, n) == Some(FreeOf(blocks[k], occ)[..n])
    {
      FirstFitIsFirst(blocks, occ, n, k);
    }
    if forall i | 0 <= i < |blocks| :: |FreeOf(blocks[i], occ)| < n {
      NoFit(blocks, occ, n);
    }
  }

  // ---------------------------------------------------------------- taking

  /** Once taken, a seat can be taken again by its taker and by nobody else. */
  lemma TakenForKeeps(layout: Layout, occ: Occupancy, seat: string, id: int, other: int)
    requires TakeError(layout, occ, seat, id) == None
    ensures TakeError(layout, occ[seat := id], seat, other) == if other == id then None else Some(SeatTaken)
  {
  }
}
