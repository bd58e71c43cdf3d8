/** Time as whole ticks, half-open blocks of it, and how much of them a look-back
    window holds as it slides. */
module CrewTime {
  import opened Arithmetic

  type Time = int

  /** A block of activity: [start, end). One that ends before it starts covers nothing. */
  datatype Block = Block(start: Time, end: Time)

  predicate Covers(b: Block, x: Time) {
    b.start <= x < b.end
  }

  /** The length of [a, b) inside [from, to). */
  function Overlap(a: Time, b: Time, from: Time, to: Time): nat {
    var start := if a < from then from else a;
    var end := if b > to then to else b;
    if end <= start then 0 else end - start
  }

  /** The block time inside [from, to). */
  function TimeIn(bs: seq<Block>, from: Time, to: Time): nat {
    if bs == [] then 0
    else
      var b := bs[|bs| - 1];
      TimeIn(bs[..|bs| - 1], from, to) + Overlap(b.start, b.end, from, to)
  }

  predicate Within(x: Time, lo: Time, hi: Time) {
    lo <= x < hi
  }

  ghost function Ticks(lo: Time, hi: Time): set<Time> {
    set x | lo <= x < hi && Within(x, lo, hi)
  }

  lemma {:induction false} TickCount(lo: Time, hi: Time)
    requires lo <= hi
    ensures |Ticks(lo, hi)| == hi - lo
    decreases hi - lo
  {
    if lo < hi {
      TickCount(lo, hi - 1);
      assert Ticks(lo, hi) == Ticks(lo, hi - 1) + {hi - 1};
    }
  }

  /** Overlap counts the ticks the two intervals have in common. */
  lemma OverlapCountsTicks(b: Block, from: Time, to: Time)
    ensures Overlap(b.start, b.end, from, to) == |set x | x in Ticks(from, to) && Covers(b, x)|
  {
    var lo, hi := Max(b.start, from), if b.end > to then to else b.end;
    assert (set x | x in Ticks(from, to) && Covers(b, x)) == Ticks(lo, hi);
    if lo <= hi {
      TickCount(lo, hi);
    }
  }

  lemma {:induction false} TimeSplits(bs: seq<Block>, from: Time, mid: Time, to: Time)
    requires from <= mid <= to
    ensures TimeIn(bs, from, to) == TimeIn(bs, from, mid) + TimeIn(bs, mid, to)
    decreases |bs|
  {
    if bs != [] {
      TimeSplits(bs[..|bs| - 1], from, mid, to);
    }
  }

  lemma {:induction false} TimeConcat(xs: seq<Block>, ys: seq<Block>, from: Time, to: Time)
    ensures TimeIn(xs + ys, from, to) == TimeIn(xs, from, to) + TimeIn(ys, from, to)
    decreases |ys|
  {
    if ys == [] {
      assert xs + ys == xs;
    } else {
      assert (xs + ys)[..|xs| + |ys| - 1] == xs + ys[..|ys| - 1];
      TimeConcat(xs, ys[..|ys| - 1], from, to);
    }
  }

  /** No two blocks share a tick. */
  ghost predicate Apart(bs: seq<Block>) {
    forall i, j, x: Time | 0 <= i < j < |bs| && Covers(bs[i], x) :: !Covers(bs[j], x)
  }

  ghost predicate Idle(bs: seq<Block>, x: Time) {
    forall b | b in bs :: !Covers(b, x)
  }

  /** Blocks apart fill a tick at most once, and a covered tick exactly once. */
  lemma {:induction false} BusyTick(bs: seq<Block>, x: Time)
    requires Apart(bs)
    ensures TimeIn(bs, x, x + 1) == if Idle(bs, x) then 0 else 1
    decreases |bs|
  {
    if bs != [] {
      var init, last := bs[..|bs| - 1], bs[|bs| - 1];
      assert last in bs;
      BusyTick(init, x);
      assert forall b :: b in bs <==> b in init || b == last;
      if Covers(last, x) {
        forall b | b in init ensures !Covers(b, x) {
          var i :| 0 <= i < |init| && init[i] == b;
          assert bs[i] == b;
        }
      }
    }
  }

  /** The block time in the window of the given span that ends at t. */
  function Ending(bs: seq<Block>, span: nat, t: Time): nat {
    TimeIn(bs, t - span, t)
  }

  /** One tick on, the window gains the tick at its end and loses the one at its start. */
  lemma Slide(bs: seq<Block>, span: nat, t: Time)
    ensures Ending(bs, span, t + 1) + TimeIn(bs, t - span, t - span + 1) == Ending(bs, span, t) + TimeIn(bs, t, t + 1)
  {
    TimeSplits(bs, t - span, t, t + 1);
    TimeSplits(bs, t - span, t - span + 1, t + 1);
  }

  /** While a block runs the total never falls. */
  lemma {:induction false} Rising(bs: seq<Block>, span: nat, b: Block, t: Time, u: Time)
    requires Apart(bs) && b in bs && b.start <= t <= u <= b.end
    ensures Ending(bs, span, t) <= Ending(bs, span, u)
    decreases u - t
  {
    if t < u {
      Slide(bs, span, t);
      assert Covers(b, t);
      BusyTick(bs, t);
      BusyTick(bs, t - span);
      Rising(bs, span, b, t + 1, u);
    }
  }

  // ---------------------------------------------------------------- the worst point

  /** The new blocks run forwards and start no earlier than any old one ends; none overlap. */
  ghost predicate Follows(old_: seq<Block>, new_: seq<Block>) {
    && Apart(old_ + new_)
    && (forall b | b in new_ :: b.start <= b.end)
    && (forall a, b | a in old_ && b in new_ :: a.end <= b.start)
  }

  /** A new block that is running in the tick before t, if any is. */
  ghost predicate RunsBefore(new_: seq<Block>, b: Block, t: Time) {
    b in new_ && Covers(b, t - 1)
  }

  /** From the start of any new block on, no instant is worse than the end of some
      new block: the sliding window is worst at the end of a block. */
  lemma {:induction false} WorstAtAnEnd(old_: seq<Block>, new_: seq<Block>, span: nat, first: Block, t: Time) returns (worst: Block)
    requires Follows(old_, new_) && first in new_ && first.start <= t
    ensures worst in new_ && Ending(old_ + new_, span, t) <= Ending(old_ + new_, span, worst.end)
    decreases t - first.start
  {
    var all := old_ + new_;
    if t == first.start {
      Rising(all, span, first, t, first.end);
      worst := first;
    } else if b :| RunsBefore(new_, b, t) {
      assert b in all;
      Rising(all, span, b, t, b.end);
      worst := b;
    } else {
      worst := WorstAtAnEnd(old_, new_, span, first, t - 1);
      forall b | b in all ensures !Covers(b, t - 1) {
        assert b in old_ || b in new_;
        assert !RunsBefore(new_, b, t);
      }
      BusyTick(all, t - 1);
      Slide(all, span, t - 1);
    }
  }

  // ---------------------------------------------------------------- calendar days

  /** A day in nanoseconds; days are counted in the clock's own zone, without
      daylight-saving changes. */
  const DAY := 86_400_000_000_000

  function DayOf(t: Time): int {
    t / DAY
  }

  /** The block time in the n days that end with the given one. */
  function InDays(bs: seq<Block>, n: nat, day: int): nat {
    TimeIn(bs, (day + 1 - n) * DAY, (day + 1) * DAY)
  }

  lemma {:induction false} IdleStretch(bs: seq<Block>, from: Time, to: Time)
    requires forall b | b in bs :: Overlap(b.start, b.end, from, to) == 0
    ensures TimeIn(bs, from, to) == 0
    decreases |bs|
  {
    if bs != [] {
      assert bs[|bs| - 1] in bs;
      forall b | b in bs[..|bs| - 1] ensures Overlap(b.start, b.end, from, to) == 0 {
        assert b in bs;
      }
      IdleStretch(bs[..|bs| - 1], from, to);
    }
  }

  /** One day on, the window gains the day at its end and loses the one at its start. */
  lemma SlideDay(bs: seq<Block>, n: nat, day: int)
    ensures InDays(bs, n, day) + TimeIn(bs, (day - n) * DAY, (day + 1 - n) * DAY)
         == InDays(bs, n, day - 1) + TimeIn(bs, day * DAY, (day + 1) * DAY)
  {
    TimeSplits(bs, (day - n) * DAY, day * DAY, (day + 1) * DAY);
    TimeSplits(bs, (day - n) * DAY, (day + 1 - n) * DAY, (day + 1) * DAY);
  }

  /** Blocks apart never fill a stretch more than once. */
  lemma {:induction false} NeverOverfull(bs: seq<Block>, from: Time, upTo: Time)
    requires Apart(bs) && from <= upTo
    ensures TimeIn(bs, from, upTo) <= upTo - from
    decreases upTo - from
  {
    if from == upTo {
      IdleStretch(bs, from, upTo);
    } else {
      assert TimeIn(bs, upTo - 1, upTo) <= 1 by {
        BusyTick(bs, upTo - 1);
      }
      TimeSplits(bs, from, upTo - 1, upTo);
      NeverOverfull(bs, from, upTo - 1);
    }
  }

  lemma {:induction false} AtLeastOne(bs: seq<Block>, b: Block, from: Time, to: Time)
    requires b in bs
    ensures Overlap(b.start, b.end, from, to) <= TimeIn(bs, from, to)
    decreases |bs|
  {
    if bs[|bs| - 1] != b {
      AtLeastOne(bs[..|bs| - 1], b, from, to);
    }
  }

  /** The last instant of a block's last day but one; its start when it runs in one day. */
  function Eve(b: Block): Time {
    Max(b.start, DayOf(b.end) * DAY - 1)
  }

  lemma EveDay(b: Block)
    requires b.start <= b.end
    ensures DayOf(Eve(b)) == if DayOf(b.start) < DayOf(b.end) then DayOf(b.end) - 1 else DayOf(b.end)
  {
  }

  /** Over days a block fills from midnight to midnight the total never falls. */
  lemma {:induction false} RisingDays(bs: seq<Block>, n: nat, b: Block, day: int, last: int)
    requires Apart(bs) && b in bs && DayOf(b.start) <= day <= last < DayOf(b.end)
    ensures InDays(bs, n, day) <= InDays(bs, n, last)
    decreases last - day
  {
    if day < last {
      SlideDay(bs, n, day + 1);
      AtLeastOne(bs, b, (day + 1) * DAY, (day + 2) * DAY);
      NeverOverfull(bs, (day + 1 - n) * DAY, (day + 2 - n) * DAY);
      RisingDays(bs, n, b, day + 1, last);
    }
  }

  /** A block that runs on the day but neither ends on it nor on the day after. */
  predicate RunsThrough(b: Block, day: int) {
    DayOf(b.start) <= day < DayOf(b.end) - 1
  }

  /** Nothing of the block falls on the day. */
  predicate Untouched(b: Block, day: int) {
    Overlap(b.start, b.end, day * DAY, (day + 1) * DAY) == 0
  }

  lemma DayUntouched(b: Block, day: int)
    requires b.start <= b.end && DayOf(b.end) != day && DayOf(Eve(b)) != day && !RunsThrough(b, day)
    ensures Untouched(b, day)
  {
    EveDay(b);
  }

  lemma TouchesItsStart(b: Block)
    requires b.start <= b.end
    ensures DayOf(b.end) == DayOf(b.start) || DayOf(Eve(b)) == DayOf(b.start) || RunsThrough(b, DayOf(b.start))
  {
    EveDay(b);
  }

  lemma OverBefore(a: Block, first: Block, day: int)
    requires a.end <= first.start && DayOf(first.start) < day
    ensures Untouched(a, day)
  {
  }

  lemma IdleDay(bs: seq<Block>, n: nat, day: int)
    requires forall b | b in bs :: Untouched(b, day)
    ensures InDays(bs, n, day) <= InDays(bs, n, day - 1)
  {
    hide TimeIn, Overlap;
    IdleStretch(bs, day * DAY, (day + 1) * DAY);
    SlideDay(bs, n, day);
  }

  /** No day from the first new block's on is worse than both the day some new block ends
      on and the day before that one: those two decide, however long the blocks are. */
  lemma {:induction false} WorstOnAnEndOrItsEve(old_: seq<Block>, new_: seq<Block>, n: nat, first: Block, day: int)
    returns (worst: Block)
    requires Follows(old_, new_) && first in new_ && DayOf(first.start) <= day
    ensures worst in new_
    ensures var all := old_ + new_;
            || InDays(all, n, day) <= InDays(all, n, DayOf(worst.end))
            || InDays(all, n, day) <= InDays(all, n, DayOf(Eve(worst)))
    decreases day - DayOf(first.start)
  {
    hide DayOf, Eve, Overlap, Apart, TimeIn, Untouched;
    var all := old_ + new_;
    TouchesItsStart(first);
    if b :| b in new_ && (DayOf(b.end) == day || DayOf(Eve(b)) == day) {
      worst := b;
    } else if b :| b in new_ && RunsThrough(b, day) {
      assert b in all;
      EveDay(b);
      RisingDays(all, n, b, day, DayOf(b.end) - 1);
      worst := b;
    } else {
      forall b | b in new_ ensures Untouched(b, day) {
        DayUntouched(b, day);
      }
      forall b | b in all ensures Untouched(b, day) {
        assert b in old_ || b in new_;
        if b in old_ {
          OverBefore(b, first, day);
        }
      }
      IdleDay(all, n, day);
      worst := WorstOnAnEndOrItsEve(old_, new_, n, first, day - 1);
    }
  }
}
