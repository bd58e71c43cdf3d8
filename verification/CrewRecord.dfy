/** A crew member's past: the periods filed, trimmed and measured. */
module CrewRecord {
  import opened Arithmetic
  import opened Wrappers
  import opened Sequences
  import opened CrewTime

  datatype Leg = Leg(flight: string, depart: Time, arrive: Time)

  /** Flight duty counts toward the duty limits; reserve and other duty only break rest. */
  datatype Kind = FlightDuty | Reserve | OtherDuty

  datatype Period = Period(kind: Kind, report: Time, release: Time, legs: seq<Leg>)

  function BlocksOf(legs: seq<Leg>): (bs: seq<Block>)
    ensures |bs| == |legs| && forall i | 0 <= i < |bs| :: bs[i] == Block(legs[i].depart, legs[i].arrive)
  {
    seq(|legs|, i requires 0 <= i < |legs| => Block(legs[i].depart, legs[i].arrive))
  }

  /** Every block flown. */
  function Flown(ps: seq<Period>): seq<Block> {
    if ps == [] then [] else Flown(ps[..|ps| - 1]) + BlocksOf(ps[|ps| - 1].legs)
  }

  function DutyBlock(p: Period): seq<Block> {
    if p.kind == FlightDuty then [Block(p.report, p.release)] else []
  }

  /** Every flight duty period. */
  function OnDuty(ps: seq<Period>): seq<Block> {
    if ps == [] then [] else OnDuty(ps[..|ps| - 1]) + DutyBlock(ps[|ps| - 1])
  }

  predicate InOrder(ps: seq<Period>) {
    forall i, j | 0 <= i < j < |ps| :: ps[i].report <= ps[j].report
  }

  /** Filed behind one that reports no later and ahead of one that reports later. */
  ghost predicate FiledAt(before: seq<Period>, p: Period, after: seq<Period>, i: nat) {
    && i <= |before| && after == before[..i] + [p] + before[i..]
    && (i > 0 ==> before[i - 1].report <= p.report)
    && (i < |before| ==> before[i].report > p.report)
  }

  ghost predicate Filed(before: seq<Period>, p: Period, after: seq<Period>) {
    exists i: nat :: FiledAt(before, p, after, i)
  }

  /** The periods not released before the time. */
  function Kept(ps: seq<Period>, before: Time): seq<Period> {
    if ps == [] then []
    else
      var p := ps[|ps| - 1];
      Kept(ps[..|ps| - 1], before) + (if p.release >= before then [p] else [])
  }

  /** The period released last at or before the time: its report and release. Of
      several released at once it is the first filed. */
  function LastReleased(ps: seq<Period>, before: Time): Option<(Time, Time)> {
    if ps == [] then None
    else
      var p, earlier := ps[|ps| - 1], LastReleased(ps[..|ps| - 1], before);
      if p.release <= before && (earlier.None? || p.release > earlier.value.1) then Some((p.report, p.release)) else earlier
  }

  // ---------------------------------------------------------------- time free of duty

  /** No period meets the open interval (u, v). */
  ghost predicate FreeOf(bs: seq<Block>, u: Time, v: Time) {
    forall b | b in bs :: v <= b.start || b.end <= u
  }

  ghost predicate GapAt(bs: seq<Block>, from: Time, to: Time, n: nat, u: Time) {
    from <= u && u + n <= to && FreeOf(bs, u, u + n)
  }

  ghost predicate HasGap(bs: seq<Block>, from: Time, to: Time, n: nat) {
    exists u :: GapAt(bs, from, to, n, u)
  }

  ghost function LongestGapUpTo(bs: seq<Block>, from: Time, to: Time, n: nat): (longest: nat)
    ensures longest <= n
  {
    if n == 0 || HasGap(bs, from, to, n) then n else LongestGapUpTo(bs, from, to, n - 1)
  }

  /** The longest free stretch in the window, found by trying every length. */
  ghost function LongestGap(bs: seq<Block>, from: Time, to: Time): nat {
    LongestGapUpTo(bs, from, to, if from < to then to - from else 0)
  }

  function Busy(ps: seq<Period>): (bs: seq<Block>)
    ensures |bs| == |ps| && forall i | 0 <= i < |bs| :: bs[i] == Block(ps[i].report, ps[i].release)
  {
    seq(|ps|, i requires 0 <= i < |ps| => Block(ps[i].report, ps[i].release))
  }

  lemma {:induction false} LongestIs(bs: seq<Block>, from: Time, to: Time, n: nat, best: nat)
    requires best <= n && (best > 0 ==> HasGap(bs, from, to, best))
    requires forall k: nat | best < k :: !HasGap(bs, from, to, k)
    ensures LongestGapUpTo(bs, from, to, n) == best
    decreases n
  {
    if n > best {
      LongestIs(bs, from, to, n - 1, best);
    }
  }

  /** Only the periods that reach into the window matter. */
  lemma GapsDependOnlyOnThoseInside(bs: seq<Block>, cs: seq<Block>, from: Time, to: Time)
    requires forall b: Block | b.end > from && b.start < to :: b in bs <==> b in cs
    ensures LongestGap(bs, from, to) == LongestGap(cs, from, to)
  {
    forall n: nat ensures HasGap(bs, from, to, n) <==> HasGap(cs, from, to, n) {
      forall u ensures GapAt(bs, from, to, n, u) <==> GapAt(cs, from, to, n, u) {
      }
    }
    SameGapsSameLongest(bs, cs, from, to, if from < to then to - from else 0);
  }

  lemma {:induction false} SameGapsSameLongest(bs: seq<Block>, cs: seq<Block>, from: Time, to: Time, n: nat)
    requires forall k: nat :: HasGap(bs, from, to, k) <==> HasGap(cs, from, to, k)
    ensures LongestGapUpTo(bs, from, to, n) == LongestGapUpTo(cs, from, to, n)
    decreases n
  {
    if n > 0 {
      SameGapsSameLongest(bs, cs, from, to, n - 1);
    }
  }

  predicate ByStart(bs: seq<Block>) {
    forall i, j | 0 <= i < j < |bs| :: bs[i].start <= bs[j].start
  }

  /** Sorts by start; the order of equal starts is left open. */
  method SortByStart(bs: seq<Block>) returns (sorted: seq<Block>)
    ensures ByStart(sorted) && forall b :: b in sorted <==> b in bs
  {
    sorted := [];
    for i := 0 to |bs|
      invariant ByStart(sorted) && forall b :: b in sorted <==> b in bs[..i]
    {
      var k := |sorted|;
      while k > 0 && sorted[k - 1].start > bs[i].start
        invariant 0 <= k <= |sorted| && forall j | k <= j < |sorted| :: sorted[j].start > bs[i].start
      {
        k := k - 1;
      }
      ghost var before := sorted;
      sorted := sorted[..k] + [bs[i]] + sorted[k..];
      Inserted(before, bs[i], k);
      assert bs[..i + 1] == bs[..i] + [bs[i]];
    }
    assert bs[..|bs|] == bs;
  }

  lemma Inserted(bs: seq<Block>, b: Block, k: nat)
    requires ByStart(bs) && k <= |bs|
    requires (k > 0 ==> bs[k - 1].start <= b.start) && forall j | k <= j < |bs| :: bs[j].start > b.start
    ensures ByStart(bs[..k] + [b] + bs[k..])
    ensures forall c :: c in bs[..k] + [b] + bs[k..] <==> c in bs || c == b
  {
    assert bs == bs[..k] + bs[k..];
  }

  /** How far a sweep over blocks sorted by start has come: everything processed ends
      by the cursor, and a free interval that starts before the cursor is no longer
      than the best found. */
  ghost predicate Swept(bs: seq<Block>, i: nat, from: Time, to: Time, cursor: Time, best: nat) {
    && i <= |bs| && from <= cursor
    && (forall k | 0 <= k < i :: bs[k].end <= cursor)
    && (best > 0 ==> HasGap(bs, from, to, best))
    && (forall u, v | FreeOf(bs, u, v) && from <= u < v <= to :: u >= cursor || v - u <= best)
  }

  lemma SweepOne(bs: seq<Block>, i: nat, from: Time, to: Time, cursor: Time, best: nat)
    requires Swept(bs, i, from, to, cursor, best) && i < |bs| && ByStart(bs) && bs[i].start < to
    ensures var gap := bs[i].start - cursor;
            Swept(bs, i + 1, from, to, Max(cursor, bs[i].end), if gap > best then gap else best)
  {
    var b, gap := bs[i], bs[i].start - cursor;
    if gap > best {
      assert GapAt(bs, from, to, gap, cursor);
    }
    forall u, v | FreeOf(bs, u, v) && from <= u < v <= to
      ensures u >= Max(cursor, b.end) || v - u <= Max(gap, best)
    {
      assert b in bs;
    }
  }

  lemma SweepEnds(bs: seq<Block>, from: Time, to: Time, cursor: Time, best: nat)
    requires Swept(bs, |bs|, from, to, cursor, best)
    ensures LongestGap(bs, from, to) == if to - cursor > best then to - cursor else best
  {
    var longest := if to - cursor > best then to - cursor else best;
    if to - cursor > best {
      assert GapAt(bs, from, to, longest, cursor);
    }
    forall k: nat | longest < k ensures !HasGap(bs, from, to, k) {
      forall u ensures !GapAt(bs, from, to, k, u) {
        assert FreeOf(bs, u, u + k) && from <= u < u + k <= to ==> u >= cursor || k <= best;
      }
    }
    LongestIs(bs, from, to, if from < to then to - from else 0, longest);
  }

  /** The longest gap between the periods, which need be neither sorted nor disjoint. */
  method LongestFree(ps: seq<Period>, from: Time, to: Time) returns (best: nat)
    ensures best == LongestGap(Busy(ps), from, to)
  {
    var busy: seq<Block> := [];
    for i := 0 to |ps|
      invariant forall b | b in busy :: b.end > from && b.start < to
      invariant forall b: Block | b.end > from && b.start < to :: b in busy <==> b in Busy(ps)[..i]
    {
      if ps[i].release > from && ps[i].report < to {
        busy := busy + [Block(ps[i].report, ps[i].release)];
      }
      assert Busy(ps)[..i + 1] == Busy(ps)[..i] + [Busy(ps)[i]];
    }
    assert Busy(ps)[..|ps|] == Busy(ps);
    var sorted := SortByStart(busy);
    GapsDependOnlyOnThoseInside(Busy(ps), sorted, from, to);
    best := 0;
    var cursor := from;
    for i := 0 to |sorted|
      invariant Swept(sorted, i, from, to, cursor, best)
    {
      var s := sorted[i];
      assert s in sorted;
      SweepOne(sorted, i, from, to, cursor, best);
      if s.start > cursor && s.start - cursor > best {
        best := s.start - cursor;
      }
      if s.end > cursor {
        cursor := s.end;
      }
    }
    SweepEnds(sorted, from, to, cursor, best);
    if to > cursor && to - cursor > best {
      best := to - cursor;
    }
  }

  // ---------------------------------------------------------------- the record

  lemma FilingKeepsOrder(before: seq<Period>, p: Period, after: seq<Period>)
    requires InOrder(before) && Filed(before, p, after)
    ensures InOrder(after)
  {
    hide FiledAt;
    var k: nat :| FiledAt(before, p, after, k);
    forall i, j | 0 <= i < j < |after| ensures after[i].report <= after[j].report {
      FiledPlace(before, p, after, k, i);
      FiledPlace(before, p, after, k, j);
    }
  }

  /** Who stands where after filing, and on which side of the one filed. */
  lemma FiledPlace(before: seq<Period>, p: Period, after: seq<Period>, k: nat, i: nat)
    requires InOrder(before) && FiledAt(before, p, after, k) && i < |after|
    ensures |after| == |before| + 1 && k <= |before|
    ensures if i < k then after[i] == before[i] && before[i].report <= p.report
            else if i == k then after[i] == p
            else after[i] == before[i - 1] && p.report < before[i - 1].report
  {
  }

  class Record {
    var periods: seq<Period>

    constructor ()
      ensures periods == []
    {
      periods := [];
    }

    /** Files a period in order, found by binary search. */
    method Add(p: Period)
      modifies this
      ensures Filed(old(periods), p, periods)
      ensures old(InOrder(periods)) ==> InOrder(periods)
    {
      var i, j := 0, |periods|;
      while i < j
        invariant 0 <= i <= j <= |periods|
        invariant i > 0 ==> periods[i - 1].report <= p.report
        invariant j < |periods| ==> periods[j].report > p.report
      {
        var h := (i + j) / 2;
        if periods[h].report > p.report {
          j := h;
        } else {
          i := h + 1;
        }
      }
      ghost var before := periods;
      periods := periods[..i] + [p] + periods[i..];
      assert FiledAt(before, p, periods, i);
      if InOrder(before) {
        FilingKeepsOrder(before, p, periods);
      }
    }

    /** Drops the periods released before the time. */
    method Trim(before: Time)
      modifies this
      ensures periods == Kept(old(periods), before)
    {
      var keep: seq<Period> := [];
      for i := 0 to |periods|
        invariant periods == old(periods) && keep == Kept(periods[..i], before)
      {
        ghost var sofar := periods[..i + 1];
        assert sofar[..i] == periods[..i] && sofar[i] == periods[i];
        if periods[i].release >= before {
          keep := keep + [periods[i]];
        }
      }
      assert periods[..|periods|] == periods;
      periods := keep;
    }

    method FlightTime(from: Time, to: Time) returns (sum: nat)
      ensures sum == TimeIn(Flown(periods), from, to)
    {
      sum := 0;
      for i := 0 to |periods|
        invariant sum == TimeIn(Flown(periods[..i]), from, to)
      {
        ghost var sofar, before := periods[..i + 1], sum;
        assert sofar[..i] == periods[..i] && sofar[i] == periods[i];
        var blocks := BlocksOf(periods[i].legs);
        for j := 0 to |blocks|
          invariant sum == before + TimeIn(blocks[..j], from, to)
        {
          ghost var some := blocks[..j + 1];
          assert some[..j] == blocks[..j] && some[j] == blocks[j];
          sum := sum + Overlap(periods[i].legs[j].depart, periods[i].legs[j].arrive, from, to);
        }
        assert blocks[..|blocks|] == blocks;
        TimeConcat(Flown(periods[..i]), blocks, from, to);
      }
      assert periods[..|periods|] == periods;
    }

    /** Flight duty periods only. */
    method DutyTime(from: Time, to: Time) returns (sum: nat)
      ensures sum == TimeIn(OnDuty(periods), from, to)
    {
      sum := 0;
      for i := 0 to |periods|
        invariant sum == TimeIn(OnDuty(periods[..i]), from, to)
      {
        ghost var sofar := periods[..i + 1];
        assert sofar[..i] == periods[..i] && sofar[i] == periods[i];
        OneBlock(Block(periods[i].report, periods[i].release), from, to);
        TimeConcat(OnDuty(periods[..i]), DutyBlock(periods[i]), from, to);
        if periods[i].kind == FlightDuty {
          sum := sum + Overlap(periods[i].report, periods[i].release, from, to);
        }
      }
      assert periods[..|periods|] == periods;
    }

    method LastDuty(before: Time) returns (last: Option<(Time, Time)>)
      ensures last == LastReleased(periods, before)
    {
      last := None;
      for i := 0 to |periods|
        invariant last == LastReleased(periods[..i], before)
      {
        var p := periods[i];
        ghost var sofar := periods[..i + 1];
        assert sofar[..i] == periods[..i] && sofar[i] == p;
        if p.release <= before && (last.None? || p.release > last.value.1) {
          last := Some((p.report, p.release));
        }
      }
      assert periods[..|periods|] == periods;
    }
  }

  lemma OneBlock(b: Block, from: Time, to: Time)
    ensures TimeIn([b], from, to) == Overlap(b.start, b.end, from, to)
  {
    assert [b][..0] == [];
    assert TimeIn([b][..0], from, to) == 0;
  }

  // ---------------------------------------------------------------- what the record keeps

  lemma {:induction false} FlownConcat(xs: seq<Period>, ys: seq<Period>)
    ensures Flown(xs + ys) == Flown(xs) + Flown(ys) && OnDuty(xs + ys) == OnDuty(xs) + OnDuty(ys)
    decreases |ys|
  {
    hide BlocksOf, DutyBlock;
    if ys == [] {
      assert xs + ys == xs;
    } else {
      var init, p := ys[..|ys| - 1], ys[|ys| - 1];
      assert (xs + ys)[..|xs| + |ys| - 1] == xs + init;
      FlownConcat(xs, init);
      AddAssoc(Flown(xs), Flown(init), BlocksOf(p.legs));
      AddAssoc(OnDuty(xs), OnDuty(init), DutyBlock(p));
    }
  }

  lemma OnePeriod(p: Period)
    ensures Flown([p]) == BlocksOf(p.legs) && OnDuty([p]) == DutyBlock(p)
  {
    assert [p][..0] == [];
    assert Flown([p][..0]) == [] && OnDuty([p][..0]) == [];
  }

  /** Wherever it is filed, a period adds exactly its own time to every window. */
  lemma FilingAddsItsTime(before: seq<Period>, p: Period, after: seq<Period>, from: Time, to: Time)
    requires Filed(before, p, after)
    ensures TimeIn(Flown(after), from, to) == TimeIn(Flown(before), from, to) + TimeIn(BlocksOf(p.legs), from, to)
    ensures TimeIn(OnDuty(after), from, to) == TimeIn(OnDuty(before), from, to) + TimeIn(DutyBlock(p), from, to)
  {
    var i: nat :| FiledAt(before, p, after, i);
    var x, y := before[..i], before[i..];
    assert before == x + y;
    OnePeriod(p);
    FlownConcat(x, y);
    FlownConcat(x + [p], y);
    FlownConcat(x, [p]);
    TimeConcat(Flown(x), Flown(y), from, to);
    TimeConcat(Flown(x) + BlocksOf(p.legs), Flown(y), from, to);
    TimeConcat(Flown(x), BlocksOf(p.legs), from, to);
    TimeConcat(OnDuty(x), OnDuty(y), from, to);
    TimeConcat(OnDuty(x) + DutyBlock(p), OnDuty(y), from, to);
    TimeConcat(OnDuty(x), DutyBlock(p), from, to);
  }

  /** Legs are flown before the crew is released. */
  predicate ReleasedAfterFlying(ps: seq<Period>) {
    forall p, l | p in ps && l in p.legs :: l.arrive <= p.release
  }

  lemma {:induction false} EarlierBlocks(bs: seq<Block>, from: Time, to: Time)
    requires forall i | 0 <= i < |bs| :: bs[i].end <= from
    ensures TimeIn(bs, from, to) == 0
    decreases |bs|
  {
    if bs != [] {
      EarlierBlocks(bs[..|bs| - 1], from, to);
    }
  }

  /** One period more or less. */
  lemma TimesSnoc(ps: seq<Period>, p: Period, from: Time, to: Time)
    ensures TimeIn(Flown(ps + [p]), from, to) == TimeIn(Flown(ps), from, to) + TimeIn(BlocksOf(p.legs), from, to)
    ensures TimeIn(OnDuty(ps + [p]), from, to) == TimeIn(OnDuty(ps), from, to) + TimeIn(DutyBlock(p), from, to)
  {
    hide BlocksOf, DutyBlock, TimeIn;
    assert (ps + [p])[..|ps|] == ps;
    TimeConcat(Flown(ps), BlocksOf(p.legs), from, to);
    TimeConcat(OnDuty(ps), DutyBlock(p), from, to);
  }

  /** A period over before the window starts has no time in it. */
  lemma NoTimeLeft(p: Period, from: Time, to: Time)
    requires p.release <= from && forall l | l in p.legs :: l.arrive <= p.release
    ensures TimeIn(BlocksOf(p.legs), from, to) == 0 && TimeIn(DutyBlock(p), from, to) == 0
  {
    forall i | 0 <= i < |p.legs| ensures BlocksOf(p.legs)[i].end <= from {
      assert p.legs[i] in p.legs;
    }
    EarlierBlocks(BlocksOf(p.legs), from, to);
    EarlierBlocks(DutyBlock(p), from, to);
  }

  /** Trimming leaves flight and duty time alone in every window from the cutoff on. */
  lemma {:induction false} TrimKeepsTimes(ps: seq<Period>, cutoff: Time, from: Time, to: Time)
    requires ReleasedAfterFlying(ps) && cutoff <= from
    ensures TimeIn(Flown(Kept(ps, cutoff)), from, to) == TimeIn(Flown(ps), from, to)
    ensures TimeIn(OnDuty(Kept(ps, cutoff)), from, to) == TimeIn(OnDuty(ps), from, to)
    decreases |ps|
  {
    hide BlocksOf, DutyBlock, TimeIn, Flown, OnDuty;
    if ps != [] {
      var init, p := ps[..|ps| - 1], ps[|ps| - 1];
      assert p in ps && ps == init + [p];
      TrimKeepsTimes(init, cutoff, from, to);
      TimesSnoc(init, p, from, to);
      TimesSnoc(Kept(init, cutoff), p, from, to);
      if p.release < cutoff {
        NoTimeLeft(p, from, to);
        assert Kept(init, cutoff) + [] == Kept(init, cutoff);
      }
    }
  }

  lemma {:induction false} KeptMembers(ps: seq<Period>, cutoff: Time, p: Period)
    ensures p in Kept(ps, cutoff) <==> p in ps && p.release >= cutoff
    decreases |ps|
  {
    if ps != [] {
      KeptMembers(ps[..|ps| - 1], cutoff, p);
      assert p in ps <==> p in ps[..|ps| - 1] || p == ps[|ps| - 1];
    }
  }

  lemma BusyMembers(ps: seq<Period>, b: Block)
    ensures b in Busy(ps) <==> exists p :: p in ps && b == Block(p.report, p.release)
  {
    if b in Busy(ps) {
      var i :| 0 <= i < |ps| && Busy(ps)[i] == b;
      assert ps[i] in ps;
    }
    if p :| p in ps && b == Block(p.report, p.release) {
      var i :| 0 <= i < |ps| && ps[i] == p;
      assert Busy(ps)[i] == b;
    }
  }

  /** Nor does it change the longest free time in such a window. */
  lemma TrimKeepsFreeTime(ps: seq<Period>, cutoff: Time, from: Time, to: Time)
    requires cutoff <= from
    ensures LongestGap(Busy(Kept(ps, cutoff)), from, to) == LongestGap(Busy(ps), from, to)
  {
    forall b: Block | b.end > from && b.start < to ensures b in Busy(ps) <==> b in Busy(Kept(ps, cutoff)) {
      BusyMembers(ps, b);
      BusyMembers(Kept(ps, cutoff), b);
      forall p: Period | b == Block(p.report, p.release) ensures p in ps <==> p in Kept(ps, cutoff) {
        KeptMembers(ps, cutoff, p);
      }
    }
    GapsDependOnlyOnThoseInside(Busy(ps), Busy(Kept(ps, cutoff)), from, to);
  }

  /** The last duty found was filed, ended in time, and nothing in time ended later. */
  lemma {:induction false} LastReleasedIsLast(ps: seq<Period>, before: Time, release: Time)
    ensures var last := LastReleased(ps, before);
            (last.Some? && last.value.1 >= release) <==> (exists p :: p in ps && release <= p.release <= before)
    decreases |ps|
  {
    if ps != [] {
      var init, q := ps[..|ps| - 1], ps[|ps| - 1];
      LastReleasedIsLast(init, before, release);
      assert forall p :: p in ps <==> p in init || p == q;
      if release <= q.release <= before {
        assert q in ps;
      }
    }
  }
}
