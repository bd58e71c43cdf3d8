/** What a verdict means, told without the sums the checks make: limits on each leg,
    and on the ticks a crew member is in the air or on duty. */
module CrewLawful {
  import opened Wrappers
  import opened CrewTime
  import opened CrewRecord
  import opened CrewLegality

  // ---------------------------------------------------------------- ticks

  /** How many of the blocks cover a tick. */
  function Covering(bs: seq<Block>, x: Time): nat {
    if bs == [] then 0 else (if bs[0].start <= x < bs[0].end then 1 else 0) + Covering(bs[1..], x)
  }

  /** How many of the legs are in the air at a tick. */
  function Airborne(legs: seq<Leg>, x: Time): nat {
    if legs == [] then 0 else (if legs[0].depart <= x < legs[0].arrive then 1 else 0) + Airborne(legs[1..], x)
  }

  /** How many legs of the past are. */
  function Aloft(past: seq<Period>, x: Time): nat {
    if past == [] then 0 else Airborne(past[0].legs, x) + Aloft(past[1..], x)
  }

  /** How many flight duty periods of the past a tick is in. Reserve and other duty are not
      flight duty. */
  function Dutiful(past: seq<Period>, x: Time): nat {
    if past == [] then 0
    else (if past[0].kind == FlightDuty && past[0].report <= x < past[0].release then 1 else 0) + Dutiful(past[1..], x)
  }

  /** The duty runs from report until every leg has been in for the release time. */
  predicate Running(d: Duty, x: Time) {
    d.report <= x && exists i | 0 <= i < |d.legs| :: x < d.legs[i].arrive + d.release
  }

  /** What a limit measures at a tick, the duty added to the past. */
  function Spending(c: Cumulative, d: Duty, past: seq<Period>, x: Time): nat {
    match c.of
    case MeasureFlight => Airborne(d.legs, x) + Aloft(past, x)
    case MeasureDuty => (if Running(d, x) then 1 else 0) + Dutiful(past, x)
  }

  function Spent(c: Cumulative, d: Duty, past: seq<Period>, from: Time, upTo: Time): nat
    decreases upTo - from
  {
    if upTo <= from then 0 else Spent(c, d, past, from, upTo - 1) + Spending(c, d, past, upTo - 1)
  }

  function CoveredTicks(bs: seq<Block>, from: Time, upTo: Time): nat
    decreases upTo - from
  {
    if upTo <= from then 0 else CoveredTicks(bs, from, upTo - 1) + Covering(bs, upTo - 1)
  }

  lemma {:induction false} CoveringConcat(xs: seq<Block>, ys: seq<Block>, x: Time)
    ensures Covering(xs + ys, x) == Covering(xs, x) + Covering(ys, x)
    decreases |xs|
  {
    if xs == [] {
      assert xs + ys == ys;
    } else {
      assert (xs + ys)[1..] == xs[1..] + ys;
      CoveringConcat(xs[1..], ys, x);
    }
  }

  lemma {:induction false} TimeOfTick(bs: seq<Block>, x: Time)
    ensures TimeIn(bs, x, x + 1) == Covering(bs, x)
    decreases |bs|
  {
    if bs != [] {
      var init, last := bs[..|bs| - 1], bs[|bs| - 1];
      TimeOfTick(init, x);
      assert bs == init + [last];
      CoveringConcat(init, [last], x);
    }
  }

  /** Block time counts the covered ticks, each as often as it is covered. */
  lemma {:induction false} TimeCountsTicks(bs: seq<Block>, from: Time, upTo: Time)
    ensures TimeIn(bs, from, upTo) == CoveredTicks(bs, from, upTo)
    decreases upTo - from
  {
    if upTo <= from {
      BackwardWindow(bs, from, upTo);
    } else {
      TimeCountsTicks(bs, from, upTo - 1);
      TimeSplits(bs, from, upTo - 1, upTo);
      TimeOfTick(bs, upTo - 1);
    }
  }

  lemma {:induction false} AirborneIs(legs: seq<Leg>, x: Time)
    ensures Covering(BlocksOf(legs), x) == Airborne(legs, x)
    decreases |legs|
  {
    if legs != [] {
      AirborneIs(legs[1..], x);
      assert BlocksOf(legs)[1..] == BlocksOf(legs[1..]);
    }
  }

  lemma {:induction false} PastIs(past: seq<Period>, x: Time)
    ensures Covering(Flown(past), x) == Aloft(past, x) && Covering(OnDuty(past), x) == Dutiful(past, x)
    decreases |past|
  {
    hide Covering, Airborne, Flown, OnDuty, DutyBlock;
    if past == [] {
      NothingPast(x);
    } else {
      var first, rest := past[0], past[1..];
      PastIs(rest, x);
      assert past == [first] + rest;
      FlownConcat([first], rest);
      OnePeriod(first);
      CoveringConcat(BlocksOf(first.legs), Flown(rest), x);
      CoveringConcat(DutyBlock(first), OnDuty(rest), x);
      AirborneIs(first.legs, x);
      DutyBlockIs(first, x);
    }
  }

  lemma NothingPast(x: Time)
    ensures Covering(Flown([]), x) == 0 && Covering(OnDuty([]), x) == 0
  {
  }

  lemma DutyBlockIs(p: Period, x: Time)
    ensures Covering(DutyBlock(p), x) == if p.kind == FlightDuty && p.report <= x < p.release then 1 else 0
  {
  }

  /** The last arrival is no earlier than any, and is one of them. */
  lemma {:induction false} LastArrivalIsLatest(legs: seq<Leg>)
    requires legs != []
    ensures forall i | 0 <= i < |legs| :: legs[i].arrive <= LastArrival(legs)
    ensures exists i :: 0 <= i < |legs| && legs[i].arrive == LastArrival(legs)
    decreases |legs|
  {
    if |legs| > 1 {
      var init := legs[..|legs| - 1];
      LastArrivalIsLatest(init);
      var i :| 0 <= i < |init| && init[i].arrive == LastArrival(init);
      assert legs[i] == init[i];
    } else {
      assert legs[0].arrive == LastArrival(legs);
    }
  }

  lemma RunningIs(d: Duty, x: Time)
    requires d.legs != []
    ensures Running(d, x) <==> d.report <= x < ReleasedAt(d)
  {
    LastArrivalIsLatest(d.legs);
  }

  lemma SpendingIs(c: Cumulative, d: Duty, past: seq<Period>, x: Time)
    requires d.legs != []
    ensures Covering(Measured(c, d, past), x) == Spending(c, d, past, x)
  {
    hide Running, ReleasedAt, Flown, OnDuty;
    PastIs(past, x);
    match c.of
    case MeasureFlight =>
      CoveringConcat(Flown(past), BlocksOf(d.legs), x);
      AirborneIs(d.legs, x);
    case MeasureDuty =>
      CoveringConcat(OnDuty(past), [Block(d.report, ReleasedAt(d))], x);
      RunningIs(d, x);
  }

  lemma {:induction false} SpentIs(c: Cumulative, d: Duty, past: seq<Period>, from: Time, upTo: Time)
    requires d.legs != []
    ensures CoveredTicks(Measured(c, d, past), from, upTo) == Spent(c, d, past, from, upTo)
    decreases upTo - from
  {
    hide Measured, Spending, Covering;
    if from < upTo {
      SpentIs(c, d, past, from, upTo - 1);
      SpendingIs(c, d, past, upTo - 1);
    }
  }

  /** A tick is in the look-back that ends at t. */
  predicate LooksBackTo(c: Cumulative, t: Time, x: Time) {
    if c.calendarDays > 0 then t / DAY - c.calendarDays < x / DAY <= t / DAY else t - c.span <= x < t
  }

  lemma WindowIsLookBack(c: Cumulative, t: Time, x: Time)
    ensures Window(c, t).0 <= x < Window(c, t).1 <==> LooksBackTo(c, t, x)
  {
  }

  /** A limit counts, over the ticks of its look-back, the legs in the air or the flight
      duty periods running, those of the duty with those of the past. */
  lemma UsedCountsTicks(c: Cumulative, d: Duty, past: seq<Period>, t: Time)
    requires d.legs != []
    ensures UsedAt(c, d, past, t) == Spent(c, d, past, Window(c, t).0, Window(c, t).1)
  {
    hide Window, Measured, Spent, CoveredTicks, Used;
    UsedIsMeasured(c, d, past, t);
    TimeCountsTicks(Measured(c, d, past), Window(c, t).0, Window(c, t).1);
    SpentIs(c, d, past, Window(c, t).0, Window(c, t).1);
  }

  // ---------------------------------------------------------------- the duty's own limits

  /** The time in the air, leg by leg. */
  function InTheAir(legs: seq<Leg>): int {
    if legs == [] then 0 else legs[0].arrive - legs[0].depart + InTheAir(legs[1..])
  }

  /** Some leg keeps the crew on duty past a limit. */
  predicate SomeLegPast(d: Duty, limit: int) {
    exists i | 0 <= i < |d.legs| :: d.legs[i].arrive + d.release - d.report > limit
  }

  lemma {:induction false} BlockTimeConcat(xs: seq<Leg>, ys: seq<Leg>)
    ensures BlockTime(xs + ys) == BlockTime(xs) + BlockTime(ys)
    decreases |ys|
  {
    if ys == [] {
      assert xs + ys == xs;
    } else {
      assert (xs + ys)[..|xs| + |ys| - 1] == xs + ys[..|ys| - 1];
      BlockTimeConcat(xs, ys[..|ys| - 1]);
    }
  }

  lemma {:induction false} BlockTimeIs(legs: seq<Leg>)
    ensures BlockTime(legs) == InTheAir(legs)
    decreases |legs|
  {
    if legs != [] {
      BlockTimeIs(legs[1..]);
      BlockTimeConcat([legs[0]], legs[1..]);
      assert legs == [legs[0]] + legs[1..];
      assert [legs[0]][..0] == [];
      assert BlockTime([legs[0]]) == BlockTime([legs[0]][..0]) + (legs[0].arrive - legs[0].depart);
    }
  }

  /** The duty's own check, limit by limit: block time has no extension, the duty period
      has one and says when it needs it, and the first limit broken is named. */
  lemma CheckedIsLimits(d: Duty)
    ensures var v, r := Checked(d), d.rules;
            && (d.legs == [] ==> v == NO_VERDICT)
            && (d.legs != [] ==>
                  && v.flight == InTheAir(d.legs) && v.flightLimit == r.flightLimit(d.report)
                  && v.fdpLimit == r.fdpLimit(d.report, |d.legs|) && v.totals == []
                  && !SomeLegPast(d, v.fdp) && SomeLegPast(d, v.fdp - 1)
                  && (v.reason == FlightTimeOver <==> InTheAir(d.legs) > r.flightLimit(d.report))
                  && (v.reason == DutyPeriodOver <==>
                        InTheAir(d.legs) <= r.flightLimit(d.report)
                        && SomeLegPast(d, r.fdpLimit(d.report, |d.legs|) + r.extension))
                  && (v.legal <==>
                        InTheAir(d.legs) <= r.flightLimit(d.report)
                        && !SomeLegPast(d, r.fdpLimit(d.report, |d.legs|) + r.extension))
                  && (v.legal <==> v.reason == NoReason)
                  && (v.extended <==> v.legal && SomeLegPast(d, r.fdpLimit(d.report, |d.legs|))))
  {
    if d.legs != [] {
      BlockTimeIs(d.legs);
      LastArrivalIsLatest(d.legs);
    }
  }

  // ---------------------------------------------------------------- what a legal verdict means

  /** What a limit counts in the look-back that ends at t. */
  function SpentAt(c: Cumulative, d: Duty, past: seq<Period>, t: Time): nat {
    Spent(c, d, past, Window(c, t).0, Window(c, t).1)
  }

  predicate OwnLimitsHold(d: Duty) {
    && InTheAir(d.legs) <= d.rules.flightLimit(d.report)
    && !SomeLegPast(d, d.rules.fdpLimit(d.report, |d.legs|) + d.rules.extension)
  }

  /** Nothing was released within the required rest before report. */
  ghost predicate Rested(d: Duty, past: seq<Period>) {
    d.rules.rest > 0 ==> forall p | p in past :: !(d.report - d.rules.rest < p.release <= d.report)
  }

  /** A stretch of the required free time from u on, in the window before report, that no
      period of any kind meets. */
  ghost predicate FreeFrom(d: Duty, past: seq<Period>, u: Time) {
    && d.report - d.rules.freeWindow <= u && u + d.rules.freeTime <= d.report
    && forall p | p in past :: p.release <= u || u + d.rules.freeTime <= p.report
  }

  ghost predicate Freed(d: Duty, past: seq<Period>) {
    d.rules.freeTime > 0 && d.rules.freeWindow > 0 ==> exists u :: FreeFrom(d, past, u)
  }

  /** The duty's own limits hold, the rest and the free time before it were had, and no
      look-back limit is broken at any instant the duty is underway. */
  ghost predicate Lawful(d: Duty, past: seq<Period>)
    requires d.legs != []
  {
    && OwnLimitsHold(d) && Rested(d, past) && Freed(d, past)
    && forall i, t | 0 <= i < |d.rules.cumulative| && Underway(d.rules.cumulative[i], d, t) ::
         SpentAt(d.rules.cumulative[i], d, past, t) <= d.rules.cumulative[i].limit
  }

  lemma FreedIs(d: Duty, past: seq<Period>)
    requires d.rules.freeTime > 0
    ensures HasGap(Busy(past), d.report - d.rules.freeWindow, d.report, d.rules.freeTime)
       <==> exists u :: FreeFrom(d, past, u)
  {
    var bs, from, n := Busy(past), d.report - d.rules.freeWindow, d.rules.freeTime;
    forall u ensures GapAt(bs, from, d.report, n, u) <==> FreeFrom(d, past, u) {
      if GapAt(bs, from, d.report, n, u) {
        forall p | p in past ensures p.release <= u || u + n <= p.report {
          BusyMembers(past, Block(p.report, p.release));
        }
      }
      if FreeFrom(d, past, u) {
        forall b | b in bs ensures u + n <= b.start || b.end <= u {
          BusyMembers(past, b);
        }
      }
    }
  }

  lemma LawfulIsUpheld(d: Duty, past: seq<Period>)
    requires d.legs != []
    ensures Lawful(d, past) <==> Upheld(d, past)
  {
    hide HasGap, Checked, InTheAir, SomeLegPast, UsedAt, Spent, Window, Underway;
    CheckedIsLimits(d);
    if d.rules.freeTime > 0 {
      FreedIs(d, past);
    }
    forall c, t ensures SpentAt(c, d, past, t) == UsedAt(c, d, past, t) {
      UsedCountsTicks(c, d, past, t);
    }
  }

  /** A duty is lawful exactly when it is found legal and keeps its calendar limits on the
      eves as well; so a legal verdict can be trusted if and only if they are kept there.
      With limits over hours alone, legal is lawful. */
  lemma LegalMeans(d: Duty, past: seq<Period>)
    requires Sequential(d, past)
    ensures Lawful(d, past) <==>
            Admitted(d, past).legal && forall i | 0 <= i < |d.rules.cumulative| :: EvesWithin(d.rules.cumulative[i], d, past)
    ensures (forall i | 0 <= i < |d.rules.cumulative| :: d.rules.cumulative[i].calendarDays <= 0)
            ==> (Admitted(d, past).legal <==> Lawful(d, past))
  {
    hide Lawful, Upheld, Admitted, EvesWithin;
    LawfulIsUpheld(d, past);
    LegalIsUpheld(d, past);
  }

  // ---------------------------------------------------------------- what a verdict says

  /** The total of one limit: the most at any arrival, or what there is at the release. */
  ghost predicate IsTotal(t: Total, c: Cumulative, d: Duty, past: seq<Period>) {
    && t.name == c.name && t.limit == c.limit
    && match c.of
       case MeasureFlight =>
         && (forall i | 0 <= i < |d.legs| :: SpentAt(c, d, past, d.legs[i].arrive) <= t.used)
         && exists i | 0 <= i < |d.legs| :: SpentAt(c, d, past, d.legs[i].arrive) == t.used
       case MeasureDuty =>
         exists i | 0 <= i < |d.legs| && IsLast(d.legs, i) :: SpentAt(c, d, past, d.legs[i].arrive + d.release) == t.used
  }

  predicate IsLast(legs: seq<Leg>, i: nat)
    requires i < |legs|
  {
    forall k | 0 <= k < |legs| :: legs[k].arrive <= legs[i].arrive
  }

  ghost predicate AreTotals(ts: seq<Total>, d: Duty, past: seq<Period>) {
    |ts| == |d.rules.cumulative| && forall i | 0 <= i < |ts| :: IsTotal(ts[i], d.rules.cumulative[i], d, past)
  }

  /** The first total over its limit. */
  predicate FirstBroken(ts: seq<Total>, i: nat) {
    i < |ts| && ts[i].used > ts[i].limit && forall k | 0 <= k < i :: ts[k].used <= ts[k].limit
  }

  lemma TotalOfIs(c: Cumulative, d: Duty, past: seq<Period>)
    requires d.legs != []
    ensures IsTotal(TotalOf(c, d, past), c, d, past)
  {
    hide UsedAt, Spent, Window;
    forall t ensures SpentAt(c, d, past, t) == UsedAt(c, d, past, t) {
      UsedCountsTicks(c, d, past, t);
    }
    if c.of == MeasureFlight {
      WorstArrivalIsMax(c, d, past, |d.legs|);
    } else {
      LastArrivalIsLatest(d.legs);
      var i :| 0 <= i < |d.legs| && d.legs[i].arrive == LastArrival(d.legs);
      assert IsLast(d.legs, i);
    }
  }

  lemma {:induction false} FirstOverIs(ts: seq<Total>)
    ensures match FirstOver(ts)
            case None => forall i | 0 <= i < |ts| :: ts[i].used <= ts[i].limit
            case Some(t) => exists i: nat :: FirstBroken(ts, i) && ts[i] == t
    decreases |ts|
  {
    if ts != [] {
      if ts[0].used > ts[0].limit {
        assert FirstBroken(ts, 0);
      } else {
        FirstOverIs(ts[1..]);
        match FirstOver(ts[1..])
        case None =>
          assert forall i | 1 <= i < |ts| :: ts[i] == ts[1..][i - 1];
        case Some(t) =>
          var i: nat :| FirstBroken(ts[1..], i) && ts[1..][i] == t;
          assert forall k | 1 <= k < |ts| :: ts[k] == ts[1..][k - 1];
          assert FirstBroken(ts, i + 1) && ts[i + 1] == t;
      }
    }
  }

  /** The reason names the first thing wrong, in the order they are looked at: the duty's
      own limits, the rest, the free time, the look-back limits; and the totals are given
      once the first three hold. */
  lemma VerdictSays(d: Duty, past: seq<Period>)
    requires d.legs != []
    ensures var v := Admitted(d, past);
            && (v.legal <==> v.reason == NoReason)
            && (v.extended <==> v.legal && SomeLegPast(d, d.rules.fdpLimit(d.report, |d.legs|)))
            && (v.reason == FlightTimeOver <==> InTheAir(d.legs) > d.rules.flightLimit(d.report))
            && (v.reason == DutyPeriodOver <==> !OwnLimitsHold(d) && InTheAir(d.legs) <= d.rules.flightLimit(d.report))
            && (v.reason == RestShort <==> OwnLimitsHold(d) && !Rested(d, past))
            && (v.reason == FreeTimeShort <==> OwnLimitsHold(d) && Rested(d, past) && !Freed(d, past))
            && if OwnLimitsHold(d) && Rested(d, past) && Freed(d, past)
               then AreTotals(v.totals, d, past)
                    && (v.legal <==> forall i | 0 <= i < |v.totals| :: v.totals[i].used <= v.totals[i].limit)
                    && (!v.legal ==> exists i: nat :: FirstBroken(v.totals, i) && v.reason == LimitOver(v.totals[i].name))
               else !v.legal && v.totals == []
  {
    hide Checked, InTheAir, SomeLegPast, TotalOf, LongestGap, LastReleased, FirstOver, IsTotal, FreeFrom, HasGap;
    CheckedIsLimits(d);
    LastReleasedIsLast(past, d.report, d.report - d.rules.rest + 1);
    if d.rules.freeTime > 0 {
      FreedIs(d, past);
      LongestGapReaches(Busy(past), d.report - d.rules.freeWindow, d.report, d.rules.freeTime);
    }
    var totals := TotalsOf(d, past);
    forall i | 0 <= i < |totals| ensures IsTotal(totals[i], d.rules.cumulative[i], d, past) {
      TotalOfIs(d.rules.cumulative[i], d, past);
    }
    FirstOverIs(totals);
  }

  // ---------------------------------------------------------------- flown as checked

  /** Filed once flown, a duty counts in every later look-back for exactly what it was
      checked for. */
  lemma FlownAsChecked(c: Cumulative, d: Duty, past: seq<Period>, after: seq<Period>, t: Time)
    requires d.legs != [] && Filed(past, Period(FlightDuty, d.report, ReleasedAt(d), d.legs), after)
    ensures SpentAt(c, d, past, t)
         == TimeIn(if c.of == MeasureFlight then Flown(after) else OnDuty(after), Window(c, t).0, Window(c, t).1)
    ensures exists i: nat :: i < |d.legs| && IsLast(d.legs, i) && ReleasedAt(d) == d.legs[i].arrive + d.release
  {
    hide Filed, Flown, OnDuty, BlocksOf, Window, TimeIn, Spent, ReleasedAt;
    var p, w := Period(FlightDuty, d.report, ReleasedAt(d), d.legs), Window(c, t);
    UsedCountsTicks(c, d, past, t);
    FilingAddsItsTime(past, p, after, w.0, w.1);
    OneBlock(Block(d.report, ReleasedAt(d)), w.0, w.1);
    ReleasedLast(d);
  }

  lemma ReleasedLast(d: Duty)
    requires d.legs != []
    ensures exists i: nat :: i < |d.legs| && IsLast(d.legs, i) && ReleasedAt(d) == d.legs[i].arrive + d.release
  {
    LastArrivalIsLatest(d.legs);
    var i :| 0 <= i < |d.legs| && d.legs[i].arrive == LastArrival(d.legs);
    assert IsLast(d.legs, i);
  }
}
