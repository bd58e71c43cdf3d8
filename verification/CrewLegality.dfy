/** Whether a crew member with a given past may fly a duty: the duty's own limits, the
    rest and the free time before it, and every look-back limit with the duty added. */
module CrewLegality {
  import opened Arithmetic
  import opened Wrappers
  import opened CrewTime
  import opened CrewRecord

  /** A limit adds up block time or flight duty time. */
  datatype Measure = MeasureFlight | MeasureDuty

  /** One look-back limit: over any span of ticks or, when calendarDays is set, over
      that many whole calendar days. */
  datatype Cumulative = Cumulative(name: string, of: Measure, limit: int, span: int, calendarDays: int)

  /** One regime's limits. The tables give the limits of one duty by its report time
      and, for the duty period, its number of segments. */
  datatype Rules = Rules(fdpLimit: (Time, nat) -> int, flightLimit: Time -> int, extension: int, rest: int,
                         cumulative: seq<Cumulative>, freeTime: int, freeWindow: int)

  datatype Duty = Duty(rules: Rules, report: Time, release: int, legs: seq<Leg>)

  datatype Total = Total(name: string, used: int, limit: int)

  datatype Reason = NoReason | FlightTimeOver | DutyPeriodOver | RestShort | FreeTimeShort | LimitOver(name: string)

  datatype Verdict = Verdict(legal: bool, extended: bool, fdp: int, fdpLimit: int, flight: int, flightLimit: int,
                             reason: Reason, totals: seq<Total>)

  /** The look-back a limit takes when it ends at t. */
  function Window(c: Cumulative, t: Time): (Time, Time) {
    if c.calendarDays > 0 then ((DayOf(t) + 1 - c.calendarDays) * DAY, (DayOf(t) + 1) * DAY) else (t - c.span, t)
  }

  function LastArrival(legs: seq<Leg>): Time
    requires legs != []
  {
    if |legs| == 1 then legs[0].arrive else Max(LastArrival(legs[..|legs| - 1]), legs[|legs| - 1].arrive)
  }

  function ReleasedAt(d: Duty): Time
    requires d.legs != []
  {
    LastArrival(d.legs) + d.release
  }

  /** Block time is not clipped here, so a leg that arrives before it departs counts negative. */
  function BlockTime(legs: seq<Leg>): int {
    if legs == [] then 0 else BlockTime(legs[..|legs| - 1]) + (legs[|legs| - 1].arrive - legs[|legs| - 1].depart)
  }

  const NO_VERDICT := Verdict(true, false, 0, 0, 0, 0, NoReason, [])

  /** The duty's own limits. */
  function Checked(d: Duty): Verdict {
    if d.legs == [] then NO_VERDICT
    else
      var fdp, fdpLimit := ReleasedAt(d) - d.report, d.rules.fdpLimit(d.report, |d.legs|);
      var flight, flightLimit := BlockTime(d.legs), d.rules.flightLimit(d.report);
      var v := Verdict(false, false, fdp, fdpLimit, flight, flightLimit, NoReason, []);
      if flight > flightLimit then v.(reason := FlightTimeOver)
      else if fdp > fdpLimit + d.rules.extension then v.(reason := DutyPeriodOver)
      else v.(legal := true, extended := fdp > fdpLimit)
  }

  // ---------------------------------------------------------------- totals

  /** What the limit measures, with the duty added to the history, in [from, to). */
  function Used(c: Cumulative, d: Duty, past: seq<Period>, from: Time, to: Time): nat
    requires d.legs != []
  {
    match c.of
    case MeasureFlight => TimeIn(BlocksOf(d.legs), from, to) + TimeIn(Flown(past), from, to)
    case MeasureDuty => Overlap(d.report, ReleasedAt(d), from, to) + TimeIn(OnDuty(past), from, to)
  }

  function UsedAt(c: Cumulative, d: Duty, past: seq<Period>, t: Time): nat
    requires d.legs != []
  {
    Used(c, d, past, Window(c, t).0, Window(c, t).1)
  }

  /** The largest total over the arrivals of the first n legs, or 0. */
  function WorstArrival(c: Cumulative, d: Duty, past: seq<Period>, n: nat): nat
    requires n <= |d.legs| && d.legs != []
  {
    if n == 0 then 0 else Max(WorstArrival(c, d, past, n - 1), UsedAt(c, d, past, d.legs[n - 1].arrive))
  }

  /** The total of one limit: block time at the worst arrival, duty time at release. */
  function TotalOf(c: Cumulative, d: Duty, past: seq<Period>): Total
    requires d.legs != []
  {
    Total(c.name,
          match c.of
          case MeasureFlight => WorstArrival(c, d, past, |d.legs|)
          case MeasureDuty => UsedAt(c, d, past, ReleasedAt(d)),
          c.limit)
  }

  function TotalsOf(d: Duty, past: seq<Period>): (r: seq<Total>)
    ensures d.legs != [] ==> |r| == |d.rules.cumulative|
                             && forall i | 0 <= i < |r| :: r[i] == TotalOf(d.rules.cumulative[i], d, past)
  {
    if d.legs == [] then []
    else seq(|d.rules.cumulative|, i requires 0 <= i < |d.rules.cumulative| => TotalOf(d.rules.cumulative[i], d, past))
  }

  /** The first limit the totals break. */
  function FirstOver(totals: seq<Total>): Option<Total> {
    if totals == [] then None
    else if totals[0].used > totals[0].limit then Some(totals[0])
    else FirstOver(totals[1..])
  }

  /** Too little rest since the last duty before report. */
  predicate RestTooShort(d: Duty, past: seq<Period>) {
    var last := LastReleased(past, d.report);
    d.rules.rest > 0 && last.Some? && d.report - last.value.1 < d.rules.rest
  }

  ghost predicate FreeTimeTooShort(d: Duty, past: seq<Period>) {
    && d.rules.freeTime > 0 && d.rules.freeWindow > 0
    && LongestGap(Busy(past), d.report - d.rules.freeWindow, d.report) < d.rules.freeTime
  }

  /** What Admits answers for a member with a history. */
  ghost function Admitted(d: Duty, past: seq<Period>): Verdict {
    var v := Checked(d);
    if d.legs == [] || !v.legal then v
    else if RestTooShort(d, past) then v.(legal := false, extended := false, reason := RestShort)
    else if FreeTimeTooShort(d, past) then v.(legal := false, extended := false, reason := FreeTimeShort)
    else
      var totals := TotalsOf(d, past);
      match FirstOver(totals)
      case Some(t) => v.(legal := false, extended := false, reason := LimitOver(t.name), totals := totals)
      case None => v.(totals := totals)
  }

  // ---------------------------------------------------------------- the operations

  method LatestArrival(d: Duty) returns (last: Time)
    requires d.legs != []
    ensures last == LastArrival(d.legs)
  {
    last := d.legs[0].arrive;
    assert d.legs[..1] == [d.legs[0]];
    for i := 1 to |d.legs|
      invariant last == LastArrival(d.legs[..i])
    {
      ghost var sofar := d.legs[..i + 1];
      assert sofar[..i] == d.legs[..i] && sofar[i] == d.legs[i];
      if d.legs[i].arrive > last {
        last := d.legs[i].arrive;
      }
    }
    assert d.legs[..|d.legs|] == d.legs;
  }

  /** Files a duty as flown. */
  method AddDuty(r: Record, d: Duty)
    modifies r
    ensures d.legs == [] ==> r.periods == old(r.periods)
    ensures d.legs != [] ==> Filed(old(r.periods), Period(FlightDuty, d.report, ReleasedAt(d), d.legs), r.periods)
    ensures old(InOrder(r.periods)) ==> InOrder(r.periods)
  {
    if d.legs == [] {
      return;
    }
    var last := LatestArrival(d);
    r.Add(Period(FlightDuty, d.report, last + d.release, d.legs));
  }

  method Check(d: Duty) returns (v: Verdict)
    ensures v == Checked(d)
  {
    if d.legs == [] {
      return NO_VERDICT;
    }
    var last, block := d.legs[0].arrive, 0;
    for i := 0 to |d.legs|
      invariant last == if i == 0 then d.legs[0].arrive else LastArrival(d.legs[..i])
      invariant block == BlockTime(d.legs[..i])
    {
      ghost var sofar := d.legs[..i + 1];
      assert sofar[..i] == d.legs[..i] && sofar[i] == d.legs[i];
      if d.legs[i].arrive > last {
        last := d.legs[i].arrive;
      }
      block := block + (d.legs[i].arrive - d.legs[i].depart);
    }
    assert d.legs[..|d.legs|] == d.legs;
    var fdp, fdpLimit := last + d.release - d.report, d.rules.fdpLimit(d.report, |d.legs|);
    v := Verdict(false, false, fdp, fdpLimit, block, d.rules.flightLimit(d.report), NoReason, []);
    if v.flight > v.flightLimit {
      v := v.(reason := FlightTimeOver);
    } else if v.fdp > v.fdpLimit + d.rules.extension {
      v := v.(reason := DutyPeriodOver);
    } else if v.fdp > v.fdpLimit {
      v := v.(legal := true, extended := true);
    } else {
      v := v.(legal := true);
    }
  }

  /** The duty's own block time inside [from, to). */
  method BlockIn(d: Duty, from: Time, to: Time) returns (sum: nat)
    ensures sum == TimeIn(BlocksOf(d.legs), from, to)
  {
    sum := 0;
    var blocks := BlocksOf(d.legs);
    for i := 0 to |d.legs|
      invariant sum == TimeIn(blocks[..i], from, to)
    {
      ghost var sofar := blocks[..i + 1];
      assert sofar[..i] == blocks[..i] && sofar[i] == blocks[i];
      sum := sum + Overlap(d.legs[i].depart, d.legs[i].arrive, from, to);
    }
    assert blocks[..|blocks|] == blocks;
  }

  method WorstFlight(c: Cumulative, d: Duty, h: Record) returns (worst: nat)
    requires c.of == MeasureFlight && d.legs != []
    ensures worst == WorstArrival(c, d, h.periods, |d.legs|)
  {
    worst := 0;
    for i := 0 to |d.legs|
      invariant worst == WorstArrival(c, d, h.periods, i)
    {
      var (from, to) := Window(c, d.legs[i].arrive);
      var own := BlockIn(d, from, to);
      var past := h.FlightTime(from, to);
      worst := Max(worst, own + past);
    }
  }

  method Totals(d: Duty, h: Record) returns (out: seq<Total>)
    ensures out == TotalsOf(d, h.periods)
  {
    out := [];
    if d.legs == [] {
      return;
    }
    var last := LatestArrival(d);
    var release := last + d.release;
    for i := 0 to |d.rules.cumulative|
      invariant |out| == i && forall k | 0 <= k < i :: out[k] == TotalOf(d.rules.cumulative[k], d, h.periods)
    {
      var c := d.rules.cumulative[i];
      var used: nat;
      match c.of {
        case MeasureFlight => used := WorstFlight(c, d, h);
        case MeasureDuty =>
          var (from, to) := Window(c, release);
          used := h.DutyTime(from, to);
          used := Overlap(d.report, release, from, to) + used;
      }
      out := out + [Total(c.name, used, c.limit)];
    }
  }

  method FindOver(totals: seq<Total>) returns (over: Option<Total>)
    ensures over == FirstOver(totals)
  {
    for i := 0 to |totals|
      invariant FirstOver(totals) == FirstOver(totals[i..])
    {
      if totals[i].used > totals[i].limit {
        return Some(totals[i]);
      }
      assert totals[i..][0] == totals[i] && totals[i..][1..] == totals[i + 1..];
    }
    over := None;
  }

  /** With no history only the duty's own limits are checked. */
  method Admits(d: Duty, h: Record?) returns (v: Verdict)
    ensures v == if h == null then Checked(d) else Admitted(d, h.periods)
  {
    hide Checked, TotalsOf, LastReleased, LongestGap, FirstOver;
    v := Check(d);
    if h == null || d.legs == [] || !v.legal {
      return;
    }
    var last := h.LastDuty(d.report);
    if last.Some? && d.rules.rest > 0 && d.report - last.value.1 < d.rules.rest {
      return v.(legal := false, extended := false, reason := RestShort);
    }
    if d.rules.freeTime > 0 && d.rules.freeWindow > 0 {
      var free := LongestFree(h.periods, d.report - d.rules.freeWindow, d.report);
      if free < d.rules.freeTime {
        return v.(legal := false, extended := false, reason := FreeTimeShort);
      }
    }
    var totals := Totals(d, h);
    v := v.(totals := totals);
    var over := FindOver(totals);
    if over.Some? {
      v := v.(legal := false, extended := false, reason := LimitOver(over.value.name));
    }
  }

  // ---------------------------------------------------------------- the worst point

  /** Legs fly forwards, one at a time, after everything in the past. */
  ghost predicate Sequential(d: Duty, past: seq<Period>) {
    && d.legs != []
    && Follows(Flown(past), BlocksOf(d.legs))
    && Follows(OnDuty(past), [Block(d.report, ReleasedAt(d))])
  }

  /** The instants a duty can break a limit at: from its first departure on, or from
      report on for duty time. */
  ghost predicate Underway(c: Cumulative, d: Duty, t: Time) {
    match c.of
    case MeasureFlight => exists l :: l in d.legs && l.depart <= t
    case MeasureDuty => d.report <= t
  }

  lemma {:induction false} WorstArrivalIsMax(c: Cumulative, d: Duty, past: seq<Period>, n: nat)
    requires n <= |d.legs| && d.legs != []
    ensures forall i | 0 <= i < n :: UsedAt(c, d, past, d.legs[i].arrive) <= WorstArrival(c, d, past, n)
    ensures n > 0 ==> exists i :: 0 <= i < n && UsedAt(c, d, past, d.legs[i].arrive) == WorstArrival(c, d, past, n)
    decreases n
  {
    hide UsedAt;
    if n > 0 {
      WorstArrivalIsMax(c, d, past, n - 1);
    }
  }

  /** The measured time of past and duty together, as one list of blocks. */
  function Measured(c: Cumulative, d: Duty, past: seq<Period>): seq<Block>
    requires d.legs != []
  {
    match c.of
    case MeasureFlight => Flown(past) + BlocksOf(d.legs)
    case MeasureDuty => OnDuty(past) + [Block(d.report, ReleasedAt(d))]
  }

  lemma UsedIsMeasured(c: Cumulative, d: Duty, past: seq<Period>, t: Time)
    requires d.legs != []
    ensures UsedAt(c, d, past, t) == TimeIn(Measured(c, d, past), Window(c, t).0, Window(c, t).1)
  {
    hide TimeIn, Overlap, Flown, OnDuty, BlocksOf, ReleasedAt, Window;
    var (from, to) := Window(c, t);
    match c.of
    case MeasureFlight => TimeConcat(Flown(past), BlocksOf(d.legs), from, to);
    case MeasureDuty =>
      TimeConcat(OnDuty(past), [Block(d.report, ReleasedAt(d))], from, to);
      OneBlock(Block(d.report, ReleasedAt(d)), from, to);
  }

  lemma SomeLeg(d: Duty, b: Block) returns (i: nat)
    requires b in BlocksOf(d.legs)
    ensures i < |d.legs| && b == Block(d.legs[i].depart, d.legs[i].arrive)
  {
    i :| 0 <= i < |d.legs| && BlocksOf(d.legs)[i] == b;
  }

  /** The other instants that decide a limit over calendar days: for each leg, or for the
      duty as a whole, the last one before the midnight before it ends. */
  ghost predicate Eves(c: Cumulative, d: Duty, t: Time)
    requires d.legs != []
  {
    && c.calendarDays > 0
    && match c.of
       case MeasureFlight => exists l :: l in d.legs && t == Eve(Block(l.depart, l.arrive))
       case MeasureDuty => t == Eve(Block(d.report, ReleasedAt(d)))
  }

  /** The total is no less than what is used at any of those. */
  ghost predicate EvesCovered(c: Cumulative, d: Duty, past: seq<Period>)
    requires d.legs != []
  {
    forall t | Eves(c, d, t) :: UsedAt(c, d, past, t) <= TotalOf(c, d, past).used
  }

  /** A window that ends before it starts holds nothing. */
  lemma BackwardWindow(bs: seq<Block>, from: Time, to: Time)
    requires to <= from
    ensures TimeIn(bs, from, to) == 0
  {
    IdleStretch(bs, from, to);
  }

  lemma FlightWorstDay(c: Cumulative, d: Duty, past: seq<Period>, k: nat, t: Time)
    requires c.of == MeasureFlight && c.calendarDays > 0 && Sequential(d, past) && k < |d.legs| && d.legs[k].depart <= t
    ensures UsedAt(c, d, past, t) <= WorstArrival(c, d, past, |d.legs|)
         || exists e :: Eves(c, d, e) && UsedAt(c, d, past, t) <= UsedAt(c, d, past, e)
  {
    hide UsedAt, TimeIn, Follows, Flown, Eve;
    var before, own := Flown(past), BlocksOf(d.legs);
    assert own[k] in own;
    var worst := WorstOnAnEndOrItsEve(before, own, c.calendarDays, own[k], DayOf(t));
    var i := SomeLeg(d, worst);
    assert d.legs[i] in d.legs && Eves(c, d, Eve(worst));
    UsedIsMeasured(c, d, past, t);
    UsedIsMeasured(c, d, past, worst.end);
    UsedIsMeasured(c, d, past, Eve(worst));
    WorstArrivalIsMax(c, d, past, |d.legs|);
    assert UsedAt(c, d, past, d.legs[i].arrive) <= WorstArrival(c, d, past, |d.legs|);
  }

  /** No instant underway is worse than both some leg's arrival and its eve. */
  lemma FlightWorstPoint(c: Cumulative, d: Duty, past: seq<Period>, t: Time)
    requires c.of == MeasureFlight && Sequential(d, past) && Underway(c, d, t)
    ensures UsedAt(c, d, past, t) <= WorstArrival(c, d, past, |d.legs|)
         || exists e :: Eves(c, d, e) && UsedAt(c, d, past, t) <= UsedAt(c, d, past, e)
  {
    hide UsedAt, TimeIn, Follows, Flown, Eves;
    var before, own := Flown(past), BlocksOf(d.legs);
    var k :| 0 <= k < |d.legs| && d.legs[k].depart <= t;
    if c.calendarDays > 0 {
      FlightWorstDay(c, d, past, k, t);
    } else if c.span < 0 {
      UsedIsMeasured(c, d, past, t);
      BackwardWindow(before + own, t - c.span, t);
    } else {
      assert own[k] in own;
      var worst := WorstAtAnEnd(before, own, c.span, own[k], t);
      var i := SomeLeg(d, worst);
      UsedIsMeasured(c, d, past, t);
      UsedIsMeasured(c, d, past, worst.end);
      WorstArrivalIsMax(c, d, past, |d.legs|);
      assert UsedAt(c, d, past, d.legs[i].arrive) <= WorstArrival(c, d, past, |d.legs|);
    }
  }

  lemma DutyWorstPoint(c: Cumulative, d: Duty, past: seq<Period>, t: Time)
    requires c.of == MeasureDuty && Sequential(d, past) && Underway(c, d, t)
    ensures UsedAt(c, d, past, t) <= UsedAt(c, d, past, ReleasedAt(d))
         || exists e :: Eves(c, d, e) && UsedAt(c, d, past, t) <= UsedAt(c, d, past, e)
  {
    hide UsedAt, TimeIn, Follows, OnDuty, ReleasedAt, Eve;
    var own := Block(d.report, ReleasedAt(d));
    UsedIsMeasured(c, d, past, t);
    UsedIsMeasured(c, d, past, own.end);
    if c.calendarDays > 0 {
      var worst := WorstOnAnEndOrItsEve(OnDuty(past), [own], c.calendarDays, own, DayOf(t));
      assert Eves(c, d, Eve(own));
      UsedIsMeasured(c, d, past, Eve(own));
    } else if c.span < 0 {
      BackwardWindow(OnDuty(past) + [own], t - c.span, t);
    } else {
      var worst := WorstAtAnEnd(OnDuty(past), [own], c.span, own, t);
    }
  }

  lemma EvesAreUnderway(c: Cumulative, d: Duty, t: Time)
    requires d.legs != [] && Eves(c, d, t)
    ensures Underway(c, d, t)
  {
  }

  /** The total is the true maximum over every instant the duty is underway if and only
      if it covers the eves: always over a span of hours, although only arrivals and the
      release are looked at, and over calendar days unless a midnight comes between. */
  lemma TotalIsTheMaximumExactly(c: Cumulative, d: Duty, past: seq<Period>)
    requires Sequential(d, past)
    ensures (forall t | Underway(c, d, t) :: UsedAt(c, d, past, t) <= TotalOf(c, d, past).used) <==> EvesCovered(c, d, past)
    ensures c.calendarDays <= 0 ==> EvesCovered(c, d, past)
    ensures exists t :: Underway(c, d, t) && UsedAt(c, d, past, t) == TotalOf(c, d, past).used
  {
    hide UsedAt, Eve, Follows, ReleasedAt;
    forall t | Underway(c, d, t) && EvesCovered(c, d, past) ensures UsedAt(c, d, past, t) <= TotalOf(c, d, past).used {
      if c.of == MeasureFlight {
        FlightWorstPoint(c, d, past, t);
      } else {
        DutyWorstPoint(c, d, past, t);
      }
    }
    forall t | Eves(c, d, t) ensures Underway(c, d, t) {
      EvesAreUnderway(c, d, t);
    }
    TotalIsReached(c, d, past);
  }

  lemma TotalIsReached(c: Cumulative, d: Duty, past: seq<Period>)
    requires Sequential(d, past)
    ensures exists t :: Underway(c, d, t) && UsedAt(c, d, past, t) == TotalOf(c, d, past).used
  {
    hide UsedAt;
    if c.of == MeasureFlight {
      WorstArrivalIsMax(c, d, past, |d.legs|);
      var i :| 0 <= i < |d.legs| && UsedAt(c, d, past, d.legs[i].arrive) == WorstArrival(c, d, past, |d.legs|);
      assert BlocksOf(d.legs)[i] in BlocksOf(d.legs);
      assert d.legs[i] in d.legs && Underway(c, d, d.legs[i].arrive);
    } else {
      assert Block(d.report, ReleasedAt(d)) in [Block(d.report, ReleasedAt(d))];
      assert Underway(c, d, ReleasedAt(d));
    }
  }

  /** When a leg runs over one midnight at most, its eve is its departure; when it runs
      over none, its arrival as well. */
  lemma EveIsDeparture(c: Cumulative, d: Duty, past: seq<Period>, l: Leg)
    requires d.legs != [] && c.calendarDays > 0 && l.depart <= l.arrive && DayOf(l.arrive) <= DayOf(l.depart) + 1
    ensures UsedAt(c, d, past, Eve(Block(l.depart, l.arrive))) == UsedAt(c, d, past, l.depart)
    ensures DayOf(l.arrive) == DayOf(l.depart) ==> UsedAt(c, d, past, l.depart) == UsedAt(c, d, past, l.arrive)
  {
    hide Used, Eve;
    EveDay(Block(l.depart, l.arrive));
  }

  const HOUR := 3_600_000_000_000

  const OVERNIGHT := [Leg("1", 20 * HOUR, 26 * HOUR)]

  /** A leg over midnight is looked at only on the day it arrives: by calendar days the
      total can miss the day it left. Four hours are flown before midnight and two
      after; the total says two. */
  lemma OvernightIsMissed(rules: Rules)
    ensures var c := Cumulative("flight time in a day", MeasureFlight, 3 * HOUR, 0, 1);
            var d := Duty(rules, 19 * HOUR, 0, OVERNIGHT);
            && Sequential(d, []) && !EvesCovered(c, d, [])
            && TotalOf(c, d, []).used <= c.limit
            && exists t :: Underway(c, d, t) && UsedAt(c, d, [], t) > c.limit
  {
    var c := Cumulative("flight time in a day", MeasureFlight, 3 * HOUR, 0, 1);
    var d := Duty(rules, 19 * HOUR, 0, OVERNIGHT);
    var leg := OVERNIGHT[0];
    var b := Block(leg.depart, leg.arrive);
    assert BlocksOf(OVERNIGHT) == [b];
    assert leg in d.legs;
    assert DayOf(leg.depart) == 0 && DayOf(leg.arrive) == 1;
    OneBlock(b, 0, DAY);
    OneBlock(b, DAY, 2 * DAY);
    assert Underway(c, d, leg.depart);
    assert UsedAt(c, d, [], leg.depart) == 4 * HOUR;
    assert UsedAt(c, d, [], leg.arrive) == 2 * HOUR;
    assert WorstArrival(c, d, [], 1) == 2 * HOUR by {
      assert WorstArrival(c, d, [], 0) == 0;
    }
    TotalIsTheMaximumExactly(c, d, []);
  }

  // ---------------------------------------------------------------- what a legal verdict means

  /** No instant underway breaks the limit. */
  ghost predicate NeverOver(c: Cumulative, d: Duty, past: seq<Period>)
    requires d.legs != []
  {
    forall t | Underway(c, d, t) :: UsedAt(c, d, past, t) <= c.limit
  }

  lemma {:induction false} FirstOverFinds(totals: seq<Total>)
    ensures FirstOver(totals).None? <==> forall i | 0 <= i < |totals| :: totals[i].used <= totals[i].limit
    decreases |totals|
  {
    if totals != [] {
      FirstOverFinds(totals[1..]);
      assert forall i | 1 <= i < |totals| :: totals[i] == totals[1..][i - 1];
    }
  }

  /** What the totals do not look at keeps the limit too. */
  ghost predicate EvesWithin(c: Cumulative, d: Duty, past: seq<Period>)
    requires d.legs != []
  {
    forall t | Eves(c, d, t) :: UsedAt(c, d, past, t) <= c.limit
  }

  lemma TotalWithinLimit(c: Cumulative, d: Duty, past: seq<Period>)
    requires Sequential(d, past)
    ensures TotalOf(c, d, past).used <= c.limit && EvesWithin(c, d, past) <==> NeverOver(c, d, past)
  {
    hide UsedAt, Eve, Follows, ReleasedAt;
    forall t | Underway(c, d, t) && TotalOf(c, d, past).used <= c.limit && EvesWithin(c, d, past)
      ensures UsedAt(c, d, past, t) <= c.limit
    {
      if c.of == MeasureFlight {
        FlightWorstPoint(c, d, past, t);
      } else {
        DutyWorstPoint(c, d, past, t);
      }
    }
    forall t | Eves(c, d, t) ensures Underway(c, d, t) {
      EvesAreUnderway(c, d, t);
    }
    TotalIsReached(c, d, past);
  }

  lemma LongestGapReaches(bs: seq<Block>, from: Time, to: Time, n: nat)
    requires n > 0
    ensures LongestGap(bs, from, to) >= n <==> HasGap(bs, from, to, n)
  {
    LongestUpToReaches(bs, from, to, if from < to then to - from else 0, n);
    if u :| GapAt(bs, from, to, n, u) {
      assert n <= to - from;
    }
  }

  lemma {:induction false} LongestUpToReaches(bs: seq<Block>, from: Time, to: Time, most: nat, n: nat)
    requires n > 0
    ensures n <= most ==> (LongestGapUpTo(bs, from, to, most) >= n <==> HasGap(bs, from, to, n))
    decreases most
  {
    if most > 0 {
      LongestUpToReaches(bs, from, to, most - 1, n);
      if n <= most && HasGap(bs, from, to, most) {
        ShorterGap(bs, from, to, most, n);
      }
    }
  }

  lemma ShorterGap(bs: seq<Block>, from: Time, to: Time, k: nat, n: nat)
    requires n <= k && HasGap(bs, from, to, k)
    ensures HasGap(bs, from, to, n)
  {
    var u :| GapAt(bs, from, to, k, u);
    assert GapAt(bs, from, to, n, u);
  }

  /** The duty passes its own check, nothing was released within the required rest before
      report, the window before report has a free stretch of the required length, and no
      limit is broken at any instant the duty is underway. */
  ghost predicate Upheld(d: Duty, past: seq<Period>)
    requires d.legs != []
  {
    && Checked(d).legal
    && (d.rules.rest > 0 ==> !exists p :: p in past && d.report - d.rules.rest < p.release <= d.report)
    && (d.rules.freeTime > 0 && d.rules.freeWindow > 0 ==>
          HasGap(Busy(past), d.report - d.rules.freeWindow, d.report, d.rules.freeTime))
    && forall i | 0 <= i < |d.rules.cumulative| :: NeverOver(d.rules.cumulative[i], d, past)
  }

  lemma LegalIsUpheld(d: Duty, past: seq<Period>)
    requires Sequential(d, past)
    ensures Upheld(d, past) <==>
            Admitted(d, past).legal && forall i | 0 <= i < |d.rules.cumulative| :: EvesWithin(d.rules.cumulative[i], d, past)
    ensures (forall i | 0 <= i < |d.rules.cumulative| :: d.rules.cumulative[i].calendarDays <= 0)
            ==> (Admitted(d, past).legal <==> Upheld(d, past))
  {
    hide Follows, NeverOver, EvesWithin, Checked, TotalOf, LongestGap, HasGap, LastReleased, FirstOver;
    LastReleasedIsLast(past, d.report, d.report - d.rules.rest + 1);
    if d.rules.freeTime > 0 {
      LongestGapReaches(Busy(past), d.report - d.rules.freeWindow, d.report, d.rules.freeTime);
    }
    var totals := TotalsOf(d, past);
    forall i | 0 <= i < |totals|
      ensures var c := d.rules.cumulative[i];
              && (totals[i].used <= totals[i].limit && EvesWithin(c, d, past) <==> NeverOver(c, d, past))
              && (c.calendarDays <= 0 ==> EvesWithin(c, d, past))
    {
      TotalWithinLimit(d.rules.cumulative[i], d, past);
      TotalLimit(d.rules.cumulative[i], d, past);
      NoEvesOverHours(d.rules.cumulative[i], d, past);
    }
    FirstOverFinds(totals);
  }

  lemma NoEvesOverHours(c: Cumulative, d: Duty, past: seq<Period>)
    requires d.legs != []
    ensures c.calendarDays <= 0 ==> EvesWithin(c, d, past)
  {
  }

  lemma TotalLimit(c: Cumulative, d: Duty, past: seq<Period>)
    requires d.legs != []
    ensures TotalOf(c, d, past).limit == c.limit
  {
  }

  // ---------------------------------------------------------------- trimming

  /** No look-back of the duty's rules reaches before the cutoff. */
  predicate OutOfReach(cutoff: Time, d: Duty)
    requires d.legs != []
  {
    && (d.rules.rest > 0 ==> cutoff <= d.report - d.rules.rest)
    && (d.rules.freeTime > 0 && d.rules.freeWindow > 0 ==> cutoff <= d.report - d.rules.freeWindow)
    && (forall i | 0 <= i < |d.rules.cumulative| ::
          && cutoff <= Window(d.rules.cumulative[i], ReleasedAt(d)).0
          && forall l | l in d.legs :: cutoff <= Window(d.rules.cumulative[i], l.arrive).0)
  }

  lemma {:induction false} TrimKeepsArrivals(c: Cumulative, d: Duty, past: seq<Period>, cutoff: Time, n: nat)
    requires ReleasedAfterFlying(past) && d.legs != [] && n <= |d.legs|
    requires forall l | l in d.legs :: cutoff <= Window(c, l.arrive).0
    ensures WorstArrival(c, d, Kept(past, cutoff), n) == WorstArrival(c, d, past, n)
    decreases n
  {
    hide TimeIn, Flown, OnDuty, Kept, Window, Overlap, ReleasedAfterFlying;
    if n > 0 {
      TrimKeepsArrivals(c, d, past, cutoff, n - 1);
      var (from, to) := Window(c, d.legs[n - 1].arrive);
      TrimKeepsTimes(past, cutoff, from, to);
    }
  }

  lemma TrimKeepsTotal(c: Cumulative, d: Duty, past: seq<Period>, cutoff: Time)
    requires ReleasedAfterFlying(past) && d.legs != []
    requires cutoff <= Window(c, ReleasedAt(d)).0 && forall l | l in d.legs :: cutoff <= Window(c, l.arrive).0
    ensures TotalOf(c, d, Kept(past, cutoff)) == TotalOf(c, d, past)
  {
    hide TimeIn, Flown, OnDuty, Kept, Window, Overlap, ReleasedAfterFlying, ReleasedAt;
    TrimKeepsArrivals(c, d, past, cutoff, |d.legs|);
    var (from, to) := Window(c, ReleasedAt(d));
    TrimKeepsTimes(past, cutoff, from, to);
  }

  /** Trimming never changes a legality answer: with the cutoff before every look-back
      and before report less the required rest, the verdict is the same, totals and
      reason included. */
  lemma TrimKeepsTheVerdict(d: Duty, past: seq<Period>, cutoff: Time)
    requires ReleasedAfterFlying(past) && d.legs != [] && OutOfReach(cutoff, d)
    ensures Admitted(d, Kept(past, cutoff)) == Admitted(d, past)
  {
    hide Checked, TotalOf, Kept, LastReleased, LongestGap, Window, ReleasedAt, FirstOver, ReleasedAfterFlying;
    var kept := Kept(past, cutoff);
    assert RestTooShort(d, kept) == RestTooShort(d, past) by {
      if d.rules.rest > 0 {
        LastReleasedIsLast(past, d.report, d.report - d.rules.rest + 1);
        LastReleasedIsLast(kept, d.report, d.report - d.rules.rest + 1);
        forall p: Period ensures p in kept <==> p in past && p.release >= cutoff {
          KeptMembers(past, cutoff, p);
        }
      }
    }
    assert FreeTimeTooShort(d, kept) == FreeTimeTooShort(d, past) by {
      if d.rules.freeTime > 0 && d.rules.freeWindow > 0 {
        TrimKeepsFreeTime(past, cutoff, d.report - d.rules.freeWindow, d.report);
      }
    }
    assert TotalsOf(d, kept) == TotalsOf(d, past) by {
      forall i | 0 <= i < |d.rules.cumulative|
        ensures TotalOf(d.rules.cumulative[i], d, kept) == TotalOf(d.rules.cumulative[i], d, past)
      {
        TrimKeepsTotal(d.rules.cumulative[i], d, past, cutoff);
      }
    }
  }
}
