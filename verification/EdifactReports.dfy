/** Any CONTRL body read, whatever order its segments come in, and where the segments of
    one written carry each part of the report. */
module EdifactReports {
  import opened Sequences
  import opened EdifactSyntax
  import opened EdifactEnvelope
  import opened EdifactControl
  import Decimal

  // ---------------------------------------------------------------- any list of segments

  /** How many segments come before the next of a tag. */
  function Before(segs: seq<Segment>, tag: string): (n: nat)
    ensures n <= |segs| && (forall i | 0 <= i < n :: segs[i].tag != tag) && (n < |segs| ==> segs[n].tag == tag)
  {
    if segs == [] || segs[0].tag == tag then 0 else 1 + Before(segs[1..], tag)
  }

  /** One element report for each UCD. */
  function ElementsIn(segs: seq<Segment>): seq<ElementReport> {
    if segs == [] then []
    else (if segs[0].tag == "UCD" then [ElementFrom(Value(segs[0], 0), segs[0], 1)] else []) + ElementsIn(segs[1..])
  }

  /** One segment report for each UCS, with the UCDs up to the next. */
  function SegmentsIn(segs: seq<Segment>): seq<SegmentReport>
    decreases |segs|
  {
    if segs == [] then []
    else if segs[0].tag != "UCS" then SegmentsIn(segs[1..])
    else
      var n := Before(segs[1..], "UCS");
      [SegmentFrom(segs[0]).(elements := ElementsIn(segs[1..][..n]))] + SegmentsIn(segs[1..][n..])
  }

  /** One message report for each UCM, with the UCSs up to the next. */
  function ReportsIn(segs: seq<Segment>): seq<MessageReport>
    decreases |segs|
  {
    if segs == [] then []
    else if segs[0].tag != "UCM" then ReportsIn(segs[1..])
    else
      var n := Before(segs[1..], "UCM");
      [MessageFrom(segs[0]).(segments := SegmentsIn(segs[1..][..n]))] + ReportsIn(segs[1..][n..])
  }

  lemma FoldFirst(ms: seq<MessageReport>, segs: seq<Segment>)
    requires segs != []
    ensures FoldAll(ms, segs) == FoldAll(Fold(ms, segs[0]), segs[1..])
  {
    hide Fold;
    assert segs == [segs[0]] + segs[1..];
    FoldConcat(ms, [segs[0]], segs[1..]);
    assert [segs[0]][..0] == [];
    assert FoldAll(ms, [segs[0]][..0]) == ms;
  }

  /** The reports before the last are done with once it has begun. */
  lemma {:induction false} FoldBehind(done: seq<MessageReport>, ms: seq<MessageReport>, segs: seq<Segment>)
    requires ms != []
    ensures FoldAll(done + ms, segs) == done + FoldAll(ms, segs)
    decreases |segs|
  {
    hide MessageFrom, SegmentFrom, ElementFrom, WithElementReport, WithSegmentReport;
    if segs == [] {
    } else {
      FoldFirst(done + ms, segs);
      FoldFirst(ms, segs);
      var next := Fold(ms, segs[0]);
      assert next != [];
      assert Fold(done + ms, segs[0]) == done + next;
      FoldBehind(done, next, segs[1..]);
    }
  }

  /** Inside one message nothing starts another. */
  lemma {:induction false} FoldOne(m: MessageReport, segs: seq<Segment>)
    requires forall i | 0 <= i < |segs| :: segs[i].tag != "UCM"
    ensures FoldAll([m], segs) == [FoldInto(m, segs)]
    decreases |segs|
  {
    hide SegmentFrom, ElementFrom, WithElementReport, WithSegmentReport, MessageFrom;
    if segs != [] {
      FoldFirst([m], segs);
      var next := Within(m, segs[0]);
      assert Fold([m], segs[0]) == [next];
      FoldOne(next, segs[1..]);
    }
  }

  /** What a UCS or a UCD adds to the message it stands in. */
  function Within(m: MessageReport, s: Segment): MessageReport {
    if s.tag == "UCS" then WithSegmentReport(m, SegmentFrom(s))
    else if s.tag == "UCD" then WithElementReport(m, ElementFrom(Value(s, 0), s, 1))
    else m
  }

  function FoldInto(m: MessageReport, segs: seq<Segment>): MessageReport
    decreases |segs|
  {
    if segs == [] then m else FoldInto(Within(m, segs[0]), segs[1..])
  }

  /** More element reports for the last segment report, when there is one. */
  function WithElements(m: MessageReport, es: seq<ElementReport>): MessageReport {
    if m.segments == [] then m
    else
      var last := |m.segments| - 1;
      m.(segments := m.segments[last := m.segments[last].(elements := m.segments[last].elements + es)])
  }

  lemma {:induction false} ElementsAdd(m: MessageReport, es: seq<ElementReport>, more: seq<ElementReport>)
    ensures WithElements(WithElements(m, es), more) == WithElements(m, es + more)
    ensures WithElements(m, []) == m
  {
    if m.segments != [] {
      var last := |m.segments| - 1;
      var s := m.segments[last];
      AddAssoc(s.elements, es, more);
      assert s.elements + [] == s.elements && m.segments[last := s] == m.segments;
    }
  }

  lemma {:induction false} WithinElements(m: MessageReport, s: Segment)
    requires s.tag != "UCS"
    ensures Within(m, s) == WithElements(m, if s.tag == "UCD" then [ElementFrom(Value(s, 0), s, 1)] else [])
  {
    hide ElementFrom;
    ElementsAdd(m, [], []);
  }

  /** Up to the next UCS the UCDs go to the last segment report. */
  lemma {:induction false} FoldElements(m: MessageReport, segs: seq<Segment>)
    requires forall i | 0 <= i < |segs| :: segs[i].tag != "UCS"
    ensures FoldInto(m, segs) == WithElements(m, ElementsIn(segs))
    decreases |segs|
  {
    hide ElementFrom, Within, WithElements;
    if segs == [] {
      ElementsAdd(m, [], []);
    } else {
      FoldElements(Within(m, segs[0]), segs[1..]);
      WithinElements(m, segs[0]);
      ElementsAdd(m, if segs[0].tag == "UCD" then [ElementFrom(Value(segs[0], 0), segs[0], 1)] else [], ElementsIn(segs[1..]));
    }
  }

  lemma {:induction false} FoldIntoConcat(m: MessageReport, x: seq<Segment>, y: seq<Segment>)
    ensures FoldInto(m, x + y) == FoldInto(FoldInto(m, x), y)
    decreases |x|
  {
    hide Within;
    if x == [] {
      assert x + y == y;
    } else {
      assert (x + y)[1..] == x[1..] + y;
      FoldIntoConcat(Within(m, x[0]), x[1..], y);
    }
  }

  /** One UCS and the UCDs up to the next. */
  lemma {:induction false} FoldOneSegment(m: MessageReport, ucs: Segment, segs: seq<Segment>)
    requires ucs.tag == "UCS" && forall i | 0 <= i < |segs| :: segs[i].tag != "UCS"
    ensures FoldInto(Within(m, ucs), segs) == m.(segments := m.segments + [SegmentFrom(ucs).(elements := ElementsIn(segs))])
  {
    hide ElementFrom, SegmentFrom, ElementsIn;
    var begun := WithSegmentReport(m, SegmentFrom(ucs));
    FoldElements(begun, segs);
    NoElementsYet(ucs);
    assert [] + ElementsIn(segs) == ElementsIn(segs);
    var report := SegmentFrom(ucs).(elements := ElementsIn(segs));
    assert (m.segments + [SegmentFrom(ucs)])[|m.segments| := report] == m.segments + [report];
  }

  lemma NoElementsYet(s: Segment)
    ensures SegmentFrom(s).elements == []
  {
  }

  lemma NothingMore(m: MessageReport)
    ensures m.(segments := m.segments + []) == m
  {
  }

  /** Before the first UCS nothing is added; from then on one report for each. */
  lemma {:induction false} FoldSegments(m: MessageReport, segs: seq<Segment>)
    requires m.segments == [] || segs == [] || segs[0].tag == "UCS"
    ensures FoldInto(m, segs) == m.(segments := m.segments + SegmentsIn(segs))
    decreases |segs|
  {
    hide ElementFrom, SegmentFrom, ElementsIn;
    if segs == [] {
      NothingMore(m);
    } else if segs[0].tag != "UCS" {
      assert Within(m, segs[0]) == m;
      FoldSegments(m, segs[1..]);
    } else {
      FoldFromUcs(m, segs);
    }
  }

  lemma {:induction false} FoldFromUcs(m: MessageReport, segs: seq<Segment>)
    requires segs != [] && segs[0].tag == "UCS"
    ensures FoldInto(m, segs) == m.(segments := m.segments + SegmentsIn(segs))
    decreases |segs|
  {
    hide ElementFrom, SegmentFrom, ElementsIn, Within, Before;
    var rest, n := segs[1..], Before(segs[1..], "UCS");
    var report := SegmentFrom(segs[0]).(elements := ElementsIn(rest[..n]));
    FoldOneSegment(m, segs[0], rest[..n]);
    assert rest == rest[..n] + rest[n..];
    FoldIntoConcat(Within(m, segs[0]), rest[..n], rest[n..]);
    var filled := m.(segments := m.segments + [report]);
    if rest[n..] == [] {
      assert SegmentsIn(segs) == [report] + SegmentsIn([]) == [report];
    } else {
      FoldFromUcs(filled, rest[n..]);
      AddAssoc(m.segments, [report], SegmentsIn(rest[n..]));
    }
  }

  /** Reading any segments: each UCM starts a message report, each UCS in it a segment
      report, each UCD in that an element report, in order; one that comes before what it
      belongs to is passed over, and so is anything else. */
  lemma {:induction false} AnyBodyReads(segs: seq<Segment>)
    ensures FoldAll([], segs) == ReportsIn(segs)
    decreases |segs|
  {
    hide MessageFrom, SegmentsIn;
    if segs == [] {
    } else {
      FoldFirst([], segs);
      if segs[0].tag != "UCM" {
        AnyBodyReads(segs[1..]);
      } else {
        var rest, n, m := segs[1..], Before(segs[1..], "UCM"), MessageFrom(segs[0]);
        assert rest == rest[..n] + rest[n..] && [] + [m] == [m];
        NoSegmentsYet(segs[0]);
        FoldConcat([m], rest[..n], rest[n..]);
        FoldOne(m, rest[..n]);
        FoldSegments(m, rest[..n]);
        assert [] + SegmentsIn(rest[..n]) == SegmentsIn(rest[..n]);
        var read := m.(segments := SegmentsIn(rest[..n]));
        NextMessage(read, rest[n..]);
        AnyBodyReads(rest[n..]);
      }
    }
  }

  lemma NoSegmentsYet(s: Segment)
    ensures MessageFrom(s).segments == []
  {
  }

  /** A UCM leaves the message before it as it is. */
  lemma {:induction false} NextMessage(m: MessageReport, segs: seq<Segment>)
    requires segs == [] || segs[0].tag == "UCM"
    ensures FoldAll([m], segs) == [m] + FoldAll([], segs)
  {
    if segs == [] {
      assert [m] + [] == [m];
    } else {
      FoldFirst([m], segs);
      FoldFirst([], segs);
      var one := [MessageFrom(segs[0])];
      assert Fold([m], segs[0]) == [m] + one && Fold([], segs[0]) == one;
      FoldBehind([m], one, segs[1..]);
    }
  }

  // ---------------------------------------------------------------- where each part is carried

  /** A reference to an element: its position, and a component that is above zero. */
  predicate Refers(s: Segment, i: int, e: ElementReport) {
    && Get(s, i, 0) == (if e.position == 0 then "" else Decimal.Itoa(e.position))
    && Get(s, i, 1) == (if e.position == 0 || e.component <= 0 then "" else Decimal.Itoa(e.component))
  }

  /** The data elements of the CONTRL segments, as version 4 of ISO 9735-4 numbers them. */
  lemma ReportColumns(r: Report, m: MessageReport, s: SegmentReport, e: ElementReport)
    ensures var uci := UciSegment(r);
            && uci.tag == "UCI" && Value(uci, 0) == r.controlRef
            && Get(uci, 1, 0) == r.sender.id && Get(uci, 1, 1) == r.sender.qualifier && Get(uci, 1, 2) == r.sender.routingAddr
            && Get(uci, 2, 0) == r.recipient.id && Get(uci, 2, 1) == r.recipient.qualifier && Get(uci, 2, 2) == r.recipient.routingAddr
            && Value(uci, 3) == r.action && Value(uci, 4) == r.error && Value(uci, 5) == r.serviceTag && Refers(uci, 6, r.element)
    ensures var ucm := UcmSegment(m);
            && ucm.tag == "UCM" && Value(ucm, 0) == m.reference
            && Get(ucm, 1, 0) == m.id.name && Get(ucm, 1, 1) == m.id.version && Get(ucm, 1, 2) == m.id.release
            && Get(ucm, 1, 3) == m.id.agency && Get(ucm, 1, 4) == m.id.association
            && Value(ucm, 2) == m.action && Value(ucm, 3) == m.error && Value(ucm, 4) == m.serviceTag && Refers(ucm, 5, m.element)
    ensures UcsSegment(s).tag == "UCS" && Value(UcsSegment(s), 0) == Decimal.Itoa(s.position) && Value(UcsSegment(s), 1) == s.error
    ensures UcdSegment(e).tag == "UCD" && Value(UcdSegment(e), 0) == e.error && Refers(UcdSegment(e), 1, e)
  {
  }
}
