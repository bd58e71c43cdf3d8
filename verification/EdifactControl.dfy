/** CONTRL, the syntax and service report: a tree of interchange, message, segment
    and element reports, written as a flat segment list and folded back. */
module EdifactControl {
  import opened Wrappers
  import opened EdifactSyntax
  import opened EdifactNormal
  import opened EdifactRoundTrip
  import opened EdifactInterchange
  import opened EdifactEnvelope
  import opened EdifactBuilt
  import Decimal

  // ---------------------------------------------------------------- reports

  /** One erroneous data element; component 0 means the element itself. */
  datatype ElementReport = ElementReport(error: string, position: int, component: int)

  datatype SegmentReport = SegmentReport(position: int, error: string, elements: seq<ElementReport>)

  datatype MessageReport = MessageReport(
    reference: string, id: MessageType, action: string, error: string, serviceTag: string,
    element: ElementReport, segments: seq<SegmentReport>)

  datatype Report = Report(
    controlRef: string, sender: Party, recipient: Party, action: string, error: string, serviceTag: string,
    element: ElementReport, messages: seq<MessageReport>)

  // ---------------------------------------------------------------- writing the tree flat

  /** S011; position 0 means the composite is absent. */
  function ElementId(e: ElementReport): Element {
    if e.position == 0 then Simple("")
    else [[Decimal.Itoa(e.position), if e.component > 0 then Decimal.Itoa(e.component) else ""]]
  }

  function UciSegment(r: Report): Segment {
    Segment("UCI", [
      Simple(r.controlRef),
      [[r.sender.id, r.sender.qualifier, r.sender.routingAddr]],
      [[r.recipient.id, r.recipient.qualifier, r.recipient.routingAddr]],
      Simple(r.action), Simple(r.error), Simple(r.serviceTag), ElementId(r.element)])
  }

  function UcmSegment(m: MessageReport): Segment {
    Segment("UCM", [
      Simple(m.reference),
      [[m.id.name, m.id.version, m.id.release, m.id.agency, m.id.association]],
      Simple(m.action), Simple(m.error), Simple(m.serviceTag), ElementId(m.element)])
  }

  function UcsSegment(s: SegmentReport): Segment {
    Segment("UCS", [Simple(Decimal.Itoa(s.position)), Simple(s.error)])
  }

  function UcdSegment(e: ElementReport): Segment {
    Segment("UCD", [Simple(e.error), ElementId(e)])
  }

  function FlatElements(es: seq<ElementReport>): seq<Segment> {
    if es == [] then [] else FlatElements(es[..|es| - 1]) + [UcdSegment(es[|es| - 1])]
  }

  function FlatSegments(ss: seq<SegmentReport>): seq<Segment> {
    if ss == [] then []
    else FlatSegments(ss[..|ss| - 1]) + [UcsSegment(ss[|ss| - 1])] + FlatElements(ss[|ss| - 1].elements)
  }

  function FlatMessageReport(m: MessageReport): seq<Segment> {
    [UcmSegment(m)] + FlatSegments(m.segments)
  }

  function FlatReports(ms: seq<MessageReport>): seq<Segment> {
    if ms == [] then []
    else FlatReports(ms[..|ms| - 1]) + FlatMessageReport(ms[|ms| - 1])
  }

  function FlatReport(r: Report): seq<Segment> {
    [UciSegment(r)] + FlatReports(r.messages)
  }

  /** Builds the body of the CONTRL message. */
  method BuildBody(r: Report) returns (body: seq<Segment>)
    ensures body == FlatReport(r)
  {
    var reports := BuildReports(r.messages);
    body := [UciSegment(r)] + reports;
  }

  method BuildReports(ms: seq<MessageReport>) returns (out: seq<Segment>)
    ensures out == FlatReports(ms)
  {
    out := [];
    for i := 0 to |ms|
      invariant out == FlatReports(ms[..i])
    {
      ghost var sofar := ms[..i + 1];
      assert sofar[..i] == ms[..i] && sofar[i] == ms[i];
      var segments := BuildSegments(ms[i].segments);
      out := out + ([UcmSegment(ms[i])] + segments);
    }
    assert ms[..|ms|] == ms;
  }

  method BuildSegments(ss: seq<SegmentReport>) returns (out: seq<Segment>)
    ensures out == FlatSegments(ss)
  {
    out := [];
    for i := 0 to |ss|
      invariant out == FlatSegments(ss[..i])
    {
      ghost var sofar := ss[..i + 1];
      assert sofar[..i] == ss[..i] && sofar[i] == ss[i];
      out := out + [UcsSegment(ss[i])];
      var elements := BuildElements(ss[i].elements);
      out := out + elements;
    }
    assert ss[..|ss|] == ss;
  }

  method BuildElements(es: seq<ElementReport>) returns (out: seq<Segment>)
    ensures out == FlatElements(es)
  {
    out := [];
    for i := 0 to |es|
      invariant out == FlatElements(es[..i])
    {
      ghost var sofar := es[..i + 1];
      assert sofar[..i] == es[..i] && sofar[i] == es[i];
      out := out + [UcdSegment(es[i])];
    }
    assert es[..|es|] == es;
  }

  // ---------------------------------------------------------------- folding it back

  /** A composite that does not read as numbers counts as position 0, component 0. */
  function ElementFrom(code: string, s: Segment, i: int): ElementReport {
    ElementReport(code, Decimal.AtoiOrZero(Get(s, i, 0)), Decimal.AtoiOrZero(Get(s, i, 1)))
  }

  function MessageFrom(s: Segment): MessageReport {
    MessageReport(Value(s, 0), MessageType(Get(s, 1, 0), Get(s, 1, 1), Get(s, 1, 2), Get(s, 1, 3), Get(s, 1, 4)),
                  Value(s, 2), Value(s, 3), Value(s, 4), ElementFrom("", s, 5), [])
  }

  function SegmentFrom(s: Segment): SegmentReport {
    SegmentReport(Decimal.AtoiOrZero(Value(s, 0)), Value(s, 1), [])
  }

  function WithSegmentReport(m: MessageReport, s: SegmentReport): MessageReport {
    m.(segments := m.segments + [s])
  }

  function WithElementReport(m: MessageReport, e: ElementReport): MessageReport {
    if m.segments == [] then m
    else
      var last := |m.segments| - 1;
      m.(segments := m.segments[last := m.segments[last].(elements := m.segments[last].elements + [e])])
  }

  /** UCS and UCD belong to the UCM and the UCS before them, when there is one. */
  function Fold(ms: seq<MessageReport>, s: Segment): seq<MessageReport> {
    if s.tag == "UCM" then ms + [MessageFrom(s)]
    else if ms == [] then ms
    else
      var last := |ms| - 1;
      if s.tag == "UCS" then ms[last := WithSegmentReport(ms[last], SegmentFrom(s))]
      else if s.tag == "UCD" then ms[last := WithElementReport(ms[last], ElementFrom(Value(s, 0), s, 1))]
      else ms
  }

  function FoldAll(ms: seq<MessageReport>, segs: seq<Segment>): seq<MessageReport> {
    if segs == [] then ms else Fold(FoldAll(ms, segs[..|segs| - 1]), segs[|segs| - 1])
  }

  function FirstTagged(segs: seq<Segment>, tag: string): Option<Segment> {
    if segs == [] then None else if segs[0].tag == tag then Some(segs[0]) else FirstTagged(segs[1..], tag)
  }

  /** The meaning of ParseCONTRL: None when the message is not a CONTRL or has no UCI. */
  function ReadReport(m: Message): Option<Report> {
    if Get(m.header, 1, 0) != "CONTRL" then None
    else
      match FirstTagged(m.segments, "UCI")
      case None => None
      case Some(uci) => Some(Report(
        Value(uci, 0), Party(Get(uci, 1, 0), Get(uci, 1, 1), Get(uci, 1, 2)),
        Party(Get(uci, 2, 0), Get(uci, 2, 1), Get(uci, 2, 2)),
        Value(uci, 3), Value(uci, 4), Value(uci, 5), ElementFrom("", uci, 6), FoldAll([], m.segments)))
  }

  method FindFirst(segs: seq<Segment>, tag: string) returns (found: Option<Segment>)
    ensures found == FirstTagged(segs, tag)
  {
    for i := 0 to |segs|
      invariant FirstTagged(segs, tag) == FirstTagged(segs[i..], tag)
    {
      if segs[i].tag == tag {
        return Some(segs[i]);
      }
      assert segs[i..][1..] == segs[i + 1..];
    }
    return None;
  }

  /** Reads a CONTRL message into a report. */
  method ParseControl(m: Message) returns (r: Option<Report>)
    ensures r == ReadReport(m)
  {
    if Get(m.header, 1, 0) != "CONTRL" {
      return None;
    }
    var uci := FindFirst(m.segments, "UCI");
    if uci.None? {
      return None;
    }
    var messages: seq<MessageReport> := [];
    for i := 0 to |m.segments|
      invariant messages == FoldAll([], m.segments[..i])
    {
      ghost var sofar := m.segments[..i + 1];
      assert sofar[..i] == m.segments[..i] && sofar[i] == m.segments[i];
      var s := m.segments[i];
      if s.tag == "UCM" {
        messages := messages + [MessageFrom(s)];
      } else if messages != [] {
        var last := messages[|messages| - 1];
        if s.tag == "UCS" {
          last := last.(segments := last.segments + [SegmentFrom(s)]);
        } else if s.tag == "UCD" && last.segments != [] {
          var seg := last.segments[|last.segments| - 1];
          seg := seg.(elements := seg.elements + [ElementFrom(Value(s, 0), s, 1)]);
          last := last.(segments := last.segments[|last.segments| - 1 := seg]);
        }
        messages := messages[|messages| - 1 := last];
      }
    }
    assert m.segments[..|m.segments|] == m.segments;
    var u := uci.value;
    r := Some(Report(
      Value(u, 0), Party(Get(u, 1, 0), Get(u, 1, 1), Get(u, 1, 2)), Party(Get(u, 2, 0), Get(u, 2, 1), Get(u, 2, 2)),
      Value(u, 3), Value(u, 4), Value(u, 5), ElementFrom("", u, 6), messages));
  }

  // ---------------------------------------------------------------- what CONTRL can carry

  /** An element reference the composite can hold: no component without a position. */
  predicate CarriesElement(e: ElementReport) {
    e.component >= 0 && (e.position == 0 ==> e.component == 0)
  }

  /** A reference outside a UCD carries no error code of its own. */
  predicate CarriesReference(e: ElementReport) {
    e.error == "" && CarriesElement(e)
  }

  predicate CarriesSegment(s: SegmentReport) {
    forall i | 0 <= i < |s.elements| :: CarriesElement(s.elements[i])
  }

  predicate CarriesMessage(m: MessageReport) {
    CarriesReference(m.element) && forall i | 0 <= i < |m.segments| :: CarriesSegment(m.segments[i])
  }

  predicate Carries(r: Report) {
    CarriesReference(r.element) && forall i | 0 <= i < |r.messages| :: CarriesMessage(r.messages[i])
  }

  // ---------------------------------------------------------------- folding undoes flattening

  /** What comes back of an element reference. */
  function Returned(e: ElementReport): ElementReport {
    if e.position == 0 then e.(component := 0)
    else if e.component <= 0 then e.(component := 0)
    else e
  }

  lemma ElementReturns(code: string, s: Segment, i: int, e: ElementReport)
    requires 0 <= i < |s.elements| && s.elements[i] == ElementId(e)
    ensures ElementFrom(code, s, i) == Returned(e).(error := code)
  {
    Decimal.AtoiOfItoa(e.position);
    Decimal.AtoiOfItoa(e.component);
  }

  lemma ReturnedExactly(e: ElementReport)
    ensures Returned(e) == e <==> CarriesElement(e)
  {
  }

  function ReturnedAll(es: seq<ElementReport>): (r: seq<ElementReport>)
    ensures |r| == |es| && forall i | 0 <= i < |r| :: r[i] == Returned(es[i])
  {
    seq(|es|, i requires 0 <= i < |es| => Returned(es[i]))
  }

  function ReturnedSegment(s: SegmentReport): SegmentReport {
    s.(elements := ReturnedAll(s.elements))
  }

  function ReturnedSegments(ss: seq<SegmentReport>): (r: seq<SegmentReport>)
    ensures |r| == |ss| && forall i | 0 <= i < |r| :: r[i] == ReturnedSegment(ss[i])
  {
    seq(|ss|, i requires 0 <= i < |ss| => ReturnedSegment(ss[i]))
  }

  function ReturnedMessage(m: MessageReport): MessageReport {
    m.(element := Returned(m.element).(error := ""), segments := ReturnedSegments(m.segments))
  }

  function ReturnedMessages(ms: seq<MessageReport>): (r: seq<MessageReport>)
    ensures |r| == |ms| && forall i | 0 <= i < |r| :: r[i] == ReturnedMessage(ms[i])
  {
    seq(|ms|, i requires 0 <= i < |ms| => ReturnedMessage(ms[i]))
  }

  function ReturnedReport(r: Report): Report {
    r.(element := Returned(r.element).(error := ""), messages := ReturnedMessages(r.messages))
  }

  lemma {:induction false} FoldConcat(ms: seq<MessageReport>, x: seq<Segment>, y: seq<Segment>)
    ensures FoldAll(ms, x + y) == FoldAll(FoldAll(ms, x), y)
    decreases |y|
  {
    hide Fold;
    if y == [] {
      assert x + y == x;
    } else {
      assert (x + y)[..|x| + |y| - 1] == x + y[..|y| - 1];
      FoldConcat(ms, x, y[..|y| - 1]);
    }
  }

  lemma FoldOne(ms: seq<MessageReport>, s: Segment)
    ensures FoldAll(ms, [s]) == Fold(ms, s)
  {
    assert [s][..0] == [];
    assert FoldAll(ms, [s][..0]) == ms;
  }

  /** The message in hand, with the last segment report's elements replaced. */
  function Growing(ms: seq<MessageReport>, m: MessageReport, ss: seq<SegmentReport>): seq<MessageReport> {
    ms + [m.(segments := ss)]
  }

  lemma {:induction false} FoldElements(ms: seq<MessageReport>, m: MessageReport, ss: seq<SegmentReport>, s: SegmentReport,
                                        es: seq<ElementReport>)
    requires s.elements == []
    ensures FoldAll(Growing(ms, m, ss + [s]), FlatElements(es))
         == Growing(ms, m, ss + [s.(elements := ReturnedAll(es))])
    decreases |es|
  {
    hide Fold, Returned;
    if es == [] {
      assert ReturnedAll(es) == [] && s.(elements := []) == s;
    } else {
      var init, e := es[..|es| - 1], es[|es| - 1];
      FoldElements(ms, m, ss, s, init);
      FoldConcat(Growing(ms, m, ss + [s]), FlatElements(init), [UcdSegment(e)]);
      FoldOne(Growing(ms, m, ss + [s.(elements := ReturnedAll(init))]), UcdSegment(e));
      FoldUcd(ms, m, ss, s.(elements := ReturnedAll(init)), e);
      assert ReturnedAll(init) + [Returned(e)] == ReturnedAll(es);
    }
  }

  lemma FoldUcd(ms: seq<MessageReport>, m: MessageReport, ss: seq<SegmentReport>, s: SegmentReport, e: ElementReport)
    ensures Fold(Growing(ms, m, ss + [s]), UcdSegment(e))
         == Growing(ms, m, ss + [s.(elements := s.elements + [Returned(e)])])
  {
    ElementReturns(e.error, UcdSegment(e), 1, e);
    assert Value(UcdSegment(e), 0) == e.error;
    var last := m.(segments := ss + [s]);
    assert WithElementReport(last, Returned(e)).segments == ss + [s.(elements := s.elements + [Returned(e)])];
  }

  lemma FoldUcs(ms: seq<MessageReport>, m: MessageReport, ss: seq<SegmentReport>, s: SegmentReport)
    ensures Fold(Growing(ms, m, ss), UcsSegment(s)) == Growing(ms, m, ss + [s.(elements := [])])
  {
    Decimal.AtoiOfItoa(s.position);
  }

  lemma {:induction false} FoldSegments(ms: seq<MessageReport>, m: MessageReport, ss: seq<SegmentReport>)
    ensures FoldAll(Growing(ms, m, []), FlatSegments(ss)) == Growing(ms, m, ReturnedSegments(ss))
    decreases |ss|
  {
    hide Fold, ReturnedAll, Returned;
    if ss == [] {
      assert ReturnedSegments(ss) == [];
    } else {
      var init, s := ss[..|ss| - 1], ss[|ss| - 1];
      var start, bare := Growing(ms, m, []), s.(elements := []);
      FoldSegments(ms, m, init);
      FoldConcat(start, FlatSegments(init), [UcsSegment(s)]);
      FoldOne(Growing(ms, m, ReturnedSegments(init)), UcsSegment(s));
      FoldUcs(ms, m, ReturnedSegments(init), s);
      FoldConcat(start, FlatSegments(init) + [UcsSegment(s)], FlatElements(s.elements));
      FoldElements(ms, m, ReturnedSegments(init), bare, s.elements);
      assert bare.(elements := ReturnedAll(s.elements)) == ReturnedSegment(s);
      assert ReturnedSegments(init) + [ReturnedSegment(s)] == ReturnedSegments(ss);
    }
  }

  lemma FoldUcm(ms: seq<MessageReport>, m: MessageReport)
    ensures Fold(ms, UcmSegment(m)) == Growing(ms, m.(element := Returned(m.element).(error := "")), [])
  {
    ElementReturns("", UcmSegment(m), 5, m.element);
  }

  lemma FoldReport(before: seq<MessageReport>, m: MessageReport)
    ensures FoldAll(before, FlatMessageReport(m)) == before + [ReturnedMessage(m)]
  {
    var bare := m.(element := Returned(m.element).(error := ""));
    FoldOne(before, UcmSegment(m));
    FoldUcm(before, m);
    FoldConcat(before, [UcmSegment(m)], FlatSegments(m.segments));
    FoldSegments(before, bare, m.segments);
    assert bare.(segments := ReturnedSegments(m.segments)) == ReturnedMessage(m);
  }

  lemma {:induction false} FoldReports(ms: seq<MessageReport>)
    ensures FoldAll([], FlatReports(ms)) == ReturnedMessages(ms)
    decreases |ms|
  {
    if ms != [] {
      var init, m := ms[..|ms| - 1], ms[|ms| - 1];
      FoldReports(init);
      FoldReport(ReturnedMessages(init), m);
      FoldConcat([], FlatReports(init), FlatMessageReport(m));
      SnocMapped(ReturnedMessages(init), ReturnedMessage(m), ReturnedMessages(ms));
    }
  }

  lemma SnocMapped<T>(init: seq<T>, last: T, all: seq<T>)
    requires |all| == |init| + 1 && all[|init|] == last && forall i | 0 <= i < |init| :: all[i] == init[i]
    ensures init + [last] == all
  {
  }

  /** Folding the flat list gives the tree back, exactly when CONTRL can carry it. */
  lemma FoldOfFlat(r: Report, header: Segment, trailer: Segment)
    requires Get(header, 1, 0) == "CONTRL"
    ensures ReadReport(Message(header, FlatReport(r), trailer)) == Some(ReturnedReport(r))
  {
    var uci := UciSegment(r);
    ElementReturns("", uci, 6, r.element);
    FoldConcat([], [uci], FlatReports(r.messages));
    FoldOne([], uci);
    FoldReports(r.messages);
    assert FirstTagged(FlatReport(r), "UCI") == Some(uci);
  }

  lemma ReturnedReportExactly(r: Report)
    ensures ReturnedReport(r) == r <==> Carries(r)
  {
    forall i | 0 <= i < |r.messages| ensures ReturnedMessage(r.messages[i]) == r.messages[i] <==> CarriesMessage(r.messages[i]) {
      ReturnedMessageExactly(r.messages[i]);
    }
    ReturnedExactly(r.element);
    SameExactly(ReturnedMessages(r.messages), r.messages);
    if !Carries(r) && CarriesReference(r.element) {
      var i :| 0 <= i < |r.messages| && !CarriesMessage(r.messages[i]);
      assert ReturnedMessages(r.messages)[i] != r.messages[i];
    }
  }

  lemma SameExactly<T>(x: seq<T>, y: seq<T>)
    requires |x| == |y|
    ensures x == y <==> forall i | 0 <= i < |x| :: x[i] == y[i]
  {
  }

  lemma ReturnedMessageExactly(m: MessageReport)
    ensures ReturnedMessage(m) == m <==> CarriesMessage(m)
  {
    forall i | 0 <= i < |m.segments| ensures ReturnedSegment(m.segments[i]) == m.segments[i] <==> CarriesSegment(m.segments[i]) {
      ReturnedSegmentExactly(m.segments[i]);
    }
    ReturnedExactly(m.element);
    SameExactly(ReturnedSegments(m.segments), m.segments);
    if !CarriesMessage(m) && CarriesReference(m.element) {
      var i :| 0 <= i < |m.segments| && !CarriesSegment(m.segments[i]);
      assert ReturnedSegments(m.segments)[i] != m.segments[i];
    }
  }

  lemma ReturnedSegmentExactly(s: SegmentReport)
    ensures ReturnedSegment(s) == s <==> CarriesSegment(s)
  {
    forall i | 0 <= i < |s.elements| ensures Returned(s.elements[i]) == s.elements[i] <==> CarriesElement(s.elements[i]) {
      ReturnedExactly(s.elements[i]);
    }
    SameExactly(ReturnedAll(s.elements), s.elements);
    if !CarriesSegment(s) {
      var i :| 0 <= i < |s.elements| && !CarriesElement(s.elements[i]);
      assert ReturnedAll(s.elements)[i] != s.elements[i];
    }
  }

  // ---------------------------------------------------------------- through the bytes

  predicate CleanId(t: MessageType) {
    NoBreaks(t.name) && NoBreaks(t.version) && NoBreaks(t.release) && NoBreaks(t.agency) && NoBreaks(t.association)
  }

  predicate CleanParty(p: Party) {
    NoBreaks(p.id) && NoBreaks(p.qualifier) && NoBreaks(p.routingAddr)
  }

  predicate CleanSegmentReport(s: SegmentReport) {
    NoBreaks(s.error) && forall i | 0 <= i < |s.elements| :: NoBreaks(s.elements[i].error)
  }

  predicate CleanMessageReport(m: MessageReport) {
    && NoBreaks(m.reference) && CleanId(m.id) && NoBreaks(m.action) && NoBreaks(m.error) && NoBreaks(m.serviceTag)
    && forall i | 0 <= i < |m.segments| :: CleanSegmentReport(m.segments[i])
  }

  /** No field holds a line break. */
  predicate CleanReport(r: Report) {
    && NoBreaks(r.controlRef) && CleanParty(r.sender) && CleanParty(r.recipient)
    && NoBreaks(r.action) && NoBreaks(r.error) && NoBreaks(r.serviceTag)
    && forall i | 0 <= i < |r.messages| :: CleanMessageReport(r.messages[i])
  }

  /** A report segment: plain, with a body tag. */
  predicate ReportSegment(s: Segment) {
    Plain(s) && s.tag in ["UCI", "UCM", "UCS", "UCD"]
  }

  predicate ReportSegments(segs: seq<Segment>) {
    forall i | 0 <= i < |segs| :: ReportSegment(segs[i])
  }

  lemma ElementIdPlain(e: ElementReport)
    ensures |ElementId(e)| == 1 && CleanElement(ElementId(e))
  {
    NumberClean(e.position);
    NumberClean(e.component);
  }

  lemma {:induction false} FlatElementsPlain(es: seq<ElementReport>)
    requires forall i | 0 <= i < |es| :: NoBreaks(es[i].error)
    ensures ReportSegments(FlatElements(es))
    decreases |es|
  {
    if es != [] {
      FlatElementsPlain(es[..|es| - 1]);
      ElementIdPlain(es[|es| - 1]);
      assert ReportSegment(UcdSegment(es[|es| - 1]));
    }
  }

  lemma {:induction false} FlatSegmentsPlain(ss: seq<SegmentReport>)
    requires forall i | 0 <= i < |ss| :: CleanSegmentReport(ss[i])
    ensures ReportSegments(FlatSegments(ss))
    decreases |ss|
  {
    if ss != [] {
      var s := ss[|ss| - 1];
      FlatSegmentsPlain(ss[..|ss| - 1]);
      FlatElementsPlain(s.elements);
      NumberClean(s.position);
      assert ReportSegment(UcsSegment(s));
    }
  }

  lemma UcmPlain(m: MessageReport)
    requires CleanMessageReport(m)
    ensures ReportSegment(UcmSegment(m))
  {
    ElementIdPlain(m.element);
  }

  lemma UciPlain(r: Report)
    requires CleanReport(r)
    ensures ReportSegment(UciSegment(r))
  {
    ElementIdPlain(r.element);
  }

  lemma {:induction false} FlatReportsPlain(ms: seq<MessageReport>)
    requires forall i | 0 <= i < |ms| :: CleanMessageReport(ms[i])
    ensures ReportSegments(FlatReports(ms))
    decreases |ms|
  {
    if ms != [] {
      FlatReportsPlain(ms[..|ms| - 1]);
      UcmPlain(ms[|ms| - 1]);
      FlatSegmentsPlain(ms[|ms| - 1].segments);
    }
  }

  lemma FlatReportPlain(r: Report)
    requires CleanReport(r)
    ensures ReportSegments(FlatReport(r))
  {
    UciPlain(r);
    FlatReportsPlain(r.messages);
  }

  /** Reading depends only on tags and values. */
  lemma FoldSameValues(ms: seq<MessageReport>, s: Segment, t: Segment)
    requires s.tag == t.tag && SameValues(s, t)
    ensures Fold(ms, s) == Fold(ms, t)
  {
    forall i, k ensures Get(s, i, k) == Get(t, i, k) {
      assert At(s, i, 0, k) == At(t, i, 0, k);
    }
    assert MessageFrom(s) == MessageFrom(t) && SegmentFrom(s) == SegmentFrom(t);
    assert ElementFrom(Value(s, 0), s, 1) == ElementFrom(Value(t, 0), t, 1);
  }

  /** Segment for segment the same tags and values. */
  ghost predicate SameSegments(x: seq<Segment>, y: seq<Segment>) {
    |x| == |y| && forall i | 0 <= i < |x| :: x[i].tag == y[i].tag && SameValues(x[i], y[i])
  }

  lemma {:induction false} FoldAllSameValues(x: seq<Segment>, y: seq<Segment>)
    requires SameSegments(x, y)
    ensures FoldAll([], x) == FoldAll([], y)
    decreases |x|
  {
    if x != [] {
      FoldAllSameValues(x[..|x| - 1], y[..|y| - 1]);
      FoldSameValues(FoldAll([], x[..|x| - 1]), x[|x| - 1], y[|y| - 1]);
    }
  }

  /** Two messages with the same tags and values hold the same report. */
  lemma ReadReportSameValues(m: Message, n: Message)
    requires SameValues(m.header, n.header) && SameSegments(m.segments, n.segments)
    requires m.segments != [] && m.segments[0].tag == "UCI"
    ensures ReadReport(m) == ReadReport(n)
  {
    var u, w := m.segments[0], n.segments[0];
    assert Get(m.header, 1, 0) == Get(n.header, 1, 0) by {
      assert At(m.header, 1, 0, 0) == At(n.header, 1, 0, 0);
    }
    forall i, k ensures Get(u, i, k) == Get(w, i, k) {
      assert At(u, i, 0, k) == At(w, i, 0, k);
    }
    FoldAllSameValues(m.segments, n.segments);
    assert FirstTagged(m.segments, "UCI") == Some(u) && FirstTagged(n.segments, "UCI") == Some(w);
    assert ElementFrom("", u, 6) == ElementFrom("", w, 6);
  }

  /** The CONTRL message carrying a report. */
  function ControlMessage(r: Report, ref: string, version: string, release: string): Message {
    Message(MessageHeader(ref, MessageType("CONTRL", version, release, "UN", "")), FlatReport(r), NO_SEGMENT)
  }

  lemma ControlAddable(r: Report, ref: string, version: string, release: string)
    requires CleanReport(r) && NoBreaks(ref) && NoBreaks(version) && NoBreaks(release)
    ensures Addable(ControlMessage(r, ref, version, release))
  {
    FlatReportPlain(r);
    var body := FlatReport(r);
    forall i | 0 <= i < |body|
      ensures ValidTag(body[i].tag) && KindOf(body[i].tag) == Body && CleanElements(body[i].elements)
    {
      assert ReportSegment(body[i]);
    }
    HeaderPlain(ref, version, release);
  }

  lemma HeaderPlain(ref: string, version: string, release: string)
    requires NoBreaks(ref) && NoBreaks(version) && NoBreaks(release)
    ensures Plain(MessageHeader(ref, MessageType("CONTRL", version, release, "UN", "")))
  {
    var c := ["CONTRL", version, release, "UN", ""];
    assert NoBreaks("CONTRL") && NoBreaks("UN");
    assert CleanComposite(c);
  }

  /** What any reader makes of the CONTRL message holds the same report. */
  lemma ControlRead(rd: Syntax, wr: Syntax, r: Report, m: Message)
    requires Addable(m) && m.segments == FlatReport(r) && ReportSegments(m.segments) && Get(m.header, 1, 0) == "CONTRL"
    ensures ReadReport(ReadMessage(rd, wr, Closed(m))) == Some(ReturnedReport(r))
  {
    var back := ReadBackAll(rd, wr, m.segments);
    forall i | 0 <= i < |m.segments|
      ensures m.segments[i].tag == back[i].tag && SameValues(m.segments[i], back[i])
    {
      assert ReportSegment(m.segments[i]);
      KeptBothWays(rd, wr, m.segments[i]);
    }
    KeptBothWays(rd, wr, m.header);
    FoldOfFlat(r, m.header, MessageTrailer(m));
    ReadReportSameValues(Closed(m), ReadMessage(rd, wr, Closed(m)));
  }

  lemma KeptBothWays(rd: Syntax, wr: Syntax, s: Segment)
    requires Plain(s)
    ensures SameValues(s, ReadBack(rd, wr, s)) && ReadBack(rd, wr, s).tag == s.tag
  {
    PlainKept(rd, wr, s);
    TagKept(rd, wr, s);
    forall i, r, k ensures At(s, i, r, k) == At(ReadBack(rd, wr, s), i, r, k) {
      assert At(ReadBack(rd, wr, s), i, r, k) == At(s, i, r, k);
    }
  }

  /** CONTRL round trip: for every report with no line break in its fields, built
      into an interchange with any header and encoded any way, parsing finds one
      message, no Error, and a report that is the original one if and only if CONTRL
      can carry it. */
  lemma ControlRoundTrip(r: Report, p: HeaderFields, ref: string, version: string, release: string, limit: nat, opts: EncodeOptions)
    requires CleanReport(r) && NoBreaks(ref) && NoBreaks(version) && NoBreaks(release) && Plain(HeaderSegment(p))
    requires |BuiltSegments(p, [ControlMessage(r, ref, version, release)])| < limit
    ensures var d := Decode(EncodedText(Built(p, [ControlMessage(r, ref, version, release)]), opts), limit);
            && d.Some? && !HasErrors(AllRemarks(d.value))
            && var ms := Assemble(d.value.diags, d.value.segments).messages;
               && |ms| == 1
               && ReadReport(ms[0]).Some?
               && (ReadReport(ms[0]) == Some(r) <==> Carries(r))
  {
    hide ReadBack, ReadReport, BuiltSegments, EncodedText, Decode, Carries, ReturnedReport;
    var m := ControlMessage(r, ref, version, release);
    var wr, rd := DefaultSyntax(VersionOf(p)), ReaderOf(p, opts);
    ControlAddable(r, ref, version, release);
    FlatReportPlain(r);
    DecodeBuilt(p, [m], limit, opts);
    var d := Decode(EncodedText(Built(p, [m]), opts), limit).value;
    EnvelopeReads(rd, wr, p, [m], d.diags);
    CalmHasNoErrors(d.diags);
    ControlRead(rd, wr, r, m);
    ReturnedReportExactly(r);
    assert ReadMessages(rd, wr, ClosedAll([m]))[0] == ReadMessage(rd, wr, Closed(m));
  }
}
