/** The UNB..UNZ envelope: grouping a flat segment list into messages, checking
    the counts and references ISO 9735 requires, and building an interchange. */
module EdifactEnvelope {
  import opened Wrappers
  import opened Text
  import opened Sequences
  import opened EdifactSyntax
  import opened EdifactScan
  import opened EdifactEncode
  import opened EdifactInterchange
  import Decimal

  const NO_SEGMENT := Segment("", [])

  /** A UNH..UNT message; its trailer has no tag when it was unterminated. */
  datatype Message = Message(header: Segment, segments: seq<Segment>, trailer: Segment)

  datatype Group = Group(header: Segment, messages: seq<Message>, trailer: Segment)

  // ---------------------------------------------------------------- grouping

  datatype Assembly = Assembly(
    header: Segment,
    trailer: Segment,
    groups: seq<Group>,
    messages: seq<Message>,
    diags: seq<Diagnostic>,
    curMsg: Option<Message>,
    curGroup: Option<Group>)

  /** Nothing filed yet; the scanner's remarks come first. */
  function Start(said: seq<Diagnostic>): Assembly {
    Assembly(NO_SEGMENT, NO_SEGMENT, [], [], said, None, None)
  }

  /** The service segments, and everything else. */
  datatype Kind = UNB | UNZ | UNG | UNE | UNH | UNT | Body

  function KindOf(tag: string): Kind {
    if tag == "UNB" then UNB else if tag == "UNZ" then UNZ else if tag == "UNG" then UNG
    else if tag == "UNE" then UNE else if tag == "UNH" then UNH else if tag == "UNT" then UNT
    else Body
  }

  function Fault(a: Assembly, when: bool, code: string): Assembly {
    if when then a.(diags := a.diags + [Diagnostic(Error, code)]) else a
  }

  function CloseMessage(a: Assembly, trailer: Segment): Assembly {
    if a.curMsg.None? then a
    else
      var m := a.curMsg.value.(trailer := trailer);
      a.(messages := a.messages + [m], curMsg := None,
         curGroup := if a.curGroup.None? then None
                     else Some(a.curGroup.value.(messages := a.curGroup.value.messages + [m])))
  }

  function CloseGroup(a: Assembly, trailer: Segment): Assembly {
    if a.curGroup.None? then a
    else a.(groups := a.groups + [a.curGroup.value.(trailer := trailer)], curGroup := None)
  }

  /** A message still open where it may not be. */
  function EndMessage(a: Assembly): Assembly {
    CloseMessage(Fault(a, a.curMsg.Some?, "missing_unt"), NO_SEGMENT)
  }

  /** A group still open where it may not be. */
  function EndGroup(a: Assembly, code: string): Assembly {
    CloseGroup(Fault(a, a.curGroup.Some?, code), NO_SEGMENT)
  }

  const OUTSIDE := "segment_outside_message"

  /** What one segment does to the hierarchy. */
  function Place(a: Assembly, s: Segment): Assembly {
    match KindOf(s.tag)
    case UNB => Fault(a, a.header.tag != "", "duplicate_unb").(header := s)
    case UNZ => EndGroup(EndMessage(a), "unclosed_ung").(trailer := s)
    case UNG => EndGroup(a, "nested_ung").(curGroup := Some(Group(s, [], NO_SEGMENT)))
    case UNE =>
      var b := EndMessage(a);
      CloseGroup(Fault(b, b.curGroup.None?, "orphan_une"), s)
    case UNH =>
      CloseMessage(Fault(a, a.curMsg.Some?, "unclosed_unh"), NO_SEGMENT).(curMsg := Some(Message(s, [], NO_SEGMENT)))
    case UNT => CloseMessage(Fault(a, a.curMsg.None?, "orphan_unt"), s)
    case Body =>
      if a.curMsg.None? then Fault(a, true, OUTSIDE)
      else a.(curMsg := Some(a.curMsg.value.(segments := a.curMsg.value.segments + [s])))
  }

  function PlaceFrom(a: Assembly, segs: seq<Segment>): Assembly {
    if segs == [] then a else Place(PlaceFrom(a, segs[..|segs| - 1]), segs[|segs| - 1])
  }

  function PlaceAll(said: seq<Diagnostic>, segs: seq<Segment>): Assembly {
    PlaceFrom(Start(said), segs)
  }

  /** What is still open at the end of the input is closed, loudly. */
  function Settle(a: Assembly): Assembly {
    EndGroup(EndMessage(a), "missing_une")
  }

  /** The meaning of assemble. */
  function Assemble(said: seq<Diagnostic>, segs: seq<Segment>): Assembly {
    Settle(PlaceAll(said, segs))
  }

  // ---------------------------------------------------------------- where each segment goes

  /** Whether a message is open after a list: some UNH has not been followed by a
      UNT, UNE or UNZ. */
  predicate OpenAfter(segs: seq<Segment>) {
    segs != []
    && var kind := KindOf(segs[|segs| - 1].tag);
       kind == UNH || (kind !in {UNT, UNE, UNZ} && OpenAfter(segs[..|segs| - 1]))
  }

  /** The message headers and the body segments met while a message is open. */
  function Carried(segs: seq<Segment>): seq<Segment> {
    if segs == [] then []
    else
      var before, s := segs[..|segs| - 1], segs[|segs| - 1];
      Carried(before) + (if KindOf(s.tag) == UNH || (KindOf(s.tag) == Body && OpenAfter(before)) then [s] else [])
  }

  /** How many body segments are met while none is. */
  function Strays(segs: seq<Segment>): nat {
    if segs == [] then 0
    else
      var before, s := segs[..|segs| - 1], segs[|segs| - 1];
      Strays(before) + (if KindOf(s.tag) == Body && !OpenAfter(before) then 1 else 0)
  }

  /** Headers and body segments, in or out of messages. */
  function Content(segs: seq<Segment>): nat {
    if segs == [] then 0
    else
      var s := segs[|segs| - 1];
      Content(segs[..|segs| - 1]) + (if KindOf(s.tag) in {UNH, Body} then 1 else 0)
  }

  function MessageText(messages: seq<Message>): seq<Segment> {
    if messages == [] then []
    else
      var m := messages[|messages| - 1];
      MessageText(messages[..|messages| - 1]) + [m.header] + m.segments
  }

  function Occurrences(diags: seq<Diagnostic>, code: string): nat {
    if diags == [] then 0
    else Occurrences(diags[..|diags| - 1], code) + (if diags[|diags| - 1].code == code then 1 else 0)
  }

  lemma OccurrencesSnoc(diags: seq<Diagnostic>, d: Diagnostic, code: string)
    ensures Occurrences(diags + [d], code) == Occurrences(diags, code) + (if d.code == code then 1 else 0)
  {
    assert (diags + [d])[..|diags|] == diags;
  }

  lemma MessageTextSnoc(messages: seq<Message>, m: Message)
    ensures MessageText(messages + [m]) == MessageText(messages) + [m.header] + m.segments
  {
    assert (messages + [m])[..|messages|] == messages;
  }

  predicate WellFormed(m: Message) {
    KindOf(m.header.tag) == UNH && (m.trailer == NO_SEGMENT || KindOf(m.trailer.tag) == UNT)
    && forall i | 0 <= i < |m.segments| :: KindOf(m.segments[i].tag) == Body
  }

  predicate AllWellFormed(messages: seq<Message>) {
    forall i | 0 <= i < |messages| :: WellFormed(messages[i])
  }

  /** The text of the closed messages and of the one still open. */
  function TextSoFar(a: Assembly): seq<Segment> {
    MessageText(a.messages) + (if a.curMsg.None? then [] else [a.curMsg.value.header] + a.curMsg.value.segments)
  }

  /** The books: what was filed and what was reported, against the list so far. */
  ghost predicate Accounts(said: seq<Diagnostic>, a: Assembly, segs: seq<Segment>) {
    && a.curMsg.Some? == OpenAfter(segs)
    && Balanced(a, Carried(segs), Occurrences(said, OUTSIDE) + Strays(segs))
  }

  ghost predicate Balanced(a: Assembly, text: seq<Segment>, outside: nat) {
    && TextSoFar(a) == text
    && Occurrences(a.diags, OUTSIDE) == outside
    && AllWellFormed(a.messages) && (a.curMsg.Some? ==> WellFormed(a.curMsg.value))
  }

  lemma FaultKeeps(a: Assembly, when: bool, code: string, text: seq<Segment>, outside: nat)
    requires Balanced(a, text, outside)
    ensures Balanced(Fault(a, when, code), text, if when && code == OUTSIDE then outside + 1 else outside)
  {
    OccurrencesSnoc(a.diags, Diagnostic(Error, code), OUTSIDE);
  }

  lemma CloseMessageKeeps(a: Assembly, trailer: Segment, text: seq<Segment>, outside: nat)
    requires Balanced(a, text, outside)
    requires trailer == NO_SEGMENT || KindOf(trailer.tag) == UNT
    ensures var b := CloseMessage(a, trailer); b.curMsg.None? && Balanced(b, text, outside)
  {
    if a.curMsg.Some? {
      var m := a.curMsg.value.(trailer := trailer);
      MessageTextSnoc(a.messages, m);
      assert WellFormed(m);
    }
  }

  lemma EndMessageKeeps(a: Assembly, text: seq<Segment>, outside: nat)
    requires Balanced(a, text, outside)
    ensures EndMessage(a).curMsg.None? && Balanced(EndMessage(a), text, outside)
  {
    FaultKeeps(a, a.curMsg.Some?, "missing_unt", text, outside);
    CloseMessageKeeps(Fault(a, a.curMsg.Some?, "missing_unt"), NO_SEGMENT, text, outside);
  }

  lemma EndGroupKeeps(a: Assembly, code: string, text: seq<Segment>, outside: nat)
    requires Balanced(a, text, outside) && code != OUTSIDE
    ensures EndGroup(a, code).curMsg == a.curMsg && Balanced(EndGroup(a, code), text, outside)
  {
    FaultKeeps(a, a.curGroup.Some?, code, text, outside);
  }

  /** A body segment joins the open message, or is reported. */
  lemma PlaceBodyKeeps(a: Assembly, s: Segment, text: seq<Segment>, outside: nat)
    requires Balanced(a, text, outside) && KindOf(s.tag) == Body
    ensures Place(a, s).curMsg.Some? == a.curMsg.Some?
    ensures if a.curMsg.Some? then Balanced(Place(a, s), text + [s], outside) else Balanced(Place(a, s), text, outside + 1)
  {
    if a.curMsg.Some? {
      var m := a.curMsg.value;
      assert TextSoFar(Place(a, s)) == MessageText(a.messages) + ([m.header] + (m.segments + [s]));
    } else {
      FaultKeeps(a, true, OUTSIDE, text, outside);
    }
  }

  /** A UNH opens a message, which carries it. */
  lemma PlaceHeaderKeeps(a: Assembly, s: Segment, text: seq<Segment>, outside: nat)
    requires Balanced(a, text, outside) && KindOf(s.tag) == UNH
    ensures Balanced(Place(a, s), text + [s], outside) && Place(a, s).curMsg.Some?
  {
    hide MessageText, Occurrences, CloseMessage, Fault;
    FaultKeeps(a, a.curMsg.Some?, "unclosed_unh", text, outside);
    CloseMessageKeeps(Fault(a, a.curMsg.Some?, "unclosed_unh"), NO_SEGMENT, text, outside);
    assert [s] + [] == [s];
  }

  /** A service segment opens and closes, and only a UNH is carried. */
  lemma PlaceServiceKeeps(a: Assembly, s: Segment, text: seq<Segment>, outside: nat)
    requires Balanced(a, text, outside) && KindOf(s.tag) != Body
    ensures Balanced(Place(a, s), if KindOf(s.tag) == UNH then text + [s] else text, outside)
    ensures Place(a, s).curMsg.Some? == (KindOf(s.tag) == UNH || (KindOf(s.tag) !in {UNT, UNE, UNZ} && a.curMsg.Some?))
  {
    hide MessageText, Occurrences, AllWellFormed, WellFormed;
    match KindOf(s.tag) {
      case UNB => FaultKeeps(a, a.header.tag != "", "duplicate_unb", text, outside);
      case UNZ =>
        EndMessageKeeps(a, text, outside);
        EndGroupKeeps(EndMessage(a), "unclosed_ung", text, outside);
      case UNG => EndGroupKeeps(a, "nested_ung", text, outside);
      case UNE =>
        EndMessageKeeps(a, text, outside);
        FaultKeeps(EndMessage(a), EndMessage(a).curGroup.None?, "orphan_une", text, outside);
      case UNH => PlaceHeaderKeeps(a, s, text, outside);
      case UNT =>
        FaultKeeps(a, a.curMsg.None?, "orphan_unt", text, outside);
        CloseMessageKeeps(Fault(a, a.curMsg.None?, "orphan_unt"), s, text, outside);
    }
  }

  lemma {:induction false} PlaceAllAccounts(said: seq<Diagnostic>, segs: seq<Segment>)
    ensures Accounts(said, PlaceAll(said, segs), segs)
    decreases |segs|
  {
    if segs != [] {
      var before, s := segs[..|segs| - 1], segs[|segs| - 1];
      PlaceAllAccounts(said, before);
      var a := PlaceAll(said, before);
      if KindOf(s.tag) == Body {
        PlaceBodyKeeps(a, s, Carried(before), Occurrences(said, OUTSIDE) + Strays(before));
      } else {
        PlaceServiceKeeps(a, s, Carried(before), Occurrences(said, OUTSIDE) + Strays(before));
      }
      assert Carried(before) + [] == Carried(before);
    }
  }

  lemma {:induction false} ContentSplits(segs: seq<Segment>)
    ensures |Carried(segs)| + Strays(segs) == Content(segs)
    decreases |segs|
  {
    if segs != [] {
      ContentSplits(segs[..|segs| - 1]);
    }
  }

  /** On any flat segment list, every header and body segment is in exactly one
      place: the messages hold, in order, the headers and the body segments met
      while a message was open, and each of the others raised one diagnostic. */
  lemma AssembleLosesNothing(said: seq<Diagnostic>, segs: seq<Segment>)
    ensures var a := Assemble(said, segs);
            var reported := Occurrences(a.diags, OUTSIDE) - Occurrences(said, OUTSIDE);
            && MessageText(a.messages) == Carried(segs)
            && reported == Strays(segs)
            && |MessageText(a.messages)| + reported == Content(segs)
            && AllWellFormed(a.messages)
  {
    PlaceAllAccounts(said, segs);
    ContentSplits(segs);
    var a := PlaceAll(said, segs);
    var outside := Occurrences(said, OUTSIDE) + Strays(segs);
    EndMessageKeeps(a, Carried(segs), outside);
    EndGroupKeeps(EndMessage(a), "missing_une", Carried(segs), outside);
    assert Carried(segs) + [] == Carried(segs);
  }

  // ---------------------------------------------------------------- counts and references

  function Flag(when: bool, code: string): seq<Diagnostic> {
    if when then [Diagnostic(Error, code)] else []
  }

  /** A count field against the number it should be. */
  function CountRemark(field: string, want: int, unreadable: string, wrong: string): seq<Diagnostic> {
    match Decimal.Atoi(TrimSpace(field))
    case NotANumber => Flag(unreadable != "", unreadable)
    case Number(n) => Flag(n != want, wrong)
  }

  function TrailerRemark(header: Segment, trailer: Segment, groups: seq<Group>, messages: seq<Message>): seq<Diagnostic> {
    if header.tag == "" || trailer.tag == "" then []
    else
      Flag(Value(trailer, 1) != Value(header, 4), "control_ref_mismatch")
      + CountRemark(Value(trailer, 0), if groups != [] then |groups| else |messages|, "bad_unz_count", "unz_count_mismatch")
  }

  /** A UNE count that is not a number is not remarked on. */
  function GroupRemark(g: Group): seq<Diagnostic> {
    if g.trailer.tag == "" then []
    else
      Flag(Value(g.trailer, 1) != Value(g.header, 4), "group_ref_mismatch")
      + CountRemark(Value(g.trailer, 0), |g.messages|, "", "une_count_mismatch")
  }

  /** UNT counts every segment of the message, UNH and UNT included. */
  function MessageRemark(m: Message): seq<Diagnostic> {
    if m.trailer.tag == "" then []
    else
      Flag(Value(m.trailer, 1) != Value(m.header, 0), "message_ref_mismatch")
      + CountRemark(Value(m.trailer, 0), |m.segments| + 2, "bad_unt_count", "unt_count_mismatch")
  }

  function GroupRemarks(said: seq<Diagnostic>, groups: seq<Group>): seq<Diagnostic>
    decreases |groups|
  {
    if groups == [] then said else GroupRemarks(said + GroupRemark(groups[0]), groups[1..])
  }

  function MessageRemarks(said: seq<Diagnostic>, messages: seq<Message>): seq<Diagnostic>
    decreases |messages|
  {
    if messages == [] then said else MessageRemarks(said + MessageRemark(messages[0]), messages[1..])
  }

  /** The meaning of validateEnvelope, after what was said before it. */
  function EnvelopeRemarks(said: seq<Diagnostic>, header: Segment, trailer: Segment,
                           groups: seq<Group>, messages: seq<Message>): seq<Diagnostic> {
    var missing := said + Flag(header.tag == "", "missing_unb") + Flag(trailer.tag == "", "missing_unz");
    MessageRemarks(GroupRemarks(missing + TrailerRemark(header, trailer, groups, messages), groups), messages)
  }

  predicate HasErrors(diags: seq<Diagnostic>) {
    exists i | 0 <= i < |diags| :: diags[i].severity == Error
  }

  // ---------------------------------------------------------------- building

  function Simple(v: string): Element {
    [[v]]
  }

  function IdOf(m: Message): string {
    Value(m.header, 0)
  }

  function MessageTrailer(m: Message): Segment {
    Segment("UNT", [Simple(Decimal.Itoa(|m.segments| + 2)), Simple(IdOf(m))])
  }

  function Closed(m: Message): Message {
    m.(trailer := MessageTrailer(m))
  }

  function ClosedAll(ms: seq<Message>): (r: seq<Message>)
    ensures |r| == |ms| && forall i | 0 <= i < |r| :: r[i] == Closed(ms[i])
  {
    seq(|ms|, i requires 0 <= i < |ms| => Closed(ms[i]))
  }

  function ClosedGroup(g: Group): Group {
    Group(g.header, ClosedAll(g.messages),
          Segment("UNE", [Simple(Decimal.Itoa(|g.messages|)), Simple(Value(g.header, 4))]))
  }

  function ClosedGroups(gs: seq<Group>): (r: seq<Group>)
    ensures |r| == |gs| && forall i | 0 <= i < |r| :: r[i] == ClosedGroup(gs[i])
  {
    seq(|gs|, i requires 0 <= i < |gs| => ClosedGroup(gs[i]))
  }

  function InterchangeTrailer(header: Segment, groups: seq<Group>, messages: seq<Message>): Segment {
    Segment("UNZ", [Simple(Decimal.Itoa(if groups != [] then |groups| else |messages|)), Simple(Value(header, 4))])
  }

  function Present(s: Segment): seq<Segment> {
    if s.tag != "" then [s] else []
  }

  function FlatMessage(m: Message): seq<Segment> {
    [m.header] + m.segments + Present(m.trailer)
  }

  function FlatMessages(ms: seq<Message>): seq<Segment> {
    if ms == [] then [] else FlatMessages(ms[..|ms| - 1]) + FlatMessage(ms[|ms| - 1])
  }

  function FlatGroups(gs: seq<Group>): seq<Segment> {
    if gs == [] then []
    else
      var g := gs[|gs| - 1];
      FlatGroups(gs[..|gs| - 1]) + [g.header] + FlatMessages(g.messages) + Present(g.trailer)
  }

  /** The flat list an envelope is written as. */
  function FlatEnvelope(header: Segment, groups: seq<Group>, messages: seq<Message>, trailer: Segment): seq<Segment> {
    Present(header) + (if groups != [] then FlatGroups(groups) else FlatMessages(messages)) + Present(trailer)
  }

  // ---------------------------------------------------------------- the interchange

  datatype Party = Party(id: string, qualifier: string, routingAddr: string)

  datatype HeaderFields = HeaderFields(
    charset: string, version: int, sender: Party, recipient: Party, date: string, time: string,
    controlRef: string, appRef: string, ackRequest: bool, test: bool)

  datatype MessageType = MessageType(name: string, version: string, release: string, agency: string, association: string)

  /** Version 0 means 3 and no repertoire means UNOA. */
  function VersionOf(p: HeaderFields): int {
    if p.version == 0 then 3 else p.version
  }

  function CharsetOf(p: HeaderFields): string {
    if p.charset == "" then "UNOA" else p.charset
  }

  function HeaderSegment(p: HeaderFields): Segment {
    Segment("UNB", [
      [[CharsetOf(p), Decimal.Itoa(VersionOf(p))]],
      [[p.sender.id, p.sender.qualifier, p.sender.routingAddr]],
      [[p.recipient.id, p.recipient.qualifier, p.recipient.routingAddr]],
      [[p.date, p.time]],
      Simple(p.controlRef), Simple(""), Simple(p.appRef), Simple(""),
      Simple(if p.ackRequest then "1" else ""), Simple(""), Simple(if p.test then "1" else "")])
  }

  function MessageHeader(ref: string, t: MessageType): Segment {
    Segment("UNH", [Simple(ref), [[t.name, t.version, t.release, t.agency, t.association]]])
  }

  /** An interchange under assembly: its service segments, its groups and messages, and
      the flat list they came from. */
  class Interchange {
    var hadAdvice: bool
    var syntax: Syntax
    var header: Segment
    var trailer: Segment
    var groups: seq<Group>
    var messages: seq<Message>
    var segments: seq<Segment>
    var diags: seq<Diagnostic>

    /** An interchange with a populated UNB and nothing else. */
    constructor New(p: HeaderFields)
      ensures !hadAdvice && syntax == DefaultSyntax(VersionOf(p)) && header == HeaderSegment(p)
      ensures trailer == NO_SEGMENT && groups == [] && messages == [] && segments == [] && diags == []
    {
      hadAdvice, syntax, header, trailer := false, DefaultSyntax(VersionOf(p)), HeaderSegment(p), NO_SEGMENT;
      groups, messages, segments, diags := [], [], [], [];
    }

    constructor Decoding(d: Decoded)
      ensures hadAdvice == d.hadAdvice && syntax == d.syntax && segments == d.segments && diags == d.diags
      ensures header == NO_SEGMENT && trailer == NO_SEGMENT && groups == [] && messages == []
    {
      hadAdvice, syntax, segments, diags := d.hadAdvice, d.syntax, d.segments, d.diags;
      header, trailer, groups, messages := NO_SEGMENT, NO_SEGMENT, [], [];
    }

    function Text(): Decoded
      reads this
    {
      Decoded(hadAdvice, syntax, segments, diags)
    }

    function View(curMsg: Option<Message>, curGroup: Option<Group>): Assembly
      reads this
    {
      Assembly(header, trailer, groups, messages, diags, curMsg, curGroup)
    }

    method Diag(code: string)
      modifies this`diags
      ensures diags == old(diags) + [Diagnostic(Error, code)]
    {
      diags := diags + [Diagnostic(Error, code)];
    }

    /** A finished message goes on the interchange's list and on its group's. */
    method FinishMessage(curMsg: Option<Message>, curGroup: Option<Group>, trailer: Segment)
      returns (group: Option<Group>)
      modifies this`messages
      ensures View(None, group) == CloseMessage(old(View(curMsg, curGroup)), trailer)
    {
      group := curGroup;
      if curMsg.Some? {
        var m := curMsg.value.(trailer := trailer);
        if curGroup.Some? {
          group := Some(curGroup.value.(messages := curGroup.value.messages + [m]));
        }
        messages := messages + [m];
      }
    }

    method FinishGroup(curMsg: Option<Message>, curGroup: Option<Group>, code: string)
      modifies this`groups, this`diags
      ensures View(curMsg, None) == EndGroup(old(View(curMsg, curGroup)), code)
    {
      if curGroup.Some? {
        Diag(code);
        groups := groups + [curGroup.value.(trailer := NO_SEGMENT)];
      }
    }

    /** Files one segment under the hierarchy built so far. */
    method File(s: Segment, openMsg: Option<Message>, openGroup: Option<Group>)
      returns (curMsg: Option<Message>, curGroup: Option<Group>)
      modifies this`header, this`trailer, this`groups, this`messages, this`diags
      ensures View(curMsg, curGroup) == Place(old(View(openMsg, openGroup)), s)
    {
      curMsg, curGroup := openMsg, openGroup;
      match KindOf(s.tag) {
        case UNB =>
          if header.tag != "" {
            Diag("duplicate_unb");
          }
          header := s;
        case UNZ =>
          if curMsg.Some? {
            Diag("missing_unt");
          }
          curGroup := FinishMessage(curMsg, curGroup, NO_SEGMENT);
          curMsg := None;
          FinishGroup(curMsg, curGroup, "unclosed_ung");
          curGroup := None;
          trailer := s;
        case UNG =>
          FinishGroup(curMsg, curGroup, "nested_ung");
          curGroup := Some(Group(s, [], NO_SEGMENT));
        case UNE =>
          if curMsg.Some? {
            Diag("missing_unt");
          }
          curGroup := FinishMessage(curMsg, curGroup, NO_SEGMENT);
          curMsg := None;
          if curGroup.None? {
            Diag("orphan_une");
            return;
          }
          groups := groups + [curGroup.value.(trailer := s)];
          curGroup := None;
        case UNH =>
          if curMsg.Some? {
            Diag("unclosed_unh");
            curGroup := FinishMessage(curMsg, curGroup, NO_SEGMENT);
          }
          curMsg := Some(Message(s, [], NO_SEGMENT));
        case UNT =>
          if curMsg.None? {
            Diag("orphan_unt");
            return;
          }
          curGroup := FinishMessage(curMsg, curGroup, s);
          curMsg := None;
        case Body =>
          if curMsg.None? {
            Diag("segment_outside_message");
            return;
          }
          curMsg := Some(curMsg.value.(segments := curMsg.value.segments + [s]));
      }
    }

    /** Groups the flat segment list into the UNB/UNG/UNH hierarchy. */
    method GroupSegments(segs: seq<Segment>)
      requires View(None, None) == Start(diags)
      modifies this`header, this`trailer, this`groups, this`messages, this`diags
      ensures View(None, None) == Assemble(old(diags), segs)
    {
      var curMsg: Option<Message>, curGroup: Option<Group> := None, None;
      for i := 0 to |segs|
        invariant View(curMsg, curGroup) == PlaceAll(old(diags), segs[..i])
      {
        assert segs[..i + 1] == segs[..i] + [segs[i]];
        curMsg, curGroup := File(segs[i], curMsg, curGroup);
      }
      assert segs[..|segs|] == segs;
      if curMsg.Some? {
        Diag("missing_unt");
        curGroup := FinishMessage(curMsg, curGroup, NO_SEGMENT);
      }
      FinishGroup(None, curGroup, "missing_une");
    }

    method CheckCount(field: string, want: int, unreadable: string, wrong: string)
      modifies this`diags
      ensures diags == old(diags) + CountRemark(field, want, unreadable, wrong)
    {
      var n := Decimal.Atoi(TrimSpace(field));
      if n.NotANumber? {
        if unreadable != "" {
          Diag(unreadable);
        }
      } else if n.value != want {
        Diag(wrong);
      }
    }

    method DiagIf(when: bool, code: string)
      modifies this`diags
      ensures diags == old(diags) + Flag(when, code)
    {
      if when {
        Diag(code);
      }
    }

    method CheckTrailer()
      modifies this`diags
      ensures diags == old(diags) + TrailerRemark(header, trailer, groups, messages)
    {
      hide Value, CountRemark;
      if header.tag != "" && trailer.tag != "" {
        ghost var before := diags;
        DiagIf(Value(trailer, 1) != Value(header, 4), "control_ref_mismatch");
        AddAssoc(before, Flag(Value(trailer, 1) != Value(header, 4), "control_ref_mismatch"),
                 CountRemark(Value(trailer, 0), if groups != [] then |groups| else |messages|, "bad_unz_count", "unz_count_mismatch"));
        CheckCount(Value(trailer, 0), if groups != [] then |groups| else |messages|, "bad_unz_count", "unz_count_mismatch");
      }
    }

    method CheckGroup(g: Group)
      modifies this`diags
      ensures diags == old(diags) + GroupRemark(g)
    {
      if g.trailer.tag != "" {
        if Value(g.trailer, 1) != Value(g.header, 4) {
          Diag("group_ref_mismatch");
        }
        CheckCount(Value(g.trailer, 0), |g.messages|, "", "une_count_mismatch");
      }
    }

    method CheckMessage(m: Message)
      modifies this`diags
      ensures diags == old(diags) + MessageRemark(m)
    {
      if m.trailer.tag != "" {
        if Value(m.trailer, 1) != Value(m.header, 0) {
          Diag("message_ref_mismatch");
        }
        CheckCount(Value(m.trailer, 0), |m.segments| + 2, "bad_unt_count", "unt_count_mismatch");
      }
    }

    method CheckGroups(gs: seq<Group>)
      modifies this`diags
      ensures diags == GroupRemarks(old(diags), gs)
    {
      for i := 0 to |gs|
        invariant GroupRemarks(diags, gs[i..]) == GroupRemarks(old(diags), gs)
      {
        assert gs[i..][0] == gs[i] && gs[i..][1..] == gs[i + 1..];
        CheckGroup(gs[i]);
      }
      assert gs[|gs|..] == [];
    }

    method CheckMessages(ms: seq<Message>)
      modifies this`diags
      ensures diags == MessageRemarks(old(diags), ms)
    {
      for i := 0 to |ms|
        invariant MessageRemarks(diags, ms[i..]) == MessageRemarks(old(diags), ms)
      {
        assert ms[i..][0] == ms[i] && ms[i..][1..] == ms[i + 1..];
        CheckMessage(ms[i]);
      }
      assert ms[|ms|..] == [];
    }

    /** Checks the counts and control references. */
    method ValidateEnvelope()
      modifies this`diags
      ensures diags == EnvelopeRemarks(old(diags), header, trailer, groups, messages)
    {
      DiagIf(header.tag == "", "missing_unb");
      DiagIf(trailer.tag == "", "missing_unz");
      CheckTrailer();
      CheckGroups(groups);
      CheckMessages(messages);
    }

    /** Appends a message built from a UNH identifier and body segments. */
    method AddMessage(ref: string, t: MessageType, body: seq<Segment>)
      modifies this`messages
      ensures messages == old(messages) + [Message(MessageHeader(ref, t), body, NO_SEGMENT)]
    {
      messages := messages + [Message(MessageHeader(ref, t), body, NO_SEGMENT)];
    }

    /** Recomputes every trailer, then rebuilds the flat segment list. */
    method Finalize()
      modifies this`messages, this`groups, this`trailer, this`segments
      ensures messages == ClosedAll(old(messages)) && groups == ClosedGroups(old(groups))
      ensures trailer == InterchangeTrailer(header, groups, messages)
      ensures segments == FlatEnvelope(header, groups, messages, trailer)
    {
      messages := CloseMessages(messages);
      groups := CloseGroups(groups);
      var n := if groups != [] then |groups| else |messages|;
      trailer := Segment("UNZ", [Simple(Decimal.Itoa(n)), Simple(Value(header, 4))]);
      segments := FlattenEnvelope();
    }

    /** Rebuilds a segment list from the envelope structure. */
    method FlattenEnvelope() returns (out: seq<Segment>)
      ensures out == FlatEnvelope(header, groups, messages, trailer)
    {
      var body;
      if groups != [] {
        body := FlattenGroups(groups);
      } else {
        body := FlattenMessages(messages);
      }
      out := Present(header) + body + Present(trailer);
    }

    /** Serialises: the segments held, or the envelope's when there are none. */
    method Encode(opts: EncodeOptions) returns (ok: bool, out: string)
      ensures ok == Usable(syntax)
      ensures ok ==> out == EncodedText(Text().(segments := if segments != [] then segments
                                                            else FlatEnvelope(header, groups, messages, trailer)), opts)
    {
      ok := Usable(syntax);
      out := "";
      if !ok {
        return;
      }
      var segs := segments;
      if segs == [] {
        segs := FlattenEnvelope();
      }
      var nl := "";
      if opts.segmentPerLine {
        nl := if opts.crlf then "\r\n" else "\n";
      }
      if opts.emitAdvice || !IsDefault(syntax) || hadAdvice {
        out := AdviceString(syntax) + nl;
      }
      out := WriteSegments(segs, out, syntax, nl);
    }
  }

  /** Appends the segments' wire forms, each followed by the line end. */
  method WriteSegments(segs: seq<Segment>, dst: string, syn: Syntax, lineEnd: string) returns (out: string)
    ensures out == dst + WireSegments(syn, segs, lineEnd)
  {
    out := dst;
    for i := 0 to |segs|
      invariant out + WireSegments(syn, segs[i..], lineEnd) == dst + WireSegments(syn, segs, lineEnd)
    {
      ghost var written := out;
      out := EncodeTo(segs[i], out, syn);
      out := out + lineEnd;
      WireSegmentsAt(syn, segs, i, lineEnd, written);
    }
    assert segs[|segs|..] == [];
    assert WireSegments(syn, [], lineEnd) == "";
  }

  lemma WireSegmentsAt(syn: Syntax, segs: seq<Segment>, i: nat, lineEnd: string, dst: string)
    requires i < |segs|
    ensures dst + WireSegments(syn, segs[i..], lineEnd)
         == dst + WireSegment(syn, segs[i]) + lineEnd + WireSegments(syn, segs[i + 1..], lineEnd)
  {
    assert segs[i..][0] == segs[i] && segs[i..][1..] == segs[i + 1..];
    var a, b := WireSegment(syn, segs[i]), WireSegments(syn, segs[i + 1..], lineEnd);
    assert dst + (a + lineEnd + b) == dst + a + lineEnd + b;
  }

  method CloseGroups(gs: seq<Group>) returns (out: seq<Group>)
    ensures out == ClosedGroups(gs)
  {
    out := [];
    for i := 0 to |gs|
      invariant |out| == i && forall k | 0 <= k < i :: out[k] == ClosedGroup(gs[k])
    {
      var ms := CloseMessages(gs[i].messages);
      out := out + [Group(gs[i].header, ms,
                          Segment("UNE", [Simple(Decimal.Itoa(|ms|)), Simple(Value(gs[i].header, 4))]))];
    }
  }

  method FlattenGroups(gs: seq<Group>) returns (out: seq<Segment>)
    ensures out == FlatGroups(gs)
  {
    out := [];
    for i := 0 to |gs|
      invariant out == FlatGroups(gs[..i])
    {
      ghost var sofar := gs[..i + 1];
      assert sofar[..i] == gs[..i] && sofar[i] == gs[i];
      out := out + [gs[i].header];
      var ms := FlattenMessages(gs[i].messages);
      out := out + ms;
      out := out + Present(gs[i].trailer);
    }
    assert gs[..|gs|] == gs;
  }

  method CloseMessages(ms: seq<Message>) returns (out: seq<Message>)
    ensures out == ClosedAll(ms)
  {
    out := [];
    for i := 0 to |ms|
      invariant |out| == i && forall k | 0 <= k < i :: out[k] == Closed(ms[k])
    {
      out := out + [ms[i].(trailer := MessageTrailer(ms[i]))];
    }
  }

  method FlattenMessages(ms: seq<Message>) returns (out: seq<Segment>)
    ensures out == FlatMessages(ms)
  {
    out := [];
    for i := 0 to |ms|
      invariant out == FlatMessages(ms[..i])
    {
      ghost var sofar := ms[..i + 1];
      assert sofar[..i] == ms[..i] && sofar[i] == ms[i];
      out := out + ([ms[i].header] + ms[i].segments + Present(ms[i].trailer));
    }
    assert ms[..|ms|] == ms;
  }

  /** Everything Parse remarks on. */
  function AllRemarks(d: Decoded): seq<Diagnostic> {
    var a := Assemble(d.diags, d.segments);
    EnvelopeRemarks(a.diags, a.header, a.trailer, a.groups, a.messages)
  }

  /** Reads the characters, the version the header declares, and the input again
      under version 4 rules where that is called for. */
  method DecodeText(raw: string, limit: nat) returns (d: Option<Decoded>)
    ensures d == Decode(raw, limit)
  {
    var scanned := Scan(raw, None, limit);
    if !scanned.Scanned? {
      return None;
    }
    var lead := SkipLeadingBlanks(raw);
    var hadAdvice := |raw| >= 3 && |raw[lead..]| >= 3 && raw[lead..][..3] == "UNA";
    var segs, syn, diags := scanned.segments, scanned.syntax, scanned.diags;
    var (declared, credible) := DeclaredVersion(segs);
    if 1 <= declared <= MAX_SYNTAX_VERSION {
      syn := syn.(version := declared);
    } else if declared != 0 {
      diags := diags + [Diagnostic(Warn, "bad_syntax_version")];
    }
    var first := Decoded(hadAdvice, syn, segs, diags);
    assert first == Decoded(StartsWithAdvice(raw), Honour(scanned.syntax, segs), segs, scanned.diags + VersionRemark(segs));
    if hadAdvice || syn.repetitionEnabled || syn.version < 4 || !credible {
      return Some(first);
    }
    d := Reread(raw, limit, first);
  }

  /** Accepts the second reading only if it still declares the version that
      motivated it. */
  method Reread(raw: string, limit: nat, first: Decoded) returns (d: Option<Decoded>)
    ensures d == Some(
      match ScanText(raw, Some(DefaultSyntax(first.syntax.version)), limit)
      case BadSyntax => first
      case NoSegments => first
      case Scanned(again, rsyn, rdiags) =>
        if DeclaredVersion(again) == (first.syntax.version, true)
        then first.(syntax := rsyn, segments := again, diags := rdiags)
        else first.(diags := first.diags + [Diagnostic(Warn, "unstable_syntax_inference")]))
  {
    var again := Scan(raw, Some(DefaultSyntax(first.syntax.version)), limit);
    if !again.Scanned? {
      return Some(first);
    }
    var (v, ok) := DeclaredVersion(again.segments);
    if ok && v == first.syntax.version {
      d := Some(Decoded(first.hadAdvice, again.syntax, again.segments, again.diags));
    } else {
      d := Some(first.(diags := first.diags + [Diagnostic(Warn, "unstable_syntax_inference")]));
    }
  }

  /** Decodes an interchange and validates its envelope. Strict turns structural
      diagnostics at Error severity into a failure. */
  method Parse(raw: string, limit: nat, strict: bool) returns (ic: Interchange?, failed: bool)
    ensures Decode(raw, limit).None? ==> ic == null && failed
    ensures Decode(raw, limit).Some? ==> ic != null && fresh(ic)
    ensures Decode(raw, limit).Some? ==>
              var d := Decode(raw, limit).value;
              var a := Assemble(d.diags, d.segments);
              && ic.hadAdvice == d.hadAdvice && ic.syntax == d.syntax && ic.segments == d.segments
              && ic.header == a.header && ic.trailer == a.trailer
              && ic.groups == a.groups && ic.messages == a.messages
              && ic.diags == AllRemarks(d)
              && failed == (strict && HasErrors(ic.diags))
  {
    hide Decode, HasErrors, PlaceAll, Settle, EnvelopeRemarks;
    ic, failed := null, true;
    var d := DecodeText(raw, limit);
    if d.None? {
      return;
    }
    ic := new Interchange.Decoding(d.value);
    ic.GroupSegments(ic.segments);
    ic.ValidateEnvelope();
    failed := strict && HasErrors(ic.diags);
  }
}
