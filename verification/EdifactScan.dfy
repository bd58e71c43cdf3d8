/** The tolerant byte-level reader of EDIFACT: one pass over the bytes, never
    failing on content it does not understand. */
module EdifactScan {
  import opened Wrappers
  import opened EdifactSyntax

  // ---------------------------------------------------------------- the automaton

  /** What the reader holds between two bytes. */
  datatype State = State(
    buf: string,
    comps: Composite,
    reps: Element,
    elems: seq<Element>,
    released: bool,
    started: bool,
    segments: seq<Segment>,
    truncated: bool)

  /** Between segments, with what was read so far. */
  function Idle(segments: seq<Segment>, truncated: bool): State {
    State("", [], [], [], false, false, segments, truncated)
  }

  function FlushComponent(st: State): State {
    st.(comps := st.comps + [st.buf], buf := "")
  }

  function FlushRepetition(st: State): State {
    st.(reps := st.reps + [st.comps + [st.buf]], comps := [], buf := "")
  }

  function FlushElement(st: State): State {
    st.(elems := st.elems + [st.reps + [st.comps + [st.buf]]], reps := [], comps := [], buf := "")
  }

  /** The tag is the first component of element 0; the rest of element 0 is lost. */
  function TagOf(elems: seq<Element>): string {
    if elems != [] then Component(Occurrence(elems[0], 0), 0) else ""
  }

  /** A segment is kept only when its tag is usable. */
  function WithSegment(segments: seq<Segment>, elems: seq<Element>): seq<Segment> {
    if ValidTag(TagOf(elems)) then segments + [Segment(TagOf(elems), elems[1..])] else segments
  }

  function CloseSegment(st: State, limit: nat): State {
    var segments := WithSegment(st.segments, FlushElement(st).elems);
    Idle(segments, |segments| >= limit)
  }

  /** One byte. A line break is framing even after a release character. */
  function Step(syn: Syntax, limit: nat, st: State, b: char): State {
    if st.truncated then st
    else if IsBreak(b) then st.(released := false)
    else if st.released then st.(buf := st.buf + [b], released := false, started := true)
    else if b == syn.releaseChar then st.(released := true, started := true)
    else if b == syn.componentSep then FlushComponent(st).(started := true)
    else if b == syn.elementSep then FlushElement(st).(started := true)
    else if syn.repetitionEnabled && b == syn.repetitionSep then FlushRepetition(st).(started := true)
    else if b == syn.segmentTerm then CloseSegment(st, limit)
    else st.(buf := st.buf + [b], started := true)
  }

  /** What one byte makes the reader remark on. */
  function Remark(syn: Syntax, limit: nat, st: State, b: char): seq<Diagnostic> {
    if st.truncated then []
    else if IsBreak(b) then
      if st.released then [Diagnostic(Warn, "stray_release")]
      else if st.started then [Diagnostic(Info, "linebreak_in_segment")]
      else []
    else if st.released then
      if IsService(syn, b) then [] else [Diagnostic(Warn, "stray_release")]
    else if b == syn.segmentTerm && b !in [syn.releaseChar, syn.componentSep, syn.elementSep]
            && !(syn.repetitionEnabled && b == syn.repetitionSep) then
      (if ValidTag(TagOf(FlushElement(st).elems)) then [] else [Diagnostic(Error, "invalid_tag")])
      + (if CloseSegment(st, limit).truncated then [Diagnostic(Error, "segment_limit")] else [])
    else []
  }

  function Run(syn: Syntax, limit: nat, st: State, text: string): State
    decreases |text|
  {
    if text == "" then st else Run(syn, limit, Step(syn, limit, st, text[0]), text[1..])
  }

  function Remarks(syn: Syntax, limit: nat, st: State, text: string): seq<Diagnostic>
    decreases |text|
  {
    if text == "" then []
    else Remark(syn, limit, st, text[0]) + Remarks(syn, limit, Step(syn, limit, st, text[0]), text[1..])
  }

  // ---------------------------------------------------------------- a whole input

  datatype ScanResult =
    | Scanned(segments: seq<Segment>, syntax: Syntax, diags: seq<Diagnostic>)
    | BadSyntax
    | NoSegments

  function SkipBlanks(text: string): (rest: string)
    ensures |rest| <= |text|
  {
    if text != "" && IsBlank(text[0]) then SkipBlanks(text[1..]) else text
  }

  function SkipBreaks(text: string): string {
    if text != "" && IsBreak(text[0]) then SkipBreaks(text[1..]) else text
  }

  predicate HasAdvice(text: string) {
    |text| >= 9 && text[..3] == "UNA"
  }

  /** The service characters a UNA names; a blank repetition separator turns it off. */
  function AdviceSyntax(text: string): Syntax
    requires HasAdvice(text)
  {
    Syntax(text[3], text[4], text[5], text[6],
           if text[7] == ' ' then DEFAULT_REPETITION_SEP else text[7], text[8], 3, text[7] != ' ')
  }

  /** What follows the optional blanks and the optional UNA. */
  function AfterAdvice(raw: string): string {
    var text := SkipBlanks(raw);
    if HasAdvice(text) then SkipBreaks(text[9..]) else text
  }

  /** The override wins; then the UNA; then the defaults of version 3. */
  function InitialSyntax(raw: string, chosen: Option<Syntax>): Syntax {
    var text := SkipBlanks(raw);
    if chosen.Some? then chosen.value
    else if HasAdvice(text) then AdviceSyntax(text)
    else DefaultSyntax(3)
  }

  function LeadingRemark(raw: string): seq<Diagnostic> {
    if raw != "" && IsBlank(raw[0]) then [Diagnostic(Info, "leading_whitespace")] else []
  }

  function Released(st: State): seq<Diagnostic> {
    if st.released then [Diagnostic(Error, "trailing_release")] else []
  }

  /** What is left when the input ends: a partial segment is kept, loudly, but
      only when something before it was terminated. */
  function Finish(syn: Syntax, st: State, diags: seq<Diagnostic>): ScanResult {
    if st.started && !st.truncated then
      if st.segments == [] then NoSegments
      else Scanned(WithSegment(st.segments, FlushElement(st).elems), syn,
                   diags + Released(st) + [Diagnostic(Error, "unterminated_segment")])
    else if st.segments == [] then NoSegments
    else Scanned(st.segments, syn, diags + Released(st))
  }

  /** Reading the segments, after what was remarked so far. */
  function ReadBody(syn: Syntax, limit: nat, diags: seq<Diagnostic>, body: string): ScanResult {
    Finish(syn, Run(syn, limit, Idle([], false), body), diags + Remarks(syn, limit, Idle([], false), body))
  }

  /** The meaning of Scan. */
  function ScanText(raw: string, chosen: Option<Syntax>, limit: nat): ScanResult {
    var syn := InitialSyntax(raw, chosen);
    if !Usable(syn) then BadSyntax
    else ReadBody(syn, limit, LeadingRemark(raw), AfterAdvice(raw))
  }

  // ---------------------------------------------------------------- laws of the automaton

  lemma {:induction false} RunConcat(syn: Syntax, limit: nat, st: State, a: string, b: string)
    ensures Run(syn, limit, st, a + b) == Run(syn, limit, Run(syn, limit, st, a), b)
    ensures Remarks(syn, limit, st, a + b)
         == Remarks(syn, limit, st, a) + Remarks(syn, limit, Run(syn, limit, st, a), b)
    decreases |a|
  {
    hide Step, Remark;
    if a == "" {
      assert a + b == b;
    } else {
      assert (a + b)[1..] == a[1..] + b;
      RunConcat(syn, limit, Step(syn, limit, st, a[0]), a[1..], b);
    }
  }

  lemma RunOne(syn: Syntax, limit: nat, st: State, b: char)
    ensures Run(syn, limit, st, [b]) == Step(syn, limit, st, b)
    ensures Remarks(syn, limit, st, [b]) == Remark(syn, limit, st, b)
  {
    assert [b][1..] == "";
    assert Run(syn, limit, Step(syn, limit, st, b), "") == Step(syn, limit, st, b);
  }

  /** Once the cap is hit nothing more is read. */
  lemma {:induction false} RunTruncated(syn: Syntax, limit: nat, st: State, text: string)
    requires st.truncated
    ensures Run(syn, limit, st, text) == st && Remarks(syn, limit, st, text) == []
    decreases |text|
  {
    if text != "" {
      RunTruncated(syn, limit, st, text[1..]);
    }
  }

  predicate AllBreaks(text: string) {
    forall b | b in text :: IsBreak(b)
  }

  /** Line breaks between segments are not data. */
  lemma {:induction false} RunBreaks(syn: Syntax, limit: nat, st: State, text: string)
    requires AllBreaks(text) && !st.released && !st.started
    ensures Run(syn, limit, st, text) == st && Remarks(syn, limit, st, text) == []
    decreases |text|
  {
    if text != "" {
      RunBreaks(syn, limit, st, text[1..]);
    }
  }

  // ---------------------------------------------------------------- the reader

  /** The reader's working storage, updated byte by byte. */
  class Reader {
    const syn: Syntax
    const limit: nat
    var buf: string
    var comps: Composite
    var reps: Element
    var elems: seq<Element>
    var released: bool
    var started: bool
    var truncated: bool
    var segments: seq<Segment>
    var diags: seq<Diagnostic>

    constructor (syn: Syntax, limit: nat, diags: seq<Diagnostic>)
      ensures this.syn == syn && this.limit == limit
      ensures View() == Idle([], false) && this.diags == diags
    {
      this.syn, this.limit, this.diags := syn, limit, diags;
      buf, comps, reps, elems, segments := "", [], [], [], [];
      released, started, truncated := false, false, false;
    }

    function View(): State
      reads this
    {
      State(buf, comps, reps, elems, released, started, segments, truncated)
    }

    method Diag(severity: Severity, code: string)
      modifies this`diags
      ensures diags == old(diags) + [Diagnostic(severity, code)]
    {
      diags := diags + [Diagnostic(severity, code)];
    }

    method EndComponent()
      modifies this`buf, this`comps
      ensures View() == FlushComponent(old(View()))
    {
      comps := comps + [buf];
      buf := "";
    }

    method EndRepetition()
      modifies this`buf, this`comps, this`reps
      ensures View() == FlushRepetition(old(View()))
    {
      EndComponent();
      reps := reps + [comps];
      comps := [];
    }

    method EndElement()
      modifies this`buf, this`comps, this`reps, this`elems
      ensures View() == FlushElement(old(View()))
    {
      EndRepetition();
      elems := elems + [reps];
      reps := [];
    }

    /** Files the segment in hand if its tag is usable. */
    method FileSegment() returns (valid: bool)
      requires elems != []
      modifies this`segments
      ensures segments == WithSegment(old(segments), elems)
      ensures valid == ValidTag(TagOf(elems))
    {
      var tag := TagOf(elems);
      valid := ValidTag(tag);
      if valid {
        segments := segments + [Segment(tag, elems[1..])];
      }
    }

    method EndSegment()
      requires !truncated && !released
      modifies this
      ensures View() == CloseSegment(old(View()), limit)
      ensures diags == old(diags)
                    + (if ValidTag(TagOf(FlushElement(old(View())).elems)) then [] else [Diagnostic(Error, "invalid_tag")])
                    + (if View().truncated then [Diagnostic(Error, "segment_limit")] else [])
    {
      EndElement();
      var valid := FileSegment();
      if !valid {
        Diag(Error, "invalid_tag");
      }
      elems := [];
      started := false;
      if |segments| >= limit {
        Diag(Error, "segment_limit");
        truncated := true;
      }
    }

    method Feed(b: char)
      requires !truncated && Usable(syn)
      modifies this
      ensures View() == Step(syn, limit, old(View()), b)
      ensures diags == old(diags) + Remark(syn, limit, old(View()), b)
    {
      if IsBreak(b) {
        if released {
          Diag(Warn, "stray_release");
          released := false;
        } else if started {
          Diag(Info, "linebreak_in_segment");
        }
      } else if released {
        if !IsService(syn, b) {
          Diag(Warn, "stray_release");
        }
        buf := buf + [b];
        released, started := false, true;
      } else if b == syn.releaseChar {
        released, started := true, true;
      } else if b == syn.componentSep {
        EndComponent();
        started := true;
      } else if b == syn.elementSep {
        EndElement();
        started := true;
      } else if syn.repetitionEnabled && b == syn.repetitionSep {
        EndRepetition();
        started := true;
      } else if b == syn.segmentTerm {
        EndSegment();
      } else {
        buf := buf + [b];
        started := true;
      }
    }
  }

  /** Skips line breaks from a position. */
  method SkipLineBreaks(raw: string, start: nat) returns (pos: nat)
    requires start <= |raw|
    ensures start <= pos <= |raw|
    ensures AllBreaks(raw[start..pos])
    ensures raw[pos..] == SkipBreaks(raw[start..])
  {
    pos := start;
    while pos < |raw| && IsBreak(raw[pos])
      invariant start <= pos <= |raw|
      invariant AllBreaks(raw[start..pos])
      invariant SkipBreaks(raw[pos..]) == SkipBreaks(raw[start..])
    {
      assert raw[pos..][0] == raw[pos] && raw[pos..][1..] == raw[pos + 1..];
      assert raw[start..pos + 1] == raw[start..pos] + [raw[pos]];
      pos := pos + 1;
    }
  }

  method SkipLeadingBlanks(raw: string) returns (lead: nat)
    ensures lead <= |raw| && raw[lead..] == SkipBlanks(raw)
    ensures lead > 0 <==> raw != "" && IsBlank(raw[0])
  {
    lead := 0;
    while lead < |raw| && IsBlank(raw[lead])
      invariant 0 <= lead <= |raw|
      invariant SkipBlanks(raw) == SkipBlanks(raw[lead..])
      invariant lead > 0 ==> raw != "" && IsBlank(raw[0])
    {
      assert raw[lead..][1..] == raw[lead + 1..];
      lead := lead + 1;
    }
  }

  /** Reads the service string advice, when there is one. */
  method ReadAdvice(raw: string, lead: nat) returns (syn: Syntax, pos: nat)
    requires lead <= |raw| && raw[lead..] == SkipBlanks(raw)
    ensures pos <= |raw| && syn == InitialSyntax(raw, None) && raw[pos..] == AfterAdvice(raw)
  {
    ghost var text := raw[lead..];
    syn, pos := DefaultSyntax(3), lead;
    if |raw| >= pos + 9 && raw[pos..pos + 3] == "UNA" {
      assert text[..3] == raw[pos..pos + 3];
      var rep := raw[pos + 7];
      syn := Syntax(raw[pos + 3], raw[pos + 4], raw[pos + 5], raw[pos + 6],
                    DEFAULT_REPETITION_SEP, raw[pos + 8], 3, false);
      if rep != ' ' {
        syn := syn.(repetitionSep := rep, repetitionEnabled := true);
      }
      assert raw[pos + 9..] == text[9..];
      pos := SkipLineBreaks(raw, pos + 9);
    } else {
      assert |text| >= 9 ==> text[..3] == raw[pos..pos + 3];
    }
  }

  /** Decodes bytes into a flat segment list; performs no envelope validation. */
  method Scan(raw: string, chosen: Option<Syntax>, limit: nat) returns (result: ScanResult)
    ensures result == ScanText(raw, chosen, limit)
  {
    var diags: seq<Diagnostic> := [];
    var lead := SkipLeadingBlanks(raw);
    if lead > 0 {
      diags := [Diagnostic(Info, "leading_whitespace")];
    }
    var syn, pos := ReadAdvice(raw, lead);
    if chosen.Some? {
      syn := chosen.value;
    }
    if !Usable(syn) {
      return BadSyntax;
    }
    result := ScanBody(syn, limit, raw, pos, diags);
  }

  /** Moving past one byte. */
  lemma RunHead(syn: Syntax, limit: nat, st: State, raw: string, pos: nat)
    requires pos < |raw|
    ensures Run(syn, limit, st, raw[pos..]) == Run(syn, limit, Step(syn, limit, st, raw[pos]), raw[pos + 1..])
    ensures Remarks(syn, limit, st, raw[pos..])
         == Remark(syn, limit, st, raw[pos]) + Remarks(syn, limit, Step(syn, limit, st, raw[pos]), raw[pos + 1..])
  {
    assert raw[pos..][0] == raw[pos] && raw[pos..][1..] == raw[pos + 1..];
  }

  /** Moving past the line breaks between two segments. */
  lemma RunPastBreaks(syn: Syntax, limit: nat, st: State, raw: string, pos: nat, next: nat)
    requires pos <= next <= |raw| && AllBreaks(raw[pos..next]) && !st.released && !st.started
    ensures Run(syn, limit, st, raw[pos..]) == Run(syn, limit, st, raw[next..])
    ensures Remarks(syn, limit, st, raw[pos..]) == Remarks(syn, limit, st, raw[next..])
  {
    var skipped, rest := raw[pos..next], raw[next..];
    assert raw[pos..] == skipped + rest;
    RunBreaks(syn, limit, st, skipped);
    RunConcat(syn, limit, st, skipped, rest);
    assert [] + Remarks(syn, limit, st, rest) == Remarks(syn, limit, st, rest);
  }

  /** What is still to be read, seen from a position: the final state and all remarks. */
  ghost function Outcome(syn: Syntax, limit: nat, st: State, diags: seq<Diagnostic>, text: string): (State, seq<Diagnostic>) {
    (Run(syn, limit, st, text), diags + Remarks(syn, limit, st, text))
  }

  lemma OutcomeHead(syn: Syntax, limit: nat, st: State, diags: seq<Diagnostic>, raw: string, pos: nat)
    requires pos < |raw|
    ensures Outcome(syn, limit, st, diags, raw[pos..])
         == Outcome(syn, limit, Step(syn, limit, st, raw[pos]), diags + Remark(syn, limit, st, raw[pos]), raw[pos + 1..])
  {
    RunHead(syn, limit, st, raw, pos);
    var rest := Remarks(syn, limit, Step(syn, limit, st, raw[pos]), raw[pos + 1..]);
    assert diags + (Remark(syn, limit, st, raw[pos]) + rest) == diags + Remark(syn, limit, st, raw[pos]) + rest;
  }

  /** Reads one byte, and after a terminator the line breaks that follow it. */
  method ReadOne(r: Reader, raw: string, pos: nat) returns (next: nat)
    requires pos < |raw| && Usable(r.syn) && !r.truncated
    modifies r
    ensures pos < next <= |raw|
    ensures Outcome(r.syn, r.limit, r.View(), r.diags, raw[next..])
         == old(Outcome(r.syn, r.limit, r.View(), r.diags, raw[pos..]))
  {
    var inSegment := r.started || !IsBreak(raw[pos]);
    OutcomeHead(r.syn, r.limit, r.View(), r.diags, raw, pos);
    r.Feed(raw[pos]);
    next := pos + 1;
    if inSegment && !r.started {
      // That byte was a terminator: the line breaks after it separate segments.
      next := SkipLineBreaks(raw, pos + 1);
      RunPastBreaks(r.syn, r.limit, r.View(), raw, pos + 1, next);
    }
  }

  /** The byte loop, from the first byte after the optional UNA. */
  method ReadAll(r: Reader, raw: string, start: nat)
    requires start <= |raw| && Usable(r.syn)
    modifies r
    ensures (r.View(), r.diags) == old(Outcome(r.syn, r.limit, r.View(), r.diags, raw[start..]))
  {
    var pos := start;
    while pos < |raw| && !r.truncated
      invariant start <= pos <= |raw|
      invariant Outcome(r.syn, r.limit, r.View(), r.diags, raw[pos..])
             == old(Outcome(r.syn, r.limit, r.View(), r.diags, raw[start..]))
      decreases |raw| - pos
    {
      pos := ReadOne(r, raw, pos);
    }
    if r.truncated {
      RunTruncated(r.syn, r.limit, r.View(), raw[pos..]);
    } else {
      assert raw[pos..] == "";
    }
    assert r.diags + [] == r.diags;
  }

  method ScanBody(syn: Syntax, limit: nat, raw: string, start: nat, diags: seq<Diagnostic>)
    returns (result: ScanResult)
    requires start <= |raw| && Usable(syn)
    ensures result == ReadBody(syn, limit, diags, raw[start..])
  {
    var r := new Reader(syn, limit, diags);
    ReadAll(r, raw, start);
    if r.released {
      r.Diag(Error, "trailing_release");
    }
    if r.started && !r.truncated {
      r.EndElement();
      if r.segments == [] {
        return NoSegments;
      }
      r.Diag(Error, "unterminated_segment");
      var _ := r.FileSegment();
    }
    if r.segments == [] {
      return NoSegments;
    }
    return Scanned(r.segments, syn, r.diags);
  }
}
