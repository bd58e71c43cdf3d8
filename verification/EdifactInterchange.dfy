/** Decoding a whole interchange: the service characters and the syntax version
    are inferred from the bytes those characters split, and the input may be read
    a second time under version 4 rules. Decoding is a fixed point all the same. */
module EdifactInterchange {
  import opened Wrappers
  import opened EdifactSyntax
  import opened EdifactScan
  import opened EdifactEncode
  import opened EdifactNormal
  import opened EdifactRoundTrip

  // ---------------------------------------------------------------- what decoding means

  predicate IsRepertoire(name: string) {
    |name| == 4 && name[..3] == "UNO" && 'A' <= name[3] <= 'Z'
  }

  /** The version a repertoire and version pair names, when it is one. */
  function VersionNamed(repertoire: string, version: string): Option<int> {
    if IsRepertoire(repertoire) && |version| == 1 && '0' <= version[0] <= '9'
    then Some(version[0] as int - '0' as int)
    else None
  }

  /** S001 does not repeat and has no third component. */
  predicate IsCoherent(s001: Element) {
    |s001| == 1 && |s001[0]| <= 2
  }

  /** What one UNB declares. */
  function HeaderVersion(unb: Segment): (int, bool) {
    match VersionNamed(At(unb, 0, 0, 0), At(unb, 0, 0, 1))
    case None => (0, false)
    case Some(version) => (version, IsCoherent(ElementAt(unb, 0)))
  }

  /** UNB S001 as declared by the first UNB: its version, and whether the header
      is coherent enough to drive a second reading. (0, false) when it is not a
      syntax identifier at all. */
  function DeclaredVersion(segs: seq<Segment>): (int, bool) {
    if segs == [] then (0, false)
    else if segs[0].tag != "UNB" then DeclaredVersion(segs[1..])
    else HeaderVersion(segs[0])
  }

  /** Decoded flat content: the part of an interchange that encoding writes. */
  datatype Decoded = Decoded(hadAdvice: bool, syntax: Syntax, segments: seq<Segment>, diags: seq<Diagnostic>)

  /** Whether an explicit service string advice leads the input. */
  predicate StartsWithAdvice(raw: string) {
    var text := SkipBlanks(raw);
    |raw| >= 3 && |text| >= 3 && text[..3] == "UNA"
  }

  predicate InRange(version: int) {
    1 <= version <= MAX_SYNTAX_VERSION
  }

  /** The version the header names is honoured only inside 1..4. */
  function Honour(syn: Syntax, segs: seq<Segment>): Syntax {
    var declared := DeclaredVersion(segs).0;
    if InRange(declared) then syn.(version := declared) else syn
  }

  function VersionRemark(segs: seq<Segment>): seq<Diagnostic> {
    var declared := DeclaredVersion(segs).0;
    if declared != 0 && !InRange(declared) then [Diagnostic(Warn, "bad_syntax_version")] else []
  }

  /** A version 4 interchange with no UNA must be read again, or every repetition
      separator stays data. */
  predicate NeedsRescan(raw: string, syn: Syntax, segs: seq<Segment>) {
    !StartsWithAdvice(raw) && !syn.repetitionEnabled && syn.version >= 4 && DeclaredVersion(segs).1
  }

  /** The meaning of Parse, up to the envelope: None when nothing is decodable. */
  function Decode(raw: string, limit: nat): Option<Decoded> {
    match ScanText(raw, None, limit)
    case BadSyntax => None
    case NoSegments => None
    case Scanned(segs, chars, diags) =>
      var syn := Honour(chars, segs);
      var first := Decoded(StartsWithAdvice(raw), syn, segs, diags + VersionRemark(segs));
      if !NeedsRescan(raw, syn, segs) then Some(first)
      else
        match ScanText(raw, Some(DefaultSyntax(syn.version)), limit)
        case BadSyntax => Some(first)
        case NoSegments => Some(first)
        case Scanned(again, rsyn, rdiags) =>
          // Accepted only if it still declares the version that motivated it.
          if DeclaredVersion(again) == (syn.version, true)
          then Some(first.(syntax := rsyn, segments := again, diags := rdiags))
          else Some(first.(diags := first.diags + [Diagnostic(Warn, "unstable_syntax_inference")]))
  }

  datatype EncodeOptions = EncodeOptions(emitAdvice: bool, segmentPerLine: bool, crlf: bool)

  function LineEnd(opts: EncodeOptions): string {
    if !opts.segmentPerLine then "" else if opts.crlf then "\r\n" else "\n"
  }

  /** A UNA goes out when asked for, when the defaults do not imply the syntax, and
      whenever the interchange arrived with one. */
  predicate EmitsAdvice(hadAdvice: bool, syn: Syntax, opts: EncodeOptions) {
    opts.emitAdvice || !IsDefault(syn) || hadAdvice
  }

  function EncodedText(d: Decoded, opts: EncodeOptions): string {
    (if EmitsAdvice(d.hadAdvice, d.syntax, opts) then AdviceString(d.syntax) + LineEnd(opts) else "")
    + WireSegments(d.syntax, d.segments, LineEnd(opts))
  }

  // ---------------------------------------------------------------- the shape of what is read

  /** Values without line breaks, usable tags, and no repetition unless it is on. */
  predicate Sound(syn: Syntax, limit: nat, st: State) {
    && NoBreaks(st.buf) && CleanComposite(st.comps) && CleanElement(st.reps) && CleanElements(st.elems)
    && (!syn.repetitionEnabled ==> st.reps == [] && forall i | 0 <= i < |st.elems| :: |st.elems[i]| <= 1)
    && SoundSegments(syn, st.segments)
    && |st.segments| <= limit && (st.truncated <==> |st.segments| == limit)
  }

  predicate SoundSegments(syn: Syntax, segs: seq<Segment>) {
    ValidTags(segs) && CleanSegments(segs) && AllCarriable(syn, segs)
  }

  lemma SoundStep(syn: Syntax, limit: nat, st: State, b: char)
    requires Sound(syn, limit, st)
    ensures Sound(syn, limit, Step(syn, limit, st, b))
  {
    if !st.truncated && !IsBreak(b) {
      SoundFlush(syn, limit, st);
      var grown := st.buf + [b];
      assert NoBreaks(grown);
    }
  }

  lemma SoundFlush(syn: Syntax, limit: nat, st: State)
    requires Sound(syn, limit, st)
    ensures Sound(syn, limit, FlushComponent(st)) && Sound(syn, limit, FlushElement(st))
    ensures syn.repetitionEnabled ==> Sound(syn, limit, FlushRepetition(st))
    ensures SoundSegments(syn, WithSegment(st.segments, FlushElement(st).elems))
  {
    assert CleanComposite(st.comps + [st.buf]);
    assert CleanElement(st.reps + [st.comps + [st.buf]]);
    assert CleanElements(FlushElement(st).elems);
    var elems := FlushElement(st).elems;
    assert CleanElements(elems[1..]);
  }

  lemma {:induction false} SoundRun(syn: Syntax, limit: nat, st: State, text: string)
    requires Sound(syn, limit, st)
    ensures Sound(syn, limit, Run(syn, limit, st, text))
    decreases |text|
  {
    if text != "" {
      SoundStep(syn, limit, st, text[0]);
      SoundRun(syn, limit, Step(syn, limit, st, text[0]), text[1..]);
    }
  }

  /** Whatever Scan accepts, it returns segments that can be written and read back. */
  lemma ScanIsSound(raw: string, chosen: Option<Syntax>, limit: nat)
    requires limit > 0 && ScanText(raw, chosen, limit).Scanned?
    ensures var r := ScanText(raw, chosen, limit);
            && r.syntax == InitialSyntax(raw, chosen) && Usable(r.syntax)
            && SoundSegments(r.syntax, r.segments) && 0 < |r.segments| <= limit
  {
    var syn := InitialSyntax(raw, chosen);
    SoundRun(syn, limit, Idle([], false), AfterAdvice(raw));
    SoundFlush(syn, limit, Run(syn, limit, Idle([], false), AfterAdvice(raw)));
  }

  // ---------------------------------------------------------------- what decoding leaves behind

  /** The version in force: the declared one when it is in range, else 3. */
  function VersionFor(segs: seq<Segment>): int {
    var declared := DeclaredVersion(segs).0;
    if InRange(declared) then declared else 3
  }

  /** What every decoded interchange satisfies, and all a second decoding needs. */
  predicate Settled(limit: nat, d: Decoded) {
    && Usable(d.syntax) && SoundSegments(d.syntax, d.segments) && 0 < |d.segments| <= limit
    && d.syntax.version == VersionFor(d.segments)
    && (!d.syntax.repetitionEnabled ==> d.syntax.repetitionSep == DEFAULT_REPETITION_SEP)
    && (!d.hadAdvice ==>
          && d.syntax == DefaultSyntax(d.syntax.version).(repetitionEnabled := d.syntax.repetitionEnabled)
          && (d.syntax.repetitionEnabled ==> DeclaredVersion(d.segments) == (4, true)))
  }

  lemma DecodedIsSettled(raw: string, limit: nat)
    requires limit > 0 && Decode(raw, limit).Some?
    ensures Settled(limit, Decode(raw, limit).value)
  {
    ScanIsSound(raw, None, limit);
    var r := ScanText(raw, None, limit);
    var syn := Honour(r.syntax, r.segments);
    UsableAnyVersion(r.syntax, syn.version);
    SoundAnyVersion(r.syntax, syn.version, r.segments);
    if NeedsRescan(raw, syn, r.segments) {
      var rsyn := DefaultSyntax(syn.version);
      if ScanText(raw, Some(rsyn), limit).Scanned? {
        ScanIsSound(raw, Some(rsyn), limit);
      }
    }
  }

  lemma UsableAnyVersion(syn: Syntax, version: int)
    ensures Usable(syn) <==> Usable(syn.(version := version))
  {
  }

  lemma SoundAnyVersion(syn: Syntax, version: int, segs: seq<Segment>)
    requires SoundSegments(syn, segs)
    ensures SoundSegments(syn.(version := version), segs)
  {
    forall i | 0 <= i < |segs| ensures Carriable(syn.(version := version), segs[i]) {
      assert Carriable(syn, segs[i]);
    }
  }

  // ---------------------------------------------------------------- the header survives

  /** Truncation keeps what a header declares, and never makes a coherent one incoherent. */
  lemma HeaderKept(syn: Syntax, s: Segment)
    requires Carriable(syn, s)
    ensures HeaderVersion(NormSegment(syn, s)).0 == HeaderVersion(s).0
    ensures HeaderVersion(s).1 ==> HeaderVersion(NormSegment(syn, s)).1
  {
    NormKeepsValues(syn, s);
    assert At(NormSegment(syn, s), 0, 0, 0) == At(s, 0, 0, 0) && At(NormSegment(syn, s), 0, 0, 1) == At(s, 0, 0, 1);
    if HeaderVersion(s).1 {
      CoherentHeader(syn, s);
    }
  }

  lemma {:induction false} DeclaredKept(syn: Syntax, segs: seq<Segment>)
    requires AllCarriable(syn, segs)
    ensures DeclaredVersion(NormSegments(syn, segs)).0 == DeclaredVersion(segs).0
    ensures DeclaredVersion(segs).1 ==> DeclaredVersion(NormSegments(syn, segs)).1
    decreases |segs|
  {
    if segs != [] {
      var norm := NormSegments(syn, segs);
      HeaderKept(syn, segs[0]);
      assert norm[1..] == NormSegments(syn, segs[1..]);
      DeclaredKept(syn, segs[1..]);
    }
  }

  /** A coherent S001 is exactly a repertoire and a version; truncation leaves it alone. */
  lemma CoherentHeader(syn: Syntax, s: Segment)
    requires HeaderVersion(s).1
    ensures s.elements != [] && s.elements[0] == [[At(s, 0, 0, 0), At(s, 0, 0, 1)]]
    ensures NormElements(syn, s.elements) != [] && NormElements(syn, s.elements)[0] == s.elements[0]
  {
    var e := s.elements[0];
    var c := e[0];
    assert c == [c[0], c[1]] && e == [c];
    assert DropTail(c, "") == c;
    assert NormComposites(e) == [c];
    assert DropTail([c], [""]) == [c];
    FlattenOne(c);
    assert NormElement(syn, e) == [c];
    KeptOrBlank(NormEach(syn, s.elements), [[""]], 0);
  }

  /** An element of two plain values looks the same to every reader. */
  lemma PairSeen(rd: Syntax, wr: Syntax, a: string, b: string)
    requires NoBreaks(a) && NoBreaks(b)
    ensures Filled([[a, b]]) && StripElement(Seen(rd, wr, [[a, b]])) == [[a, b]]
  {
    StripIsIdentity(a);
    StripIsIdentity(b);
    assert StripComposite([a, b]) == [a, b];
    assert StripElement([[a, b]]) == [[a, b]];
  }

  lemma FirstSeen(rd: Syntax, wr: Syntax, s: Segment, e: Element)
    requires NormElements(wr, s.elements) != [] && NormElements(wr, s.elements)[0] == e
    requires e != [] && Filled(e) && StripElement(Seen(rd, wr, e)) == e
    ensures ElementAt(ReadBack(rd, wr, s), 0) == e
  {
    NormWritable(wr, s.elements);
  }

  /** Version 3 rules, reading a header that version 4 rules wrote, still see it. */
  lemma HeaderThroughVersion3(rd: Syntax, wr: Syntax, s: Segment)
    requires CleanElements(s.elements) && HeaderVersion(s).1
    ensures HeaderVersion(ReadBack(rd, wr, s)) == HeaderVersion(s)
  {
    CoherentHeader(wr, s);
    var e := s.elements[0];
    assert CleanElement(e) && CleanComposite(e[0]) && NoBreaks(e[0][0]) && NoBreaks(e[0][1]);
    PairSeen(rd, wr, e[0][0], e[0][1]);
    FirstSeen(rd, wr, s, e);
    assert ElementAt(ReadBack(rd, wr, s), 0) == ElementAt(s, 0);
  }

  lemma {:induction false} DeclaredThroughVersion3(rd: Syntax, wr: Syntax, segs: seq<Segment>)
    requires CleanSegments(segs) && DeclaredVersion(segs).1
    ensures DeclaredVersion(ReadBackAll(rd, wr, segs)) == DeclaredVersion(segs)
    decreases |segs|
  {
    var back := ReadBackAll(rd, wr, segs);
    if segs[0].tag == "UNB" {
      HeaderThroughVersion3(rd, wr, segs[0]);
    } else {
      assert CleanSegments(segs[1..]);
      DeclaredThroughVersion3(rd, wr, segs[1..]);
      DeclaredSkips(back, ReadBackAll(rd, wr, segs[1..]));
    }
  }

  lemma DeclaredSkips(all: seq<Segment>, rest: seq<Segment>)
    requires |all| == 1 + |rest| && all[0].tag != "UNB"
    requires forall i | 0 <= i < |rest| :: rest[i] == all[i + 1]
    ensures DeclaredVersion(all) == DeclaredVersion(rest)
  {
    assert all[1..] == rest;
  }

  // ---------------------------------------------------------------- decoding what was encoded

  /** What the second decoding returns: the same content, truncated. */
  predicate SameContent(d: Decoded, e: Decoded) {
    && e.syntax == d.syntax
    && e.segments == NormSegments(d.syntax, d.segments)
  }

  lemma NormIsClean(syn: Syntax, segs: seq<Segment>)
    requires SoundSegments(syn, segs)
    ensures CleanSegments(NormSegments(syn, segs)) && AllCarriable(syn, NormSegments(syn, segs))
    ensures StripSegments(NormSegments(syn, segs)) == NormSegments(syn, segs)
  {
    var norm := NormSegments(syn, segs);
    forall i | 0 <= i < |segs| ensures CleanElements(norm[i].elements) {
      NormElementsClean(syn, segs[i]);
    }
    forall i | 0 <= i < |segs| ensures Carriable(syn, norm[i]) {
      NormCarriable(syn, segs[i]);
    }
    CleanStrips(norm);
  }

  lemma NormElementsClean(syn: Syntax, s: Segment)
    requires CleanElements(s.elements) && Carriable(syn, s)
    ensures CleanElements(NormElements(syn, s.elements))
  {
    var norm := NormElements(syn, s.elements);
    forall i | 0 <= i < |norm| ensures CleanElement(norm[i]) {
      NormElementClean(syn, s.elements[i]);
    }
  }

  lemma NormElementClean(syn: Syntax, e: Element)
    requires CleanElement(e) && (syn.repetitionEnabled || |e| <= 1)
    ensures CleanElement(NormElement(syn, e))
  {
    var kept := DropTail(NormComposites(e), [""]);
    forall r | 0 <= r < |kept| ensures CleanComposite(kept[r]) {
      assert CleanComposite(e[r]);
    }
    if kept != [] && !syn.repetitionEnabled {
      FlattenOne(kept[0]);
      assert kept == [kept[0]];
    }
  }

  lemma SkipBreaksOver(lineEnd: string, text: string)
    requires lineEnd in ["", "\n", "\r\n"] && SkipBreaks(text) == text
    ensures SkipBreaks(lineEnd + text) == text
  {
    if lineEnd == "" {
      assert lineEnd + text == text;
    } else {
      assert (lineEnd + text)[1..] == lineEnd[1..] + text;
      if lineEnd == "\r\n" {
        assert lineEnd[1..] == "\n";
        assert ("\n" + text)[1..] == text;
      } else {
        assert lineEnd[1..] + text == text;
      }
    }
  }

  lemma LineEndBreaks(opts: EncodeOptions)
    ensures AllBreaks(LineEnd(opts)) && LineEnd(opts) in ["", "\n", "\r\n"]
  {
  }

  /** Reading the segments part with characters that agree with the writer's. */
  lemma ScanSettled(limit: nat, d: Decoded, rd: Syntax, raw: string, chosen: Option<Syntax>, lineEnd: string)
    requires Settled(limit, d) && AllBreaks(lineEnd)
    requires CanRead(rd, d.syntax) && Agree(rd, d.syntax)
    requires AfterAdvice(raw) == WireSegments(d.syntax, d.segments, lineEnd) && InitialSyntax(raw, chosen) == rd
    requires LeadingRemark(raw) == []
    ensures var r := ScanText(raw, chosen, limit);
            r.Scanned? && r.syntax == rd && r.segments == NormSegments(d.syntax, d.segments)
  {
    ScanFrom(rd, d.syntax, limit, d.segments, raw, chosen, lineEnd);
    ReadBackAgrees(rd, d.syntax, d.segments);
    NormIsClean(d.syntax, d.segments);
  }

  /** Led by a UNA, only one reading happens. */
  lemma DecodeLed(raw: string, limit: nat)
    requires StartsWithAdvice(raw) && ScanText(raw, None, limit).Scanned?
    ensures var r := ScanText(raw, None, limit);
            var d := Decode(raw, limit);
            && d.Some? && d.value.hadAdvice && d.value.segments == r.segments
            && d.value.syntax == Honour(r.syntax, r.segments)
            && (Calm(r.diags) ==> Calm(d.value.diags))
  {
  }

  lemma WrittenWithAdvice(d: Decoded, opts: EncodeOptions)
    requires EmitsAdvice(d.hadAdvice, d.syntax, opts)
    ensures var nl := LineEnd(opts);
            EncodedText(d, opts) == AdviceString(d.syntax) + (nl + WireSegments(d.syntax, d.segments, nl))
  {
    hide WireSegments, AdviceString;
  }

  /** With a UNA in front: the characters are spelled out, the version follows from
      the header, and no second reading happens. */
  lemma ReparseWithAdvice(limit: nat, d: Decoded, opts: EncodeOptions)
    requires Settled(limit, d) && EmitsAdvice(d.hadAdvice, d.syntax, opts)
    ensures var again := Decode(EncodedText(d, opts), limit);
            again.Some? && again.value.hadAdvice && SameContent(d, again.value)
  {
    hide Decode, EncodedText, WireSegments, ReadBody, ScanText, NormSegments, StartsWithAdvice, AfterAdvice, LeadingRemark,
         InitialSyntax, DeclaredVersion, SkipBreaks, AdviceString;
    var nl := LineEnd(opts);
    var wire := WireSegments(d.syntax, d.segments, nl);
    var raw := EncodedText(d, opts);
    LineEndBreaks(opts);
    WireStarts(d.syntax, d.segments, nl);
    SkipBreaksOver(nl, wire);
    AdviceReads(d.syntax, nl + wire);
    WrittenWithAdvice(d, opts);
    var rd := d.syntax.(version := 3);
    UsableAnyVersion(d.syntax, 3);
    ScanSettled(limit, d, rd, raw, None, nl);
    DecodeLed(raw, limit);
    DeclaredKept(d.syntax, d.segments);
  }

  lemma AdviceReads(syn: Syntax, rest: string)
    requires !syn.repetitionEnabled ==> syn.repetitionSep == DEFAULT_REPETITION_SEP
    requires syn.repetitionEnabled ==> syn.repetitionSep != ' '
    ensures var raw := AdviceString(syn) + rest;
            && StartsWithAdvice(raw) && AfterAdvice(raw) == SkipBreaks(rest) && LeadingRemark(raw) == []
            && InitialSyntax(raw, None) == syn.(version := 3)
  {
    var raw := AdviceString(syn) + rest;
    assert raw[..3] == "UNA" && raw[9..] == rest;
    assert SkipBlanks(raw) == raw;
  }

  /** With no UNA: the text opens with a segment tag, which is never a UNA. */
  lemma WithoutAdviceStarts(limit: nat, d: Decoded, opts: EncodeOptions)
    requires Settled(limit, d) && !EmitsAdvice(d.hadAdvice, d.syntax, opts)
    ensures var raw := EncodedText(d, opts);
            && raw == WireSegments(d.syntax, d.segments, LineEnd(opts))
            && !StartsWithAdvice(raw) && AfterAdvice(raw) == raw && LeadingRemark(raw) == []
            && InitialSyntax(raw, None) == DefaultSyntax(3)
  {
    var wire := WireSegments(d.syntax, d.segments, LineEnd(opts));
    WireStarts(d.syntax, d.segments, LineEnd(opts));
    assert "" + wire == wire;
    assert ValidTag(d.segments[0].tag);
  }

  /** Versions below 4 and no UNA: the same reading again. */
  lemma ReparsePlain(limit: nat, d: Decoded, opts: EncodeOptions)
    requires Settled(limit, d) && !EmitsAdvice(d.hadAdvice, d.syntax, opts) && d.syntax.version < 4
    ensures var again := Decode(EncodedText(d, opts), limit);
            again.Some? && !again.value.hadAdvice && SameContent(d, again.value)
  {
    var raw := EncodedText(d, opts);
    LineEndBreaks(opts);
    WithoutAdviceStarts(limit, d, opts);
    ScanSettled(limit, d, DefaultSyntax(3), raw, None, LineEnd(opts));
    DeclaredKept(d.syntax, d.segments);
  }

  /** Version 4 and no UNA: the version 3 reading of the version 4 text declares
      version 4 again, and the second reading is accepted again. */
  lemma ReparseRescanned(limit: nat, d: Decoded, opts: EncodeOptions)
    requires Settled(limit, d) && !EmitsAdvice(d.hadAdvice, d.syntax, opts) && d.syntax.version >= 4
    ensures var again := Decode(EncodedText(d, opts), limit);
            again.Some? && !again.value.hadAdvice && SameContent(d, again.value)
  {
    var raw := EncodedText(d, opts);
    var v4 := DefaultSyntax(4);
    assert d.syntax == v4;
    LineEndBreaks(opts);
    WithoutAdviceStarts(limit, d, opts);
    FirstReadingDeclares4(limit, d, raw, opts);
    ScanSettled(limit, d, v4, raw, Some(v4), LineEnd(opts));
    DeclaredKept(v4, d.segments);
  }

  /** The first, version 3, reading of a version 4 text. */
  lemma FirstReadingDeclares4(limit: nat, d: Decoded, raw: string, opts: EncodeOptions)
    requires Settled(limit, d) && d.syntax == DefaultSyntax(4) && DeclaredVersion(d.segments) == (4, true)
    requires raw == WireSegments(d.syntax, d.segments, LineEnd(opts))
    requires AfterAdvice(raw) == raw && InitialSyntax(raw, None) == DefaultSyntax(3) && LeadingRemark(raw) == []
    ensures var r := ScanText(raw, None, limit);
            r.Scanned? && r.syntax == DefaultSyntax(3) && DeclaredVersion(r.segments) == (4, true)
  {
    var v3 := DefaultSyntax(3);
    LineEndBreaks(opts);
    ScanFrom(v3, d.syntax, limit, d.segments, raw, None, LineEnd(opts));
    DeclaredThroughVersion3(v3, d.syntax, d.segments);
  }

  /** Decoding is a fixed point. For every byte string Parse accepts under default
      options and every way of encoding the result, decoding again gives the same
      service characters and version and the same value at every position of every
      segment, and encoding that gives the identical bytes. */
  lemma DecodingIsAFixedPoint(raw: string, limit: nat, opts: EncodeOptions)
    requires limit > 0 && Decode(raw, limit).Some?
    ensures var d := Decode(raw, limit).value;
            var out := EncodedText(d, opts);
            var again := Decode(out, limit);
            && again.Some?
            && again.value.syntax == d.syntax
            && |again.value.segments| == |d.segments|
            && (forall i | 0 <= i < |d.segments| ::
                  again.value.segments[i].tag == d.segments[i].tag && SameValues(again.value.segments[i], d.segments[i]))
            && EncodedText(again.value, opts) == out
  {
    DecodedIsSettled(raw, limit);
    var d := Decode(raw, limit).value;
    if EmitsAdvice(d.hadAdvice, d.syntax, opts) {
      ReparseWithAdvice(limit, d, opts);
    } else if d.syntax.version < 4 {
      ReparsePlain(limit, d, opts);
    } else {
      ReparseRescanned(limit, d, opts);
    }
    forall i | 0 <= i < |d.segments| ensures SameValues(NormSegments(d.syntax, d.segments)[i], d.segments[i]) {
      assert Carriable(d.syntax, d.segments[i]);
      NormKeepsValues(d.syntax, d.segments[i]);
    }
    WireOfNorm(d.syntax, d.segments, LineEnd(opts));
  }

  /** And it is settled after one pass: what the second decoding returns is decoded
      to itself, segment for segment, by every later one. */
  lemma SecondPassIsExact(raw: string, limit: nat, opts: EncodeOptions)
    requires limit > 0 && Decode(raw, limit).Some?
    ensures var second := Decode(EncodedText(Decode(raw, limit).value, opts), limit);
            && second.Some?
            && Decode(EncodedText(second.value, opts), limit) == second
  {
    DecodingIsAFixedPoint(raw, limit, opts);
  }
}
