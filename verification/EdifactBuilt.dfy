/** An interchange built, finalised and encoded here, and read back: the messages
    return and no Error is raised, exactly when the reader can infer the syntax. */
module EdifactBuilt {
  import opened Wrappers
  import opened EdifactSyntax
  import opened EdifactScan
  import opened EdifactEncode
  import opened EdifactNormal
  import opened EdifactRoundTrip
  import opened EdifactInterchange
  import opened EdifactEnvelope
  import Decimal

  // ---------------------------------------------------------------- what is built

  /** One occurrence per element and no line breaks: every service segment is plain. */
  predicate Plain(s: Segment) {
    CleanElements(s.elements) && forall i | 0 <= i < |s.elements| :: |s.elements[i]| == 1
  }

  /** A message as AddMessage leaves it, its body without service segments. */
  predicate Addable(m: Message) {
    && m.header.tag == "UNH" && Plain(m.header) && m.trailer == NO_SEGMENT
    && forall i | 0 <= i < |m.segments| ::
         ValidTag(m.segments[i].tag) && KindOf(m.segments[i].tag) == Body && CleanElements(m.segments[i].elements)
  }

  predicate Buildable(p: HeaderFields, ms: seq<Message>) {
    Plain(HeaderSegment(p)) && forall i | 0 <= i < |ms| :: Addable(ms[i])
  }

  function FinalTrailer(p: HeaderFields, ms: seq<Message>): Segment {
    InterchangeTrailer(HeaderSegment(p), [], ClosedAll(ms))
  }

  function BuiltSegments(p: HeaderFields, ms: seq<Message>): seq<Segment> {
    FlatEnvelope(HeaderSegment(p), [], ClosedAll(ms), FinalTrailer(p, ms))
  }

  /** The interchange after New, the AddMessage calls and Finalize. */
  function Built(p: HeaderFields, ms: seq<Message>): Decoded {
    Decoded(false, DefaultSyntax(VersionOf(p)), BuiltSegments(p, ms), [])
  }

  // ---------------------------------------------------------------- grouping what was built

  lemma {:induction false} PlaceConcat(a: Assembly, x: seq<Segment>, y: seq<Segment>)
    ensures PlaceFrom(a, x + y) == PlaceFrom(PlaceFrom(a, x), y)
    decreases |y|
  {
    hide Place;
    if y == [] {
      assert x + y == x;
    } else {
      assert (x + y)[..|x| + |y| - 1] == x + y[..|y| - 1];
      PlaceConcat(a, x, y[..|y| - 1]);
    }
  }

  lemma PlaceOne(a: Assembly, s: Segment)
    ensures PlaceFrom(a, [s]) == Place(a, s)
  {
    assert [s][..0] == [];
    assert PlaceFrom(a, [s][..0]) == a;
  }

  lemma {:induction false} PlaceBody(a: Assembly, body: seq<Segment>)
    requires a.curMsg.Some? && forall i | 0 <= i < |body| :: KindOf(body[i].tag) == Body
    ensures PlaceFrom(a, body) == a.(curMsg := Some(a.curMsg.value.(segments := a.curMsg.value.segments + body)))
    decreases |body|
  {
    if body == [] {
      assert a.curMsg.value.segments + [] == a.curMsg.value.segments;
    } else {
      PlaceBody(a, body[..|body| - 1]);
      assert a.curMsg.value.segments + body == a.curMsg.value.segments + body[..|body| - 1] + [body[|body| - 1]];
    }
  }

  /** A message with both its service segments. */
  predicate Complete(m: Message) {
    KindOf(m.header.tag) == UNH && KindOf(m.trailer.tag) == UNT && BodyOnly(m.segments)
  }

  /** Between messages, outside groups. */
  predicate Between(a: Assembly) {
    a.curMsg.None? && a.curGroup.None?
  }

  lemma PlaceMessage(a: Assembly, m: Message)
    requires Between(a) && Complete(m)
    ensures PlaceFrom(a, FlatMessage(m)) == a.(messages := a.messages + [m])
  {
    hide PlaceFrom;
    var b := Place(a, m.header);
    assert Present(m.trailer) == [m.trailer];
    assert b == a.(curMsg := Some(Message(m.header, [], NO_SEGMENT)));
    PlaceOne(a, m.header);
    PlaceConcat(a, [m.header], m.segments);
    PlaceBody(b, m.segments);
    assert [] + m.segments == m.segments;
    PlaceConcat(a, [m.header] + m.segments, [m.trailer]);
    PlaceOne(PlaceFrom(b, m.segments), m.trailer);
    assert m.(trailer := m.trailer) == m;
  }

  lemma AppendSnoc<T>(before: seq<T>, xs: seq<T>)
    requires xs != []
    ensures before + xs[..|xs| - 1] + [xs[|xs| - 1]] == before + xs
  {
    assert xs[..|xs| - 1] + [xs[|xs| - 1]] == xs;
  }

  lemma {:induction false} PlaceMessages(a: Assembly, ms: seq<Message>)
    requires Between(a) && forall i | 0 <= i < |ms| :: Complete(ms[i])
    ensures PlaceFrom(a, FlatMessages(ms)) == a.(messages := a.messages + ms)
    decreases |ms|
  {
    if ms == [] {
      assert a.messages + [] == a.messages;
    } else {
      var init, m := ms[..|ms| - 1], ms[|ms| - 1];
      PlaceMessages(a, init);
      PlaceConcat(a, FlatMessages(init), FlatMessage(m));
      PlaceMessage(PlaceFrom(a, FlatMessages(init)), m);
      AppendSnoc(a.messages, ms);
    }
  }

  /** A complete envelope is grouped back into what it was flattened from, with
      nothing to remark on. */
  lemma AssembleFlat(said: seq<Diagnostic>, header: Segment, ms: seq<Message>, trailer: Segment)
    requires KindOf(header.tag) == UNB && KindOf(trailer.tag) == UNZ && forall i | 0 <= i < |ms| :: Complete(ms[i])
    ensures Assemble(said, FlatEnvelope(header, [], ms, trailer)) == Assembly(header, trailer, [], ms, said, None, None)
  {
    var start := Start(said);
    var body := FlatMessages(ms);
    assert Present(header) == [header] && Present(trailer) == [trailer];
    PlaceOne(start, header);
    PlaceConcat(start, [header], body);
    PlaceMessages(Place(start, header), ms);
    assert [] + ms == ms;
    PlaceConcat(start, [header] + body, [trailer]);
    PlaceOne(PlaceFrom(start, [header] + body), trailer);
  }

  // ---------------------------------------------------------------- reading what was built

  function ReadMessage(rd: Syntax, wr: Syntax, m: Message): Message {
    Message(ReadBack(rd, wr, m.header), ReadBackAll(rd, wr, m.segments), ReadBack(rd, wr, m.trailer))
  }

  function ReadMessages(rd: Syntax, wr: Syntax, ms: seq<Message>): (r: seq<Message>)
    ensures |r| == |ms| && forall i | 0 <= i < |r| :: r[i] == ReadMessage(rd, wr, ms[i])
  {
    seq(|ms|, i requires 0 <= i < |ms| => ReadMessage(rd, wr, ms[i]))
  }

  lemma ReadBackConcat(rd: Syntax, wr: Syntax, x: seq<Segment>, y: seq<Segment>)
    ensures ReadBackAll(rd, wr, x + y) == ReadBackAll(rd, wr, x) + ReadBackAll(rd, wr, y)
  {
    hide ReadBack;
    SameEntries(ReadBackAll(rd, wr, x + y), ReadBackAll(rd, wr, x), ReadBackAll(rd, wr, y));
  }

  lemma SameEntries<T>(all: seq<T>, x: seq<T>, y: seq<T>)
    requires |all| == |x| + |y|
    requires forall i | 0 <= i < |x| :: all[i] == x[i]
    requires forall i | 0 <= i < |y| :: all[|x| + i] == y[i]
    ensures all == x + y
  {
  }

  lemma ReadBackOne(rd: Syntax, wr: Syntax, s: Segment)
    ensures ReadBackAll(rd, wr, [s]) == [ReadBack(rd, wr, s)]
  {
  }

  lemma ReadFlatMessage(rd: Syntax, wr: Syntax, m: Message)
    requires m.trailer.tag != ""
    ensures ReadBackAll(rd, wr, FlatMessage(m)) == FlatMessage(ReadMessage(rd, wr, m))
  {
    ReadBackConcat(rd, wr, [m.header] + m.segments, [m.trailer]);
    ReadBackConcat(rd, wr, [m.header], m.segments);
    ReadBackOne(rd, wr, m.header);
    ReadBackOne(rd, wr, m.trailer);
  }

  lemma {:induction false} ReadFlatMessages(rd: Syntax, wr: Syntax, ms: seq<Message>)
    requires forall i | 0 <= i < |ms| :: ms[i].trailer.tag != ""
    ensures ReadBackAll(rd, wr, FlatMessages(ms)) == FlatMessages(ReadMessages(rd, wr, ms))
    decreases |ms|
  {
    hide ReadBack, ReadMessage;
    if ms != [] {
      var init, m := ms[..|ms| - 1], ms[|ms| - 1];
      ReadFlatMessages(rd, wr, init);
      ReadFlatMessage(rd, wr, m);
      ReadBackConcat(rd, wr, FlatMessages(init), FlatMessage(m));
      assert ReadMessages(rd, wr, ms)[..|ms| - 1] == ReadMessages(rd, wr, init);
    }
  }

  lemma ReadFlatEnvelope(rd: Syntax, wr: Syntax, header: Segment, ms: seq<Message>, trailer: Segment)
    requires header.tag != "" && trailer.tag != "" && forall i | 0 <= i < |ms| :: ms[i].trailer.tag != ""
    ensures ReadBackAll(rd, wr, FlatEnvelope(header, [], ms, trailer))
         == FlatEnvelope(ReadBack(rd, wr, header), [], ReadMessages(rd, wr, ms), ReadBack(rd, wr, trailer))
  {
    ReadFlatMessages(rd, wr, ms);
    ReadBackConcat(rd, wr, [header] + FlatMessages(ms), [trailer]);
    ReadBackConcat(rd, wr, [header], FlatMessages(ms));
    ReadBackOne(rd, wr, header);
    ReadBackOne(rd, wr, trailer);
  }

  /** No element of the segment, as written, repeats. */
  predicate NothingRepeats(wr: Syntax, s: Segment) {
    forall i | 0 <= i < |NormElements(wr, s.elements)| :: |NormElements(wr, s.elements)[i]| == 1
  }

  lemma SeenSame(rd: Syntax, wr: Syntax, e: Element)
    requires e != [] && Filled(e) && CleanElement(e)
    ensures StripElement(Seen(rd, wr, e)) == e <==> Agree(rd, wr) || |e| == 1
  {
    CleanElementsStrip([e]);
    assert CleanElements([e]) && StripElements([e])[0] == e;
    if !Agree(rd, wr) && |e| == 1 {
      assert [Spliced(wr.repetitionSep, e)] == e;
    }
  }

  /** A clean segment is read as its normal form by a reader that knows repetition,
      and by one that does not exactly when nothing in it repeats. */
  lemma ReadAsWritten(rd: Syntax, wr: Syntax, s: Segment)
    requires CleanElements(NormElements(wr, s.elements))
    ensures ReadBack(rd, wr, s) == NormSegment(wr, s) <==> Agree(rd, wr) || NothingRepeats(wr, s)
  {
    NormWritable(wr, s.elements);
    SeenAllSame(rd, wr, NormElements(wr, s.elements));
  }

  lemma SeenAllSame(rd: Syntax, wr: Syntax, es: seq<Element>)
    requires AllWritable(wr, es) && CleanElements(es)
    ensures SeenElements(rd, wr, es) == es <==> Agree(rd, wr) || forall i | 0 <= i < |es| :: |es[i]| == 1
  {
    var seen := SeenElements(rd, wr, es);
    forall i | 0 <= i < |es| ensures seen[i] == es[i] <==> Agree(rd, wr) || |es[i]| == 1 {
      SeenSame(rd, wr, es[i]);
    }
    if i :| 0 <= i < |es| && seen[i] != es[i] {
      assert seen != es;
    }
  }

  lemma PlainNorm(wr: Syntax, s: Segment)
    requires Plain(s)
    ensures Carriable(wr, s) && CleanElements(NormElements(wr, s.elements)) && NothingRepeats(wr, s)
  {
    NormElementsClean(wr, s);
    var norm := NormElements(wr, s.elements);
    forall i | 0 <= i < |norm| ensures |norm[i]| == 1 {
      PlainElementNorm(wr, s.elements[i]);
    }
  }

  lemma PlainElementNorm(wr: Syntax, e: Element)
    requires |e| == 1
    ensures |NormElement(wr, e)| == 1
  {
  }

  /** A plain segment keeps every value, whoever reads it. */
  lemma PlainKept(rd: Syntax, wr: Syntax, s: Segment)
    requires Plain(s)
    ensures ReadBack(rd, wr, s) == NormSegment(wr, s) && SameValues(ReadBack(rd, wr, s), s)
  {
    PlainNorm(wr, s);
    ReadAsWritten(rd, wr, s);
    NormKeepsValues(wr, s);
  }

  lemma ValueKept(rd: Syntax, wr: Syntax, s: Segment, i: int)
    requires Plain(s)
    ensures Value(ReadBack(rd, wr, s), i) == Value(s, i)
  {
    PlainKept(rd, wr, s);
    assert At(ReadBack(rd, wr, s), i, 0, 0) == At(s, i, 0, 0);
  }

  lemma PairPlain(tag: string, a: string, b: string)
    requires NoBreaks(a) && NoBreaks(b)
    ensures Plain(Segment(tag, [Simple(a), Simple(b)]))
  {
  }

  lemma NumberClean(n: int)
    ensures NoBreaks(Decimal.Itoa(n))
  {
    Decimal.ItoaPlain(n);
  }

  lemma PlainValueClean(s: Segment, i: int)
    requires Plain(s)
    ensures NoBreaks(Value(s, i))
  {
    if 0 <= i < |s.elements| {
      assert CleanElement(s.elements[i]) && CleanComposite(s.elements[i][0]);
    }
  }

  // ---------------------------------------------------------------- the envelope checks out

  lemma ClosedIsPlain(m: Message)
    requires Addable(m)
    ensures Plain(MessageTrailer(m))
  {
    NumberClean(|m.segments| + 2);
    PlainValueClean(m.header, 0);
    PairPlain("UNT", Decimal.Itoa(|m.segments| + 2), IdOf(m));
  }

  lemma CountChecksOut(n: int, unreadable: string, wrong: string)
    ensures CountRemark(Decimal.Itoa(n), n, unreadable, wrong) == []
  {
    Decimal.ItoaPlain(n);
    Decimal.AtoiOfItoa(n);
  }

  lemma MessageChecksOut(rd: Syntax, wr: Syntax, m: Message)
    requires Addable(m)
    ensures MessageRemark(ReadMessage(rd, wr, Closed(m))) == []
  {
    var trailer := MessageTrailer(m);
    ClosedIsPlain(m);
    ValueKept(rd, wr, trailer, 0);
    ValueKept(rd, wr, trailer, 1);
    ValueKept(rd, wr, m.header, 0);
    CountChecksOut(|m.segments| + 2, "bad_unt_count", "unt_count_mismatch");
  }

  predicate BodyOnly(segs: seq<Segment>) {
    forall i | 0 <= i < |segs| :: KindOf(segs[i].tag) == Body
  }

  lemma AddableBody(m: Message)
    requires Addable(m)
    ensures BodyOnly(m.segments)
  {
  }

  lemma ReadBodyOnly(rd: Syntax, wr: Syntax, segs: seq<Segment>)
    requires BodyOnly(segs)
    ensures BodyOnly(ReadBackAll(rd, wr, segs))
  {
    var back := ReadBackAll(rd, wr, segs);
    forall i | 0 <= i < |back| ensures KindOf(back[i].tag) == Body {
      TagKept(rd, wr, segs[i]);
    }
  }

  lemma TagKept(rd: Syntax, wr: Syntax, s: Segment)
    ensures ReadBack(rd, wr, s).tag == s.tag
  {
  }

  lemma ReadComplete(rd: Syntax, wr: Syntax, m: Message)
    requires Addable(m)
    ensures Complete(ReadMessage(rd, wr, Closed(m)))
  {
    AddableBody(m);
    ReadBodyOnly(rd, wr, m.segments);
    var header, trailer := m.header, MessageTrailer(m);
    TagKept(rd, wr, header);
    TagKept(rd, wr, trailer);
    CompleteParts(ReadBack(rd, wr, header), ReadBackAll(rd, wr, m.segments), ReadBack(rd, wr, trailer));
  }

  lemma CompleteParts(header: Segment, body: seq<Segment>, trailer: Segment)
    requires header.tag == "UNH" && BodyOnly(body) && trailer.tag == "UNT"
    ensures Complete(Message(header, body, trailer))
  {
  }

  lemma {:induction false} MessagesCheckOut(said: seq<Diagnostic>, ms: seq<Message>)
    requires forall i | 0 <= i < |ms| :: MessageRemark(ms[i]) == []
    ensures MessageRemarks(said, ms) == said
    decreases |ms|
  {
    if ms != [] {
      assert said + [] == said;
      MessagesCheckOut(said, ms[1..]);
    }
  }

  /** What the envelope of a built interchange reads back as, whoever reads it: the
      same messages as far as the reader sees them, and nothing to remark on. */
  lemma EnvelopeReads(rd: Syntax, wr: Syntax, p: HeaderFields, ms: seq<Message>, said: seq<Diagnostic>)
    requires Buildable(p, ms)
    ensures var segs := ReadBackAll(rd, wr, BuiltSegments(p, ms));
            var a := Assemble(said, segs);
            && a.messages == ReadMessages(rd, wr, ClosedAll(ms))
            && EnvelopeRemarks(a.diags, a.header, a.trailer, a.groups, a.messages) == said
  {
    var rms := ReadMessages(rd, wr, ClosedAll(ms));
    AssembleBuilt(rd, wr, p, ms, said);
    forall i | 0 <= i < |ms| ensures MessageRemark(rms[i]) == [] {
      MessageChecksOut(rd, wr, ms[i]);
    }
    TrailerChecksOut(rd, wr, p, ms);
    NothingToRemark(said, ReadBack(rd, wr, HeaderSegment(p)), ReadBack(rd, wr, FinalTrailer(p, ms)), rms);
  }

  lemma NothingToRemark(said: seq<Diagnostic>, header: Segment, trailer: Segment, ms: seq<Message>)
    requires header.tag != "" && trailer.tag != "" && TrailerRemark(header, trailer, [], ms) == []
    requires forall i | 0 <= i < |ms| :: MessageRemark(ms[i]) == []
    ensures EnvelopeRemarks(said, header, trailer, [], ms) == said
  {
    assert said + [] == said;
    MessagesCheckOut(said, ms);
  }

  lemma AssembleBuilt(rd: Syntax, wr: Syntax, p: HeaderFields, ms: seq<Message>, said: seq<Diagnostic>)
    requires Buildable(p, ms)
    ensures Assemble(said, ReadBackAll(rd, wr, BuiltSegments(p, ms)))
         == Assembly(ReadBack(rd, wr, HeaderSegment(p)), ReadBack(rd, wr, FinalTrailer(p, ms)), [],
                     ReadMessages(rd, wr, ClosedAll(ms)), said, None, None)
  {
    var header, closed, trailer := HeaderSegment(p), ClosedAll(ms), FinalTrailer(p, ms);
    var rms := ReadMessages(rd, wr, closed);
    forall i | 0 <= i < |ms| ensures Complete(rms[i]) {
      ReadComplete(rd, wr, ms[i]);
    }
    ReadFlatEnvelope(rd, wr, header, closed, trailer);
    AssembleFlat(said, ReadBack(rd, wr, header), rms, ReadBack(rd, wr, trailer));
  }

  lemma TrailerChecksOut(rd: Syntax, wr: Syntax, p: HeaderFields, ms: seq<Message>)
    requires Buildable(p, ms)
    ensures TrailerRemark(ReadBack(rd, wr, HeaderSegment(p)), ReadBack(rd, wr, FinalTrailer(p, ms)), [],
                          ReadMessages(rd, wr, ClosedAll(ms))) == []
  {
    var header, trailer := HeaderSegment(p), FinalTrailer(p, ms);
    NumberClean(|ms|);
    PlainValueClean(header, 4);
    PairPlain("UNZ", Decimal.Itoa(|ms|), Value(header, 4));
    ValueKept(rd, wr, trailer, 0);
    ValueKept(rd, wr, trailer, 1);
    ValueKept(rd, wr, header, 4);
    CountChecksOut(|ms|, "bad_unz_count", "unz_count_mismatch");
  }

  // ---------------------------------------------------------------- the header read back

  lemma VersionDigit(v: int)
    ensures VersionNamed("UNOA", Decimal.Itoa(v)) == if 0 <= v <= 9 then Some(v) else None
  {
    if v < 0 {
      assert |Decimal.Itoa(v)| >= 2;
    }
  }

  /** What a built header declares, to whoever reads it. */
  lemma BuiltHeaderDeclares(rd: Syntax, wr: Syntax, p: HeaderFields)
    requires Plain(HeaderSegment(p))
    ensures HeaderVersion(ReadBack(rd, wr, HeaderSegment(p)))
         == if IsRepertoire(CharsetOf(p)) && 0 <= VersionOf(p) <= 9 then (VersionOf(p), true) else (0, false)
  {
    hide ReadBack;
    var unb := HeaderSegment(p);
    VersionDigit(VersionOf(p));
    PlainKept(rd, wr, unb);
    assert At(unb, 0, 0, 0) == CharsetOf(p) && At(unb, 0, 0, 1) == Decimal.Itoa(VersionOf(p));
    var back := ReadBack(rd, wr, unb);
    assert At(back, 0, 0, 0) == At(unb, 0, 0, 0) && At(back, 0, 0, 1) == At(unb, 0, 0, 1);
    if IsRepertoire(CharsetOf(p)) && 0 <= VersionOf(p) <= 9 {
      assert HeaderVersion(unb).1;
      CoherentHeader(wr, unb);
    }
  }

  lemma BuiltDeclares(rd: Syntax, wr: Syntax, p: HeaderFields, ms: seq<Message>)
    requires Buildable(p, ms)
    ensures DeclaredVersion(ReadBackAll(rd, wr, BuiltSegments(p, ms)))
         == if IsRepertoire(CharsetOf(p)) && 0 <= VersionOf(p) <= 9 then (VersionOf(p), true) else (0, false)
  {
    var segs := BuiltSegments(p, ms);
    var back := ReadBackAll(rd, wr, segs);
    assert segs[0] == HeaderSegment(p);
    TagKept(rd, wr, segs[0]);
    assert back[0] == ReadBack(rd, wr, HeaderSegment(p));
    BuiltHeaderDeclares(rd, wr, p);
  }

  // ---------------------------------------------------------------- the bytes read back

  lemma TagsConcat(x: seq<Segment>, y: seq<Segment>)
    requires ValidTags(x) && ValidTags(y)
    ensures ValidTags(x + y)
  {
    hide ValidTag;
  }

  lemma FlatMessageTagged(m: Message)
    requires Addable(m)
    ensures ValidTags(FlatMessage(Closed(m)))
  {
    hide CleanElements;
  }

  lemma {:induction false} FlatMessagesTagged(ms: seq<Message>)
    requires forall i | 0 <= i < |ms| :: Addable(ms[i])
    ensures ValidTags(FlatMessages(ClosedAll(ms)))
    decreases |ms|
  {
    hide Addable, FlatMessage, ValidTags, Closed;
    if ms == [] {
      NoTags();
    } else {
      var init, m := ms[..|ms| - 1], ms[|ms| - 1];
      FlatMessagesTagged(init);
      FlatMessageTagged(m);
      assert ClosedAll(ms)[..|ms| - 1] == ClosedAll(init);
      TagsConcat(FlatMessages(ClosedAll(init)), FlatMessage(Closed(m)));
    }
  }

  lemma NoTags()
    ensures ValidTags([])
  {
  }

  lemma BuiltTagged(p: HeaderFields, ms: seq<Message>)
    requires Buildable(p, ms)
    ensures ValidTags(BuiltSegments(p, ms)) && BuiltSegments(p, ms) != []
  {
    FlatMessagesTagged(ms);
  }

  /** Whether the reader infers the syntax the interchange is written in: it is told
      by a UNA, or the header names a repertoire and version 4, or there is no
      repetition separator to know about. */
  predicate Inferred(p: HeaderFields, opts: EncodeOptions) {
    || opts.emitAdvice
    || (VersionOf(p) == 4 && IsRepertoire(CharsetOf(p)))
    || VersionOf(p) < 4
  }

  /** The characters the body is finally split by. */
  function ReaderOf(p: HeaderFields, opts: EncodeOptions): Syntax {
    if Inferred(p, opts) then DefaultSyntax(VersionOf(p)) else DefaultSyntax(3)
  }

  /** Reading depends on whether repetition is known, not on the version. */
  lemma ReadBackSame(rd: Syntax, other: Syntax, wr: Syntax, segs: seq<Segment>)
    requires rd.repetitionEnabled == other.repetitionEnabled
    ensures ReadBackAll(rd, wr, segs) == ReadBackAll(other, wr, segs)
  {
    forall i | 0 <= i < |segs| ensures ReadBack(rd, wr, segs[i]) == ReadBack(other, wr, segs[i]) {
      var es := NormElements(wr, segs[i].elements);
      NormWritable(wr, segs[i].elements);
      assert SeenElements(rd, wr, es) == SeenElements(other, wr, es);
    }
  }

  /** A list that can be written, below the cap. */
  predicate Listable(segs: seq<Segment>, limit: nat) {
    ValidTags(segs) && segs != [] && |segs| < limit
  }

  function Written(v: int, segs: seq<Segment>, opts: EncodeOptions): string {
    EncodedText(Decoded(false, DefaultSyntax(v), segs, []), opts)
  }

  /** Told by a UNA. */
  lemma DecodeWithAdvice(v: int, segs: seq<Segment>, limit: nat, opts: EncodeOptions)
    requires Listable(segs, limit) && opts.emitAdvice
    ensures var d := Decode(Written(v, segs, opts), limit);
            d.Some? && Calm(d.value.diags) && d.value.segments == ReadBackAll(DefaultSyntax(v), DefaultSyntax(v), segs)
  {
    hide Decode, EncodedText, WireSegments, ReadBody, ReadBackAll, ScanText, StartsWithAdvice, AfterAdvice, LeadingRemark,
         InitialSyntax, DeclaredVersion, SkipBreaks, AdviceString, Calm, Honour;
    var wr, nl := DefaultSyntax(v), LineEnd(opts);
    var rd := wr.(version := 3);
    var wire := WireSegments(wr, segs, nl);
    LineEndBreaks(opts);
    WireStarts(wr, segs, nl);
    SkipBreaksOver(nl, wire);
    AdviceReads(wr, nl + wire);
    WrittenWithAdvice(Decoded(false, wr, segs, []), opts);
    var raw := AdviceString(wr) + (nl + wire);
    ScanFrom(rd, wr, limit, segs, raw, None, nl);
    ReadBackSame(rd, wr, wr, segs);
    DecodeLed(raw, limit);
  }

  /** The first reading of a text without UNA: version 3 rules. */
  lemma FirstReading(v: int, segs: seq<Segment>, limit: nat, opts: EncodeOptions)
    requires Listable(segs, limit) && !opts.emitAdvice
    ensures var raw := Written(v, segs, opts);
            var r := ScanText(raw, None, limit);
            && raw == WireSegments(DefaultSyntax(v), segs, LineEnd(opts))
            && !StartsWithAdvice(raw) && AfterAdvice(raw) == raw && LeadingRemark(raw) == []
            && r.Scanned? && r.syntax == DefaultSyntax(3) && Calm(r.diags)
            && r.segments == ReadBackAll(DefaultSyntax(3), DefaultSyntax(v), segs)
  {
    hide WireSegments, ReadBody, ReadBackAll;
    var wr, nl := DefaultSyntax(v), LineEnd(opts);
    var wire := WireSegments(wr, segs, nl);
    LineEndBreaks(opts);
    WireStarts(wr, segs, nl);
    assert ValidTag(segs[0].tag);
    assert "" + wire == wire;
    ScanFrom(DefaultSyntax(3), wr, limit, segs, wire, None, nl);
  }

  /** The second reading, under version 4 rules. */
  lemma SecondReading(segs: seq<Segment>, limit: nat, opts: EncodeOptions)
    requires Listable(segs, limit) && !opts.emitAdvice
    ensures var v4 := DefaultSyntax(4);
            var r := ScanText(Written(4, segs, opts), Some(v4), limit);
            r.Scanned? && r.syntax == v4 && Calm(r.diags) && r.segments == ReadBackAll(v4, v4, segs)
  {
    FirstReading(4, segs, limit, opts);
    LineEndBreaks(opts);
    ScanFrom(DefaultSyntax(4), DefaultSyntax(4), limit, segs, Written(4, segs, opts), Some(DefaultSyntax(4)), LineEnd(opts));
  }

  /** Where nothing calls for a second reading. */
  lemma DecodeOnce(raw: string, limit: nat)
    requires var r := ScanText(raw, None, limit);
             r.Scanned? && r.syntax == DefaultSyntax(3) && (DeclaredVersion(r.segments).0 != 4 || !DeclaredVersion(r.segments).1)
    ensures var r := ScanText(raw, None, limit);
            var d := Decode(raw, limit);
            d.Some? && (Calm(r.diags) ==> Calm(d.value.diags)) && d.value.segments == r.segments
  {
    hide ScanText, DeclaredVersion, StartsWithAdvice;
  }

  lemma DecodePlain(v: int, segs: seq<Segment>, limit: nat, opts: EncodeOptions)
    requires Listable(segs, limit) && !opts.emitAdvice
    requires var (n, credible) := DeclaredVersion(ReadBackAll(DefaultSyntax(3), DefaultSyntax(v), segs)); n != 4 || !credible
    ensures var d := Decode(Written(v, segs, opts), limit);
            d.Some? && Calm(d.value.diags) && d.value.segments == ReadBackAll(DefaultSyntax(3), DefaultSyntax(v), segs)
  {
    hide Written, EncodedText, ScanText, ReadBackAll, DeclaredVersion, StartsWithAdvice, AfterAdvice, LeadingRemark, Calm, Decode;
    FirstReading(v, segs, limit, opts);
    DecodeOnce(Written(v, segs, opts), limit);
  }

  lemma DecodeRescanned(segs: seq<Segment>, limit: nat, opts: EncodeOptions)
    requires Listable(segs, limit) && !opts.emitAdvice
    requires DeclaredVersion(ReadBackAll(DefaultSyntax(3), DefaultSyntax(4), segs)) == (4, true)
    requires DeclaredVersion(ReadBackAll(DefaultSyntax(4), DefaultSyntax(4), segs)) == (4, true)
    ensures var d := Decode(Written(4, segs, opts), limit);
            d.Some? && Calm(d.value.diags) && d.value.segments == ReadBackAll(DefaultSyntax(4), DefaultSyntax(4), segs)
  {
    FirstReading(4, segs, limit, opts);
    SecondReading(segs, limit, opts);
  }

  /** The bytes of a built interchange, read by whichever rules the reader infers. */
  lemma DecodeBuilt(p: HeaderFields, ms: seq<Message>, limit: nat, opts: EncodeOptions)
    requires Buildable(p, ms) && |BuiltSegments(p, ms)| < limit
    ensures var d := Decode(EncodedText(Built(p, ms), opts), limit);
            d.Some? && Calm(d.value.diags)
            && d.value.segments == ReadBackAll(ReaderOf(p, opts), DefaultSyntax(VersionOf(p)), BuiltSegments(p, ms))
  {
    var v, segs := VersionOf(p), BuiltSegments(p, ms);
    var v3, wr := DefaultSyntax(3), DefaultSyntax(v);
    BuiltTagged(p, ms);
    BuiltDeclares(v3, wr, p, ms);
    if opts.emitAdvice {
      DecodeWithAdvice(v, segs, limit, opts);
    } else if v == 4 && IsRepertoire(CharsetOf(p)) {
      BuiltDeclares(wr, wr, p, ms);
      DecodeRescanned(segs, limit, opts);
    } else {
      DecodePlain(v, segs, limit, opts);
      if v < 4 {
        ReadBackSame(v3, wr, wr, segs);
      }
    }
  }

  // ---------------------------------------------------------------- the law

  function NormMessage(wr: Syntax, m: Message): Message {
    Message(NormSegment(wr, m.header), NormSegments(wr, m.segments), NormSegment(wr, m.trailer))
  }

  function NormMessages(wr: Syntax, ms: seq<Message>): (r: seq<Message>)
    ensures |r| == |ms| && forall i | 0 <= i < |r| :: r[i] == NormMessage(wr, ms[i])
  {
    seq(|ms|, i requires 0 <= i < |ms| => NormMessage(wr, ms[i]))
  }

  /** No element of any body repeats, as written. */
  predicate BodiesDoNotRepeat(wr: Syntax, ms: seq<Message>) {
    forall i, k | 0 <= i < |ms| && 0 <= k < |ms[i].segments| :: NothingRepeats(wr, ms[i].segments[k])
  }

  lemma MessageReadAsWritten(rd: Syntax, wr: Syntax, m: Message)
    requires Addable(m) && forall k | 0 <= k < |m.segments| :: Carriable(wr, m.segments[k])
    ensures ReadMessage(rd, wr, Closed(m)) == NormMessage(wr, Closed(m))
       <==> Agree(rd, wr) || forall k | 0 <= k < |m.segments| :: NothingRepeats(wr, m.segments[k])
  {
    ClosedIsPlain(m);
    PlainKept(rd, wr, m.header);
    PlainKept(rd, wr, MessageTrailer(m));
    var back, norm := ReadBackAll(rd, wr, m.segments), NormSegments(wr, m.segments);
    forall k | 0 <= k < |m.segments|
      ensures back[k] == norm[k] <==> Agree(rd, wr) || NothingRepeats(wr, m.segments[k])
    {
      NormElementsClean(wr, m.segments[k]);
      ReadAsWritten(rd, wr, m.segments[k]);
    }
    BodyReadAsWritten(rd, wr, m.segments, back, norm);
  }

  lemma BodyReadAsWritten(rd: Syntax, wr: Syntax, body: seq<Segment>, back: seq<Segment>, norm: seq<Segment>)
    requires |back| == |norm| == |body|
    requires forall k | 0 <= k < |body| :: back[k] == norm[k] <==> Agree(rd, wr) || NothingRepeats(wr, body[k])
    ensures back == norm <==> Agree(rd, wr) || forall k | 0 <= k < |body| :: NothingRepeats(wr, body[k])
  {
    if k :| 0 <= k < |body| && !(Agree(rd, wr) || NothingRepeats(wr, body[k])) {
      assert back[k] != norm[k];
    }
  }

  /** An interchange built from non-service body segments, finalised and encoded,
      parses back to the same messages with no Error diagnostic, if and only if the
      reader can infer its syntax or no body element repeats: a UNA was asked for,
      or the header names a repertoire and version 4, or the version is below 4. */
  lemma BuiltRoundTrip(p: HeaderFields, ms: seq<Message>, limit: nat, opts: EncodeOptions)
    requires Buildable(p, ms) && |BuiltSegments(p, ms)| < limit
    requires forall i, k | 0 <= i < |ms| && 0 <= k < |ms[i].segments| ::
               Carriable(DefaultSyntax(VersionOf(p)), ms[i].segments[k])
    ensures var wr := DefaultSyntax(VersionOf(p));
            var d := Decode(EncodedText(Built(p, ms), opts), limit);
            && d.Some?
            && !HasErrors(AllRemarks(d.value))
            && (Assemble(d.value.diags, d.value.segments).messages == NormMessages(wr, ClosedAll(ms))
                <==> Inferred(p, opts) || BodiesDoNotRepeat(wr, ms))
  {
    var wr, rd := DefaultSyntax(VersionOf(p)), ReaderOf(p, opts);
    DecodeBuilt(p, ms, limit, opts);
    var d := Decode(EncodedText(Built(p, ms), opts), limit).value;
    EnvelopeReads(rd, wr, p, ms, d.diags);
    CalmHasNoErrors(d.diags);
    MessagesReadAsWritten(rd, wr, ms);
  }

  lemma CalmHasNoErrors(diags: seq<Diagnostic>)
    requires Calm(diags)
    ensures !HasErrors(diags)
  {
  }

  lemma MessagesReadAsWritten(rd: Syntax, wr: Syntax, ms: seq<Message>)
    requires forall i | 0 <= i < |ms| :: Addable(ms[i])
    requires forall i, k | 0 <= i < |ms| && 0 <= k < |ms[i].segments| :: Carriable(wr, ms[i].segments[k])
    ensures ReadMessages(rd, wr, ClosedAll(ms)) == NormMessages(wr, ClosedAll(ms))
       <==> Agree(rd, wr) || BodiesDoNotRepeat(wr, ms)
  {
    var back, norm := ReadMessages(rd, wr, ClosedAll(ms)), NormMessages(wr, ClosedAll(ms));
    forall i | 0 <= i < |ms|
      ensures back[i] == norm[i]
         <==> Agree(rd, wr) || forall k | 0 <= k < |ms[i].segments| :: NothingRepeats(wr, ms[i].segments[k])
    {
      MessageReadAsWritten(rd, wr, ms[i]);
    }
    if !Agree(rd, wr) && !BodiesDoNotRepeat(wr, ms) {
      var i, k :| 0 <= i < |ms| && 0 <= k < |ms[i].segments| && !NothingRepeats(wr, ms[i].segments[k]);
      assert back[i] != norm[i];
    }
  }

  /** An interchange header read by the accessors: sender, recipient, date and time,
      reference, application, acknowledgement asked for and test indicator. */
  predicate HeaderSays(unb: Segment, p: HeaderFields) {
    && unb.tag == "UNB"
    && Get(unb, 0, 0) == (if p.charset == "" then "UNOA" else p.charset)
    && Decimal.Atoi(Get(unb, 0, 1)) == Decimal.Number(if p.version == 0 then 3 else p.version)
    && Get(unb, 1, 0) == p.sender.id && Get(unb, 1, 1) == p.sender.qualifier && Get(unb, 1, 2) == p.sender.routingAddr
    && Get(unb, 2, 0) == p.recipient.id && Get(unb, 2, 1) == p.recipient.qualifier && Get(unb, 2, 2) == p.recipient.routingAddr
    && Get(unb, 3, 0) == p.date && Get(unb, 3, 1) == p.time
    && Value(unb, 4) == p.controlRef && Value(unb, 6) == p.appRef
    && (Value(unb, 8) == "1" <==> p.ackRequest) && (Value(unb, 10) == "1" <==> p.test)
  }

  predicate MessageSays(unh: Segment, ref: string, t: MessageType) {
    && unh.tag == "UNH" && Value(unh, 0) == ref
    && Get(unh, 1, 0) == t.name && Get(unh, 1, 1) == t.version && Get(unh, 1, 2) == t.release
    && Get(unh, 1, 3) == t.agency && Get(unh, 1, 4) == t.association
  }

  /** Encoded any way, what an interchange and its messages were built with is what the
      accessors find in those parsed. */
  lemma HeadersReadAsGiven(p: HeaderFields, ms: seq<Message>, limit: nat, opts: EncodeOptions)
    requires Buildable(p, ms) && |BuiltSegments(p, ms)| < limit
    ensures var d := Decode(EncodedText(Built(p, ms), opts), limit);
            && d.Some?
            && var a := Assemble(d.value.diags, d.value.segments);
            && HeaderSays(a.header, p) && |a.messages| == |ms|
            && forall i, ref, t | 0 <= i < |ms| && ms[i].header == MessageHeader(ref, t) :: MessageSays(a.messages[i].header, ref, t)
  {
    hide Decode, EncodedText, Assemble, ReadBack, ReadBackAll, HeaderSays, MessageSays, HeaderSegment, MessageHeader;
    var wr, rd := DefaultSyntax(VersionOf(p)), ReaderOf(p, opts);
    DecodeBuilt(p, ms, limit, opts);
    var d := Decode(EncodedText(Built(p, ms), opts), limit).value;
    AssembleBuilt(rd, wr, p, ms, d.diags);
    HeaderIsKept(rd, wr, p);
    forall i, ref, t | 0 <= i < |ms| && ms[i].header == MessageHeader(ref, t)
      ensures MessageSays(ReadBack(rd, wr, ms[i].header), ref, t)
    {
      MessageHeaderIsKept(rd, wr, ref, t);
    }
  }

  lemma HeaderIsKept(rd: Syntax, wr: Syntax, p: HeaderFields)
    requires Plain(HeaderSegment(p))
    ensures HeaderSays(ReadBack(rd, wr, HeaderSegment(p)), p)
  {
    hide ReadBack, HeaderSays, HeaderSegment, SameValues;
    PlainKept(rd, wr, HeaderSegment(p));
    HeaderSaysSo(p);
    SaysAlike(ReadBack(rd, wr, HeaderSegment(p)), HeaderSegment(p), p);
  }

  lemma HeaderSaysSo(p: HeaderFields)
    ensures HeaderSays(HeaderSegment(p), p)
  {
    hide Decimal.Itoa, Decimal.Atoi;
    Decimal.AtoiOfItoa(VersionOf(p));
  }

  lemma SaysAlike(back: Segment, unb: Segment, p: HeaderFields)
    requires back.tag == unb.tag && SameValues(back, unb) && HeaderSays(unb, p)
    ensures HeaderSays(back, p)
  {
    hide At;
    assert forall i, k :: Get(back, i, k) == At(back, i, 0, k) && Get(unb, i, k) == At(unb, i, 0, k);
  }

  lemma MessageHeaderIsKept(rd: Syntax, wr: Syntax, ref: string, t: MessageType)
    requires Plain(MessageHeader(ref, t))
    ensures MessageSays(ReadBack(rd, wr, MessageHeader(ref, t)), ref, t)
  {
    hide ReadBack, MessageSays, MessageHeader, SameValues;
    PlainKept(rd, wr, MessageHeader(ref, t));
    MessageSaysSo(ref, t);
    MessageSaysAlike(ReadBack(rd, wr, MessageHeader(ref, t)), MessageHeader(ref, t), ref, t);
  }

  lemma MessageSaysSo(ref: string, t: MessageType)
    ensures MessageSays(MessageHeader(ref, t), ref, t)
  {
  }

  lemma MessageSaysAlike(back: Segment, unh: Segment, ref: string, t: MessageType)
    requires back.tag == unh.tag && SameValues(back, unh) && MessageSays(unh, ref, t)
    ensures MessageSays(back, ref, t)
  {
    hide At;
    assert forall i, k :: Get(back, i, k) == At(back, i, 0, k) && Get(unh, i, k) == At(unh, i, 0, k);
  }

  const V5 := HeaderFields("UNOA", 5, Party("A", "", ""), Party("B", "", ""), "", "", "1", "", false, false)
  const REPEATED: Element := [["X"], ["Y"]]
  const V5_MESSAGE := Message(MessageHeader("1", MessageType("T", "", "", "", "")), [Segment("FTX", [REPEATED])], NO_SEGMENT)

  /** The failing family is real: at version 5 a repeated element does not come back. */
  lemma Version5LosesRepetition(limit: nat)
    requires |BuiltSegments(V5, [V5_MESSAGE])| < limit
    ensures Buildable(V5, [V5_MESSAGE]) && Carriable(DefaultSyntax(5), V5_MESSAGE.segments[0])
    ensures var d := Decode(EncodedText(Built(V5, [V5_MESSAGE]), EncodeOptions(false, false, false)), limit);
            d.Some? && Assemble(d.value.diags, d.value.segments).messages
                       != NormMessages(DefaultSyntax(5), ClosedAll([V5_MESSAGE]))
  {
    V5Buildable();
    NormRepeated(DefaultSyntax(5));
    BuiltRoundTrip(V5, [V5_MESSAGE], limit, EncodeOptions(false, false, false));
    assert !NothingRepeats(DefaultSyntax(5), [V5_MESSAGE][0].segments[0]);
  }

  lemma V5Buildable()
    ensures Buildable(V5, [V5_MESSAGE])
  {
    assert Plain(HeaderSegment(V5)) by {
      NumberClean(5);
    }
    V5Addable();
  }

  lemma V5Addable()
    ensures Addable(V5_MESSAGE)
  {
    assert CleanElement(REPEATED);
  }

  lemma NormRepeated(wr: Syntax)
    requires wr.repetitionEnabled
    ensures NormElements(wr, [[["X"], ["Y"]]]) == [[["X"], ["Y"]]]
  {
    var e: Element := [["X"], ["Y"]];
    assert NormComposites(e) == e;
    assert DropTail(e, [""]) == e;
    assert NormEach(wr, [e]) == [e];
    assert DropTail([e], [[""]]) == [e];
  }
}
