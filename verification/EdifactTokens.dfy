/** Reading is splitting: whatever the text, it is first taken apart into marks and data,
    and then split at the marks, four levels deep. */
module EdifactTokens {
  import opened Wrappers
  import opened EdifactSyntax
  import opened EdifactScan
  import Envelope = EdifactEnvelope

  // ---------------------------------------------------------------- marks and data

  /** A separator or terminator in force, or a character of a value. */
  datatype Token = Mark(b: char) | Data(b: char)

  predicate IsMark(syn: Syntax, b: char) {
    || b == syn.segmentTerm || b == syn.elementSep || b == syn.componentSep
    || (syn.repetitionEnabled && b == syn.repetitionSep)
  }

  /** Line breaks are dropped, and so is a release character before one or at the end;
      before anything else it makes data of it. */
  function Tokens(syn: Syntax, text: string): seq<Token>
    decreases |text|
  {
    if text == "" then []
    else if IsBreak(text[0]) then Tokens(syn, text[1..])
    else if text[0] == syn.releaseChar then
      if |text| == 1 then []
      else if IsBreak(text[1]) then Tokens(syn, text[2..])
      else [Data(text[1])] + Tokens(syn, text[2..])
    else [if IsMark(syn, text[0]) then Mark(text[0]) else Data(text[0])] + Tokens(syn, text[1..])
  }

  // ---------------------------------------------------------------- splitting

  /** The pieces between the marks of one kind, the last of them open. */
  function Split(ts: seq<Token>, mark: char): (pieces: seq<seq<Token>>)
    ensures pieces != []
    decreases |ts|
  {
    if ts == [] then [[]]
    else
      var before, t := Split(ts[..|ts| - 1], mark), ts[|ts| - 1];
      if t == Mark(mark) then before + [[]]
      else before[..|before| - 1] + [before[|before| - 1] + [t]]
  }

  function TextOf(ts: seq<Token>): (s: string)
    ensures |s| == |ts| && forall i | 0 <= i < |s| :: s[i] == ts[i].b
  {
    seq(|ts|, i requires 0 <= i < |ts| => ts[i].b)
  }

  function CompositeOf(pieces: seq<seq<Token>>): (c: Composite)
    ensures |c| == |pieces| && forall i | 0 <= i < |c| :: c[i] == TextOf(pieces[i])
  {
    seq(|pieces|, i requires 0 <= i < |pieces| => TextOf(pieces[i]))
  }

  /** The occurrences of an element: one, unless repetition is on. */
  function Occurrences(syn: Syntax, ts: seq<Token>): (pieces: seq<seq<Token>>)
    ensures pieces != []
  {
    if syn.repetitionEnabled then Split(ts, syn.repetitionSep) else [ts]
  }

  function ElementOf(syn: Syntax, pieces: seq<seq<Token>>): (e: Element)
    ensures |e| == |pieces| && forall i | 0 <= i < |e| :: e[i] == CompositeOf(Split(pieces[i], syn.componentSep))
  {
    seq(|pieces|, i requires 0 <= i < |pieces| => CompositeOf(Split(pieces[i], syn.componentSep)))
  }

  function ElementsOf(syn: Syntax, pieces: seq<seq<Token>>): (es: seq<Element>)
    ensures |es| == |pieces| && forall i | 0 <= i < |es| :: es[i] == ElementOf(syn, Occurrences(syn, pieces[i]))
  {
    seq(|pieces|, i requires 0 <= i < |pieces| => ElementOf(syn, Occurrences(syn, pieces[i])))
  }

  /** A piece is a segment when the first component of its first element is a tag. */
  function SegmentIn(syn: Syntax, ts: seq<Token>): seq<Segment> {
    var es := ElementsOf(syn, Split(ts, syn.elementSep));
    var tag := es[0][0][0];
    if |tag| == 3 && (forall b | b in tag :: 'A' <= b <= 'Z' || 'a' <= b <= 'z' || '0' <= b <= '9') && tag != "UNA" && tag != "una"
    then [Segment(tag, es[1..])] else []
  }

  function SegmentsIn(syn: Syntax, pieces: seq<seq<Token>>): seq<Segment> {
    if pieces == [] then [] else SegmentsIn(syn, pieces[..|pieces| - 1]) + SegmentIn(syn, pieces[|pieces| - 1])
  }

  // ---------------------------------------------------------------- the reader keeps the split

  function Last<T>(xs: seq<T>): T
    requires xs != []
  {
    xs[|xs| - 1]
  }

  function Init<T>(xs: seq<T>): seq<T>
    requires xs != []
  {
    xs[..|xs| - 1]
  }

  lemma SplitSnoc(ts: seq<Token>, t: Token, mark: char)
    ensures var before, after := Split(ts, mark), Split(ts + [t], mark);
            if t == Mark(mark) then Init(after) == before && Last(after) == []
            else Init(after) == Init(before) && Last(after) == Last(before) + [t]
  {
    assert (ts + [t])[..|ts|] == ts;
  }

  lemma Snoc<T>(xs: seq<T>)
    requires xs != []
    ensures xs == Init(xs) + [Last(xs)]
  {
  }

  /** The storage of the reader is the split of the piece it is in. */
  ghost predicate HoldsComponents(syn: Syntax, st: State, ts: seq<Token>) {
    var pieces := Split(ts, syn.componentSep);
    st.comps == CompositeOf(Init(pieces)) && st.buf == TextOf(Last(pieces))
  }

  ghost predicate HoldsOccurrences(syn: Syntax, st: State, ts: seq<Token>) {
    var pieces := Occurrences(syn, ts);
    st.reps == ElementOf(syn, Init(pieces)) && HoldsComponents(syn, st, Last(pieces))
  }

  ghost predicate HoldsElements(syn: Syntax, st: State, ts: seq<Token>) {
    var pieces := Split(ts, syn.elementSep);
    st.elems == ElementsOf(syn, Init(pieces)) && HoldsOccurrences(syn, st, Last(pieces))
  }

  lemma ComponentsData(syn: Syntax, st: State, ts: seq<Token>, t: Token)
    requires HoldsComponents(syn, st, ts) && t != Mark(syn.componentSep)
    ensures HoldsComponents(syn, st.(buf := st.buf + [t.b]), ts + [t])
  {
    SplitSnoc(ts, t, syn.componentSep);
  }

  lemma OccurrencesData(syn: Syntax, st: State, ts: seq<Token>, t: Token)
    requires HoldsOccurrences(syn, st, ts) && t.Data?
    ensures HoldsOccurrences(syn, st.(buf := st.buf + [t.b]), ts + [t])
  {
    hide HoldsComponents;
    SplitSnoc(ts, t, syn.repetitionSep);
    ComponentsData(syn, st, Last(Occurrences(syn, ts)), t);
    HeldAlike(syn, st.(buf := st.buf + [t.b]), st.(buf := st.buf + [t.b]), Last(Occurrences(syn, ts)) + [t]);
  }

  lemma ElementsData(syn: Syntax, st: State, ts: seq<Token>, t: Token)
    requires HoldsElements(syn, st, ts) && t.Data?
    ensures HoldsElements(syn, st.(buf := st.buf + [t.b]), ts + [t])
  {
    hide HoldsOccurrences;
    SplitSnoc(ts, t, syn.elementSep);
    OccurrencesData(syn, st, Last(Split(ts, syn.elementSep)), t);
  }

  /** Only the fields of a level matter at it. */
  lemma HeldAlike(syn: Syntax, st: State, other: State, ts: seq<Token>)
    requires HoldsComponents(syn, st, ts) && other.comps == st.comps && other.buf == st.buf
    ensures HoldsComponents(syn, other, ts)
  {
  }

  lemma ComponentsFlush(syn: Syntax, st: State, ts: seq<Token>)
    requires HoldsComponents(syn, st, ts)
    ensures FlushComponent(st).comps == CompositeOf(Split(ts, syn.componentSep))
  {
    Snoc(Split(ts, syn.componentSep));
  }

  lemma OccurrencesFlush(syn: Syntax, st: State, ts: seq<Token>)
    requires HoldsOccurrences(syn, st, ts)
    ensures FlushRepetition(st).reps == ElementOf(syn, Occurrences(syn, ts))
  {
    hide HoldsComponents;
    ComponentsFlush(syn, st, Last(Occurrences(syn, ts)));
    Snoc(Occurrences(syn, ts));
  }

  lemma ElementsFlush(syn: Syntax, st: State, ts: seq<Token>)
    requires HoldsElements(syn, st, ts)
    ensures FlushElement(st).elems == ElementsOf(syn, Split(ts, syn.elementSep))
  {
    hide HoldsOccurrences, Split;
    OccurrencesFlush(syn, st, Last(Split(ts, syn.elementSep)));
    Snoc(Split(ts, syn.elementSep));
  }

  /** A component separator. */
  lemma ComponentsMark(syn: Syntax, st: State, ts: seq<Token>)
    requires HoldsComponents(syn, st, ts)
    ensures HoldsComponents(syn, FlushComponent(st), ts + [Mark(syn.componentSep)])
  {
    SplitSnoc(ts, Mark(syn.componentSep), syn.componentSep);
    ComponentsFlush(syn, st, ts);
  }

  lemma ComponentMark(syn: Syntax, st: State, ts: seq<Token>)
    requires Usable(syn) && HoldsElements(syn, st, ts)
    ensures HoldsElements(syn, FlushComponent(st), ts + [Mark(syn.componentSep)])
  {
    hide HoldsComponents;
    var t := Mark(syn.componentSep);
    SplitSnoc(ts, t, syn.elementSep);
    var e := Last(Split(ts, syn.elementSep));
    SplitSnoc(e, t, syn.repetitionSep);
    ComponentsMark(syn, st, Last(Occurrences(syn, e)));
  }

  /** A repetition separator. */
  lemma RepetitionMark(syn: Syntax, st: State, ts: seq<Token>)
    requires Usable(syn) && syn.repetitionEnabled && HoldsElements(syn, st, ts)
    ensures HoldsElements(syn, FlushRepetition(st), ts + [Mark(syn.repetitionSep)])
  {
    var t := Mark(syn.repetitionSep);
    SplitSnoc(ts, t, syn.elementSep);
    var e := Last(Split(ts, syn.elementSep));
    SplitSnoc(e, t, syn.repetitionSep);
    OccurrencesFlush(syn, st, e);
    NothingHeld(syn, FlushRepetition(st));
  }

  lemma NothingHeld(syn: Syntax, st: State)
    requires st.comps == [] && st.buf == ""
    ensures HoldsComponents(syn, st, [])
  {
  }

  /** An element separator. */
  lemma ElementMark(syn: Syntax, st: State, ts: seq<Token>)
    requires HoldsElements(syn, st, ts)
    ensures HoldsElements(syn, FlushElement(st), ts + [Mark(syn.elementSep)])
  {
    SplitSnoc(ts, Mark(syn.elementSep), syn.elementSep);
    ElementsFlush(syn, st, ts);
    NothingHeld(syn, FlushElement(st));
  }

  lemma IdleHolds(syn: Syntax, segments: seq<Segment>, truncated: bool)
    ensures HoldsElements(syn, Idle(segments, truncated), [])
  {
    NothingHeld(syn, Idle(segments, truncated));
  }

  // ---------------------------------------------------------------- segment by segment

  /** The terminated segments, as far as the limit, and the storage of the piece still
      open. */
  ghost predicate Reads(syn: Syntax, limit: nat, st: State, ts: seq<Token>) {
    var pieces := Split(ts, syn.segmentTerm);
    var all := SegmentsIn(syn, Init(pieces));
    if |all| >= limit then st.truncated && st.segments == all[..limit]
    else
      && !st.truncated && st.segments == all && HoldsElements(syn, st, Last(pieces))
      && (!st.started ==> Last(pieces) == [])
  }

  lemma SegmentIsKept(syn: Syntax, segments: seq<Segment>, ts: seq<Token>)
    ensures WithSegment(segments, ElementsOf(syn, Split(ts, syn.elementSep))) == segments + SegmentIn(syn, ts)
  {
    hide Split, Occurrences, TextOf;
    var es := ElementsOf(syn, Split(ts, syn.elementSep));
    assert es[0] != [] && es[0][0] != [];
    var tag := es[0][0][0];
    assert TagOf(es) == tag;
    if |tag| == 3 {
      assert tag[0] in tag && tag[1] in tag && tag[2] in tag;
    }
  }

  lemma AtMostOne(syn: Syntax, ts: seq<Token>)
    ensures |SegmentIn(syn, ts)| <= 1
  {
  }

  lemma SegmentsSnoc(syn: Syntax, pieces: seq<seq<Token>>, piece: seq<Token>)
    ensures SegmentsIn(syn, pieces + [piece]) == SegmentsIn(syn, pieces) + SegmentIn(syn, piece)
  {
    hide SegmentIn;
    assert (pieces + [piece])[..|pieces|] == pieces;
  }

  /** A terminator closes the piece. */
  lemma TerminatorReads(syn: Syntax, limit: nat, st: State, ts: seq<Token>)
    requires Usable(syn) && !st.truncated && Reads(syn, limit, st, ts)
    ensures Reads(syn, limit, CloseSegment(st, limit), ts + [Mark(syn.segmentTerm)])
  {
    hide HoldsElements, SegmentIn, SegmentsIn;
    SplitSnoc(ts, Mark(syn.segmentTerm), syn.segmentTerm);
    var pieces := Split(ts, syn.segmentTerm);
    Snoc(pieces);
    SegmentsSnoc(syn, Init(pieces), Last(pieces));
    AtMostOne(syn, Last(pieces));
    ElementsFlush(syn, st, Last(pieces));
    SegmentIsKept(syn, st.segments, Last(pieces));
    IdleHolds(syn, CloseSegment(st, limit).segments, false);
  }

  /** Any other token stays in the piece. */
  lemma OtherReads(syn: Syntax, limit: nat, st: State, next: State, ts: seq<Token>, t: Token)
    requires Usable(syn) && !st.truncated && Reads(syn, limit, st, ts) && t != Mark(syn.segmentTerm)
    requires next.segments == st.segments && !next.truncated && next.started
    requires HoldsElements(syn, next, Last(Split(ts, syn.segmentTerm)) + [t])
    ensures Reads(syn, limit, next, ts + [t])
  {
    hide HoldsElements, SegmentsIn;
    SplitSnoc(ts, t, syn.segmentTerm);
  }

  /** Beyond the limit nothing is read. */
  lemma CappedReads(syn: Syntax, limit: nat, st: State, ts: seq<Token>, t: Token)
    requires st.truncated && Reads(syn, limit, st, ts)
    ensures Reads(syn, limit, st, ts + [t])
  {
    hide HoldsElements, SegmentIn, SegmentsIn;
    SplitSnoc(ts, t, syn.segmentTerm);
    var pieces := Split(ts, syn.segmentTerm);
    Snoc(pieces);
    SegmentsSnoc(syn, Init(pieces), Last(pieces));
  }

  lemma {:induction false} CappedReadsAll(syn: Syntax, limit: nat, st: State, ts: seq<Token>, more: seq<Token>)
    requires st.truncated && Reads(syn, limit, st, ts)
    ensures Reads(syn, limit, st, ts + more)
    decreases |more|
  {
    hide Reads;
    if more == [] {
      assert ts + more == ts;
    } else {
      CappedReadsAll(syn, limit, st, ts, Init(more));
      CappedReads(syn, limit, st, ts + Init(more), Last(more));
      assert ts + more == ts + Init(more) + [Last(more)];
    }
  }

  /** A character taken as data. */
  lemma DataReads(syn: Syntax, limit: nat, st: State, ts: seq<Token>, b: char)
    requires Usable(syn) && !st.truncated && Reads(syn, limit, st, ts)
    ensures Reads(syn, limit, st.(buf := st.buf + [b], released := false, started := true), ts + [Data(b)])
  {
    hide HoldsOccurrences, Split;
    var piece := Last(Split(ts, syn.segmentTerm));
    ElementsData(syn, st, piece, Data(b));
    var next := st.(buf := st.buf + [b], released := false, started := true);
    Alike(syn, st.(buf := st.buf + [b]), next, piece + [Data(b)]);
    OtherReads(syn, limit, st, next, ts, Data(b));
  }

  lemma Alike(syn: Syntax, st: State, other: State, ts: seq<Token>)
    requires HoldsElements(syn, st, ts)
    requires other.elems == st.elems && other.reps == st.reps && other.comps == st.comps && other.buf == st.buf
    ensures HoldsElements(syn, other, ts)
  {
    hide Split;
  }

  /** A separator. */
  lemma SeparatorReads(syn: Syntax, limit: nat, st: State, ts: seq<Token>, b: char)
    requires Usable(syn) && !st.truncated && Reads(syn, limit, st, ts) && !st.released
    requires IsMark(syn, b) && b != syn.segmentTerm
    ensures Reads(syn, limit, Step(syn, limit, st, b), ts + [Mark(b)])
  {
    hide HoldsElements, Split;
    var piece, next := Last(Split(ts, syn.segmentTerm)), Step(syn, limit, st, b);
    if b == syn.componentSep {
      ComponentMark(syn, st, piece);
      Alike(syn, FlushComponent(st), next, piece + [Mark(b)]);
    } else if b == syn.elementSep {
      ElementMark(syn, st, piece);
      Alike(syn, FlushElement(st), next, piece + [Mark(b)]);
    } else {
      RepetitionMark(syn, st, piece);
      Alike(syn, FlushRepetition(st), next, piece + [Mark(b)]);
    }
    OtherReads(syn, limit, st, next, ts, Mark(b));
  }

  /** One character that is no line break and no release character. */
  lemma PlainReads(syn: Syntax, limit: nat, st: State, ts: seq<Token>, b: char)
    requires Usable(syn) && !st.truncated && !st.released && Reads(syn, limit, st, ts)
    requires !IsBreak(b) && b != syn.releaseChar
    ensures Reads(syn, limit, Step(syn, limit, st, b), ts + [if IsMark(syn, b) then Mark(b) else Data(b)])
    ensures !Step(syn, limit, st, b).released
  {
    hide Reads;
    if b == syn.segmentTerm {
      TerminatorReads(syn, limit, st, ts);
    } else if IsMark(syn, b) {
      SeparatorReads(syn, limit, st, ts, b);
    } else {
      DataReads(syn, limit, st, ts, b);
    }
  }

  lemma StillReads(syn: Syntax, limit: nat, st: State, ts: seq<Token>, released: bool)
    requires !st.truncated && Reads(syn, limit, st, ts)
    ensures Reads(syn, limit, st.(released := released, started := true), ts)
  {
    hide Split, SegmentsIn;
    Alike(syn, st, st.(released := released, started := true), Last(Split(ts, syn.segmentTerm)));
  }

  lemma RunTwo(syn: Syntax, limit: nat, st: State, text: string)
    requires |text| >= 2
    ensures Run(syn, limit, st, text)
         == Run(syn, limit, Step(syn, limit, Step(syn, limit, st, text[0]), text[1]), text[2..])
  {
    hide Step;
    assert text[1..][1..] == text[2..] && text[1..][0] == text[1];
  }

  lemma AddFirst(ts: seq<Token>, t: Token, rest: seq<Token>)
    ensures ts + ([t] + rest) == ts + [t] + rest
  {
  }

  lemma {:induction false} TextReads(syn: Syntax, limit: nat, st: State, ts: seq<Token>, text: string)
    requires Usable(syn) && !st.released && Reads(syn, limit, st, ts)
    ensures Reads(syn, limit, Run(syn, limit, st, text), ts + Tokens(syn, text))
    decreases |text|
  {
    hide Reads;
    if st.truncated {
      RunTruncated(syn, limit, st, text);
      CappedReadsAll(syn, limit, st, ts, Tokens(syn, text));
    } else if text == "" {
      assert ts + Tokens(syn, text) == ts;
    } else if IsBreak(text[0]) {
      assert Step(syn, limit, st, text[0]) == st;
      TextReads(syn, limit, st, ts, text[1..]);
    } else if text[0] == syn.releaseChar {
      ReleaseReads(syn, limit, st, ts, text);
      if |text| >= 2 {
        var next := Step(syn, limit, Step(syn, limit, st, text[0]), text[1]);
        RunTwo(syn, limit, st, text);
        if IsBreak(text[1]) {
          TextReads(syn, limit, next, ts, text[2..]);
        } else {
          TextReads(syn, limit, next, ts + [Data(text[1])], text[2..]);
          AddFirst(ts, Data(text[1]), Tokens(syn, text[2..]));
        }
      } else {
        assert text == [text[0]];
        RunOne(syn, limit, st, text[0]);
        assert ts + Tokens(syn, text) == ts;
      }
    } else {
      var t := if IsMark(syn, text[0]) then Mark(text[0]) else Data(text[0]);
      PlainReads(syn, limit, st, ts, text[0]);
      TextReads(syn, limit, Step(syn, limit, st, text[0]), ts + [t], text[1..]);
      AddFirst(ts, t, Tokens(syn, text[1..]));
    }
  }

  /** A release character and what follows it. */
  lemma ReleaseReads(syn: Syntax, limit: nat, st: State, ts: seq<Token>, text: string)
    requires Usable(syn) && !st.truncated && !st.released && Reads(syn, limit, st, ts)
    requires text != "" && text[0] == syn.releaseChar
    ensures Reads(syn, limit, Step(syn, limit, st, text[0]), ts)
    ensures |text| >= 2 ==>
              var next := Step(syn, limit, Step(syn, limit, st, text[0]), text[1]);
              !next.released && Reads(syn, limit, next, if IsBreak(text[1]) then ts else ts + [Data(text[1])])
  {
    hide Reads;
    StillReads(syn, limit, st, ts, true);
    StillReads(syn, limit, st, ts, false);
    if |text| >= 2 && !IsBreak(text[1]) {
      DataReads(syn, limit, st, ts, text[1]);
    }
  }

  /** Of any text: the segments read are its pieces between terminators that have a tag,
      in order, the unterminated last one too, up to the limit; a text none of whose
      terminated pieces has one is refused. Each is split at element separators, those at
      repetition separators where repetition is on, and those at component separators. */
  lemma ReadingIsSplitting(raw: string, chosen: Option<Syntax>, limit: nat)
    requires limit > 0 && Usable(InitialSyntax(raw, chosen))
    ensures var syn, r := InitialSyntax(raw, chosen), ScanText(raw, chosen, limit);
            var pieces := Split(Tokens(syn, AfterAdvice(raw)), syn.segmentTerm);
            var closed := SegmentsIn(syn, Init(pieces));
            if closed == [] then r == NoSegments
            else r.Scanned? && r.syntax == syn
                 && r.segments == if |closed| >= limit then closed[..limit] else SegmentsIn(syn, pieces)
  {
    hide Tokens, Split, SegmentIn, SegmentsIn, HoldsElements;
    var syn, text := InitialSyntax(raw, chosen), AfterAdvice(raw);
    var ts := Tokens(syn, text);
    var pieces := Split(ts, syn.segmentTerm);
    NothingRead(syn, limit);
    TextReads(syn, limit, Idle([], false), [], text);
    assert [] + ts == ts;
    var st := Run(syn, limit, Idle([], false), text);
    Snoc(pieces);
    SegmentsSnoc(syn, Init(pieces), Last(pieces));
    NoTagInNothing(syn);
    if |SegmentsIn(syn, Init(pieces))| < limit {
      ElementsFlush(syn, st, Last(pieces));
      SegmentIsKept(syn, st.segments, Last(pieces));
    }
  }

  lemma NothingRead(syn: Syntax, limit: nat)
    requires limit > 0
    ensures Reads(syn, limit, Idle([], false), [])
  {
    hide HoldsElements;
    IdleHolds(syn, [], false);
  }

  lemma NoTagInNothing(syn: Syntax)
    ensures SegmentIn(syn, []) == []
  {
  }

  // ---------------------------------------------------------------- when nothing is wrong

  lemma FaultyConcat(xs: seq<Diagnostic>, ys: seq<Diagnostic>)
    ensures Envelope.HasErrors(xs + ys) <==> Envelope.HasErrors(xs) || Envelope.HasErrors(ys)
  {
    if Envelope.HasErrors(ys) {
      var i :| 0 <= i < |ys| && ys[i].severity == Error;
      assert (xs + ys)[|xs| + i] == ys[i];
    }
    if Envelope.HasErrors(xs) {
      var i :| 0 <= i < |xs| && xs[i].severity == Error;
      assert (xs + ys)[i] == xs[i];
    }
  }

  /** Some terminated piece has no tag. */
  predicate PieceDropped(syn: Syntax, ts: seq<Token>) {
    var pieces := Split(ts, syn.segmentTerm);
    exists i | 0 <= i < |pieces| - 1 :: SegmentIn(syn, pieces[i]) == []
  }

  /** Whether anything but line breaks comes after the last terminator. */
  predicate LeftOpen(syn: Syntax, text: string, already: bool)
    decreases |text|
  {
    if text == "" then already
    else if IsBreak(text[0]) then LeftOpen(syn, text[1..], already)
    else if text[0] == syn.releaseChar then LeftOpen(syn, if |text| == 1 then "" else text[2..], true)
    else LeftOpen(syn, text[1..], text[0] != syn.segmentTerm)
  }

  lemma {:induction false} OpenAsStarted(syn: Syntax, limit: nat, st: State, text: string)
    requires Usable(syn) && !st.released
    ensures var end := Run(syn, limit, st, text);
            !end.truncated ==> (end.started <==> LeftOpen(syn, text, st.started)) && (end.released ==> end.started)
    decreases |text|
  {
    if st.truncated {
      RunTruncated(syn, limit, st, text);
    } else if text != "" {
      if text[0] == syn.releaseChar && !IsBreak(text[0]) {
        if |text| >= 2 {
          RunTwo(syn, limit, st, text);
          OpenAsStarted(syn, limit, Step(syn, limit, Step(syn, limit, st, text[0]), text[1]), text[2..]);
        } else {
          assert text == [text[0]];
          RunOne(syn, limit, st, text[0]);
        }
      } else {
        OpenAsStarted(syn, limit, Step(syn, limit, st, text[0]), text[1..]);
      }
    }
  }

  /** What has been remarked so far has an Error in it exactly when the limit was met or a
      piece was dropped. */
  ghost predicate Faults(syn: Syntax, st: State, ts: seq<Token>, said: seq<Diagnostic>) {
    Envelope.HasErrors(said) <==> st.truncated || PieceDropped(syn, ts)
  }

  lemma StillDropped(syn: Syntax, ts: seq<Token>, t: Token)
    requires t != Mark(syn.segmentTerm)
    ensures PieceDropped(syn, ts + [t]) <==> PieceDropped(syn, ts)
  {
    hide SegmentIn, Split;
    SplitSnoc(ts, t, syn.segmentTerm);
    var before, after := Split(ts, syn.segmentTerm), Split(ts + [t], syn.segmentTerm);
    assert forall i | 0 <= i < |before| - 1 :: before[i] == Init(before)[i] && after[i] == Init(after)[i];
  }

  lemma MaybeDropped(syn: Syntax, ts: seq<Token>)
    ensures PieceDropped(syn, ts + [Mark(syn.segmentTerm)])
       <==> PieceDropped(syn, ts) || SegmentIn(syn, Last(Split(ts, syn.segmentTerm))) == []
  {
    hide SegmentIn, Split;
    var t := Mark(syn.segmentTerm);
    SplitSnoc(ts, t, syn.segmentTerm);
    var before, after := Split(ts, syn.segmentTerm), Split(ts + [t], syn.segmentTerm);
    assert forall i | 0 <= i < |before| :: before[i] == after[i] by {
      assert forall i | 0 <= i < |before| :: before[i] == Init(after)[i];
    }
  }

  lemma PlainFaults(syn: Syntax, limit: nat, st: State, ts: seq<Token>, said: seq<Diagnostic>, b: char)
    requires Usable(syn) && !st.truncated && !st.released && Reads(syn, limit, st, ts) && Faults(syn, st, ts, said)
    requires !IsBreak(b) && b != syn.releaseChar
    ensures Faults(syn, Step(syn, limit, st, b), ts + [if IsMark(syn, b) then Mark(b) else Data(b)],
                   said + Remark(syn, limit, st, b))
  {
    hide Envelope.HasErrors, PieceDropped, SegmentIn, HoldsElements, SegmentsIn, Split;
    FaultyConcat(said, Remark(syn, limit, st, b));
    if b == syn.segmentTerm {
      var piece := Last(Split(ts, syn.segmentTerm));
      MaybeDropped(syn, ts);
      ElementsFlush(syn, st, piece);
      SegmentIsKept(syn, [], piece);
      TagSays(FlushElement(st).elems);
      RemarkSays(syn, limit, st);
    } else {
      StillDropped(syn, ts, if IsMark(syn, b) then Mark(b) else Data(b));
      NoFault([]);
    }
  }

  lemma TagSays(es: seq<Element>)
    requires es != []
    ensures WithSegment([], es) == [] <==> !ValidTag(TagOf(es))
  {
  }

  lemma RemarkSays(syn: Syntax, limit: nat, st: State)
    requires Usable(syn) && !st.truncated && !st.released && !IsBreak(syn.segmentTerm)
    ensures Envelope.HasErrors(Remark(syn, limit, st, syn.segmentTerm))
       <==> !ValidTag(TagOf(FlushElement(st).elems)) || CloseSegment(st, limit).truncated
  {
    hide ValidTag, TagOf;
    var ds := Remark(syn, limit, st, syn.segmentTerm);
    if ds != [] {
      assert ds[0].severity == Error;
    }
  }

  lemma NoFault(ds: seq<Diagnostic>)
    requires forall i | 0 <= i < |ds| :: ds[i].severity != Error
    ensures !Envelope.HasErrors(ds)
  {
  }

  lemma {:induction false} TextFaults(syn: Syntax, limit: nat, st: State, ts: seq<Token>, said: seq<Diagnostic>, text: string)
    requires Usable(syn) && !st.released && Reads(syn, limit, st, ts) && Faults(syn, st, ts, said)
    ensures Faults(syn, Run(syn, limit, st, text), ts + Tokens(syn, text), said + Remarks(syn, limit, st, text))
    decreases |text|
  {
    hide Reads, PieceDropped, Envelope.HasErrors, IsMark;
    if st.truncated {
      RunTruncated(syn, limit, st, text);
      assert said + [] == said;
    } else if text == "" {
      assert ts + Tokens(syn, text) == ts && said + [] == said;
    } else if !IsBreak(text[0]) && text[0] == syn.releaseChar {
      ReleaseFaults(syn, limit, st, ts, said, text);
    } else {
      var remark, rest := Remark(syn, limit, st, text[0]), Remarks(syn, limit, Step(syn, limit, st, text[0]), text[1..]);
      assert said + (remark + rest) == said + remark + rest;
      if IsBreak(text[0]) {
        NoFault(remark);
        FaultyConcat(said, remark);
        TextFaults(syn, limit, st, ts, said + remark, text[1..]);
      } else {
        var t := if IsMark(syn, text[0]) then Mark(text[0]) else Data(text[0]);
        PlainReads(syn, limit, st, ts, text[0]);
        PlainFaults(syn, limit, st, ts, said, text[0]);
        TextFaults(syn, limit, Step(syn, limit, st, text[0]), ts + [t], said + remark, text[1..]);
        AddFirst(ts, t, Tokens(syn, text[1..]));
      }
    }
  }

  lemma {:induction false} ReleaseFaults(syn: Syntax, limit: nat, st: State, ts: seq<Token>, said: seq<Diagnostic>, text: string)
    requires Usable(syn) && !st.released && !st.truncated && Reads(syn, limit, st, ts) && Faults(syn, st, ts, said)
    requires text != "" && !IsBreak(text[0]) && text[0] == syn.releaseChar
    ensures Faults(syn, Run(syn, limit, st, text), ts + Tokens(syn, text), said + Remarks(syn, limit, st, text))
    decreases |text|, 0
  {
    hide Reads, PieceDropped, Envelope.HasErrors, IsMark;
    var one := Step(syn, limit, st, text[0]);
    if |text| == 1 {
      assert text == [text[0]];
      RunOne(syn, limit, st, text[0]);
      assert ts + Tokens(syn, text) == ts && said + [] == said;
    } else {
      ReleaseReads(syn, limit, st, ts, text);
      RunTwo(syn, limit, st, text);
      var remark := Remark(syn, limit, one, text[1]);
      RemarksTwo(syn, limit, st, text);
      var rest := Remarks(syn, limit, Step(syn, limit, one, text[1]), text[2..]);
      assert said + (remark + rest) == said + remark + rest;
      NoFault(remark);
      FaultyConcat(said, remark);
      if IsBreak(text[1]) {
        TextFaults(syn, limit, Step(syn, limit, one, text[1]), ts, said + remark, text[2..]);
      } else {
        StillDropped(syn, ts, Data(text[1]));
        TextFaults(syn, limit, Step(syn, limit, one, text[1]), ts + [Data(text[1])], said + remark, text[2..]);
        AddFirst(ts, Data(text[1]), Tokens(syn, text[2..]));
      }
    }
  }

  lemma RemarksTwo(syn: Syntax, limit: nat, st: State, text: string)
    requires |text| >= 2 && !st.released && !st.truncated && !IsBreak(text[0]) && text[0] == syn.releaseChar && Usable(syn)
    ensures var one := Step(syn, limit, st, text[0]);
            Remarks(syn, limit, st, text) == Remark(syn, limit, one, text[1]) + Remarks(syn, limit, Step(syn, limit, one, text[1]), text[2..])
  {
    assert text[1..][1..] == text[2..] && text[1..][0] == text[1];
    assert Remark(syn, limit, st, text[0]) == [];
  }

  /** A text is read without an Error if and only if each of its terminated pieces has a
      tag, there are fewer of them than the limit, and nothing but line breaks follows the
      last. */
  lemma ReadsWithoutError(raw: string, chosen: Option<Syntax>, limit: nat)
    requires limit > 0 && Usable(InitialSyntax(raw, chosen)) && ScanText(raw, chosen, limit).Scanned?
    ensures var syn, text := InitialSyntax(raw, chosen), AfterAdvice(raw);
            var pieces := Split(Tokens(syn, text), syn.segmentTerm);
            var sound := && (forall i | 0 <= i < |pieces| - 1 :: SegmentIn(syn, pieces[i]) != [])
                         && |SegmentsIn(syn, Init(pieces))| < limit && !LeftOpen(syn, text, false);
            !Envelope.HasErrors(ScanText(raw, chosen, limit).diags) <==> sound
  {
    hide Tokens, Split, SegmentIn, SegmentsIn, HoldsElements, LeftOpen, Envelope.HasErrors, Remarks;
    var syn, text := InitialSyntax(raw, chosen), AfterAdvice(raw);
    var ts, start := Tokens(syn, text), Idle([], false);
    var st, said := Run(syn, limit, start, text), Remarks(syn, limit, start, text);
    NothingRead(syn, limit);
    NothingDropped(syn);
    NoFault([]);
    TextReads(syn, limit, start, [], text);
    TextFaults(syn, limit, start, [], [], text);
    OpenAsStarted(syn, limit, start, text);
    assert [] + ts == ts && [] + said == said;
    NoFault(LeadingRemark(raw));
    FaultyConcat(LeadingRemark(raw), said);
    TailFaults(syn, st, LeadingRemark(raw) + said);
  }

  lemma NothingDropped(syn: Syntax)
    ensures !PieceDropped(syn, [])
  {
  }

  /** The remarks at the end of the text. */
  lemma TailFaults(syn: Syntax, st: State, said: seq<Diagnostic>)
    requires Finish(syn, st, said).Scanned? && (!st.truncated && st.released ==> st.started) && (st.truncated ==> Envelope.HasErrors(said))
    ensures Envelope.HasErrors(Finish(syn, st, said).diags) <==> Envelope.HasErrors(said) || (st.started && !st.truncated)
  {
    hide Envelope.HasErrors, ValidTag;
    NoFault([]);
    FaultyConcat(said, Released(st));
    if st.started && !st.truncated {
      FaultyConcat(said + Released(st), [Diagnostic(Error, "unterminated_segment")]);
      OneFault("unterminated_segment");
    }
  }

  lemma OneFault(code: string)
    ensures Envelope.HasErrors([Diagnostic(Error, code)])
  {
    assert [Diagnostic(Error, code)][0].severity == Error;
  }
}
