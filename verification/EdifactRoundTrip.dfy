/** Reading back what the printer wrote, for every usable set of service
    characters: the segments return with only their empty tails gone. */
module EdifactRoundTrip {
  import opened Wrappers
  import opened Sequences
  import opened EdifactSyntax
  import opened EdifactScan
  import opened EdifactEncode

  // ---------------------------------------------------------------- line breaks in values

  function Kept(b: char): string {
    if IsBreak(b) then "" else [b]
  }

  /** A value as it can survive framing: line breaks are never data. */
  function Strip(v: string): string
    decreases |v|
  {
    if v == "" then "" else Kept(v[0]) + Strip(v[1..])
  }

  predicate NoBreaks(v: string) {
    forall b | b in v :: !IsBreak(b)
  }

  lemma {:induction false} StripIsIdentity(v: string)
    ensures Strip(v) == v <==> NoBreaks(v)
    ensures |Strip(v)| <= |v|
    decreases |v|
  {
    if v != "" {
      StripIsIdentity(v[1..]);
      assert v == [v[0]] + v[1..];
      if IsBreak(v[0]) {
        assert v[0] in v && |Strip(v)| < |v|;
      }
    }
  }

  function StripComposite(c: Composite): (r: Composite)
    ensures |r| == |c| && forall i | 0 <= i < |r| :: r[i] == Strip(c[i])
  {
    seq(|c|, i requires 0 <= i < |c| => Strip(c[i]))
  }

  function StripElement(e: Element): (r: Element)
    ensures |r| == |e| && forall i | 0 <= i < |r| :: r[i] == StripComposite(e[i])
  {
    seq(|e|, i requires 0 <= i < |e| => StripComposite(e[i]))
  }

  function StripElements(es: seq<Element>): (r: seq<Element>)
    ensures |r| == |es| && forall i | 0 <= i < |r| :: r[i] == StripElement(es[i])
  {
    seq(|es|, i requires 0 <= i < |es| => StripElement(es[i]))
  }

  function StripSegments(segs: seq<Segment>): (r: seq<Segment>)
    ensures |r| == |segs|
    ensures forall i | 0 <= i < |r| :: r[i] == Segment(segs[i].tag, StripElements(segs[i].elements))
  {
    seq(|segs|, i requires 0 <= i < |segs| => Segment(segs[i].tag, StripElements(segs[i].elements)))
  }

  predicate CleanComposite(c: Composite) {
    forall i | 0 <= i < |c| :: NoBreaks(c[i])
  }

  predicate CleanElement(e: Element) {
    forall i | 0 <= i < |e| :: CleanComposite(e[i])
  }

  predicate CleanElements(es: seq<Element>) {
    forall i | 0 <= i < |es| :: CleanElement(es[i])
  }

  predicate CleanSegments(segs: seq<Segment>) {
    forall i | 0 <= i < |segs| :: CleanElements(segs[i].elements)
  }

  predicate ValidTags(segs: seq<Segment>) {
    forall i | 0 <= i < |segs| :: ValidTag(segs[i].tag)
  }

  // ---------------------------------------------------------------- the automaton on wire text

  /** A reader of text written for `wr`: the same characters, possibly another
      version, and repetition either as written or not known to the reader. */
  predicate CanRead(rd: Syntax, wr: Syntax) {
    && Usable(rd) && Usable(wr)
    && rd == wr.(version := rd.version, repetitionEnabled := rd.repetitionEnabled)
    && (rd.repetitionEnabled ==> wr.repetitionEnabled)
  }

  /** Reader and writer agree on repetition. */
  predicate Agree(rd: Syntax, wr: Syntax) {
    rd.repetitionEnabled == wr.repetitionEnabled
  }

  /** Inside a segment, nothing pending from a release character. */
  predicate InSegment(st: State) {
    st.started && !st.released && !st.truncated
  }

  /** Nothing worse than a warning. */
  predicate Calm(ds: seq<Diagnostic>) {
    forall d | d in ds :: d.severity != Error
  }

  /** Two texts read one after the other. */
  lemma RunThen(rd: Syntax, limit: nat, st: State, a: string, mid: State, b: string, end: State)
    requires Run(rd, limit, st, a) == mid && Run(rd, limit, mid, b) == end
    ensures Run(rd, limit, st, a + b) == end
    ensures Remarks(rd, limit, st, a) == [] && Remarks(rd, limit, mid, b) == [] ==> Remarks(rd, limit, st, a + b) == []
    ensures Calm(Remarks(rd, limit, st, a)) && Calm(Remarks(rd, limit, mid, b)) ==> Calm(Remarks(rd, limit, st, a + b))
  {
    RunConcat(rd, limit, st, a, b);
  }

  /** The separators, met inside a segment. */
  lemma RunSeparators(rd: Syntax, wr: Syntax, limit: nat, st: State)
    requires CanRead(rd, wr) && InSegment(st)
    ensures Run(rd, limit, st, [wr.componentSep]) == FlushComponent(st)
    ensures Run(rd, limit, st, [wr.elementSep]) == FlushElement(st)
    ensures Run(rd, limit, st, [wr.segmentTerm]) == CloseSegment(st, limit)
    ensures Remarks(rd, limit, st, [wr.componentSep]) == [] == Remarks(rd, limit, st, [wr.elementSep])
    ensures Remarks(rd, limit, st, [wr.segmentTerm]) == Remark(rd, limit, st, wr.segmentTerm)
  {
    RunOne(rd, limit, st, wr.componentSep);
    RunOne(rd, limit, st, wr.elementSep);
    RunOne(rd, limit, st, wr.segmentTerm);
  }

  /** The repetition separator: framing to a reader that knows it, data to one that does not. */
  lemma RunRepetition(rd: Syntax, wr: Syntax, limit: nat, st: State)
    requires CanRead(rd, wr) && InSegment(st) && wr.repetitionEnabled
    ensures Run(rd, limit, st, [wr.repetitionSep])
         == if rd.repetitionEnabled then FlushRepetition(st) else st.(buf := st.buf + [wr.repetitionSep])
    ensures Remarks(rd, limit, st, [wr.repetitionSep]) == []
  {
    RunOne(rd, limit, st, wr.repetitionSep);
  }

  function EscapedChar(wr: Syntax, b: char): string {
    if IsService(wr, b) then [wr.releaseChar, b] else [b]
  }

  lemma RunEscapedChar(rd: Syntax, wr: Syntax, limit: nat, st: State, b: char)
    requires CanRead(rd, wr) && InSegment(st)
    ensures Run(rd, limit, st, EscapedChar(wr, b)) == st.(buf := st.buf + Kept(b))
    ensures !IsBreak(b) && Agree(rd, wr) ==> Remarks(rd, limit, st, EscapedChar(wr, b)) == []
    ensures Calm(Remarks(rd, limit, st, EscapedChar(wr, b)))
  {
    if IsService(wr, b) {
      assert [wr.releaseChar, b] == [wr.releaseChar] + [b];
      RunOne(rd, limit, st, wr.releaseChar);
      RunOne(rd, limit, st.(released := true), b);
      RunConcat(rd, limit, st, [wr.releaseChar], [b]);
    } else {
      RunOne(rd, limit, st, b);
      assert st.buf + "" == st.buf;
    }
  }

  /** One character of a value and then the rest of it. */
  lemma RunEscapedThen(rd: Syntax, wr: Syntax, limit: nat, st: State, b: char, rest: string, end: State)
    requires CanRead(rd, wr) && InSegment(st)
    requires Run(rd, limit, st.(buf := st.buf + Kept(b)), rest) == end
    ensures Run(rd, limit, st, EscapedChar(wr, b) + rest) == end
    ensures !IsBreak(b) && Agree(rd, wr) && Remarks(rd, limit, st.(buf := st.buf + Kept(b)), rest) == []
            ==> Remarks(rd, limit, st, EscapedChar(wr, b) + rest) == []
    ensures Calm(Remarks(rd, limit, st.(buf := st.buf + Kept(b)), rest)) ==> Calm(Remarks(rd, limit, st, EscapedChar(wr, b) + rest))
  {
    RunEscapedChar(rd, wr, limit, st, b);
    RunThen(rd, limit, st, EscapedChar(wr, b), st.(buf := st.buf + Kept(b)), rest, end);
  }

  /** A value reads back as itself, whatever service characters it holds. */
  lemma {:induction false} RunEscaped(rd: Syntax, wr: Syntax, limit: nat, st: State, v: string)
    requires CanRead(rd, wr) && InSegment(st)
    ensures Run(rd, limit, st, Escaped(wr, v)) == st.(buf := st.buf + Strip(v))
    ensures NoBreaks(v) && Agree(rd, wr) ==> Remarks(rd, limit, st, Escaped(wr, v)) == []
    ensures Calm(Remarks(rd, limit, st, Escaped(wr, v)))
    decreases |v|
  {
    if v == "" {
      assert st.buf + "" == st.buf;
    } else {
      var head, tail := EscapedChar(wr, v[0]), Escaped(wr, v[1..]);
      RunEscaped(rd, wr, limit, st.(buf := st.buf + Kept(v[0])), v[1..]);
      AddAssoc(st.buf, Kept(v[0]), Strip(v[1..]));
      RunEscapedThen(rd, wr, limit, st, v[0], tail, st.(buf := st.buf + Strip(v)));
      assert Escaped(wr, v) == head + tail;
      if NoBreaks(v) {
        NoBreaksTail(v);
      }
    }
  }

  lemma NoBreaksTail(v: string)
    requires v != "" && NoBreaks(v)
    ensures !IsBreak(v[0]) && NoBreaks(v[1..])
  {
  }

  /** Where the reader stands after an occurrence, its last component still in hand. */
  function AfterComposite(st: State, c: Composite): State
    requires c != []
  {
    var s := Prefixed(st.buf, StripComposite(c));
    st.(comps := st.comps + s[..|c| - 1], buf := s[|c| - 1])
  }

  lemma AfterCompositeTail(st: State, c: Composite)
    requires |c| > 1
    ensures AfterComposite(st.(comps := st.comps + [st.buf + Strip(c[0])], buf := ""), c[1..]) == AfterComposite(st, c)
  {
    var s := StripComposite(c)[0 := st.buf + Strip(c[0])];
    assert "" + Strip(c[1]) == Strip(c[1]);
    assert StripComposite(c[1..])[0 := Strip(c[1])] == s[1..];
    assert s[1..][..|c| - 2] == s[1..|c| - 1];
    assert st.comps + [s[0]] + s[1..|c| - 1] == st.comps + s[..|c| - 1];
  }

  lemma {:induction false} RunComposite(rd: Syntax, wr: Syntax, limit: nat, st: State, c: Composite)
    requires CanRead(rd, wr) && InSegment(st) && c != []
    ensures Run(rd, limit, st, WireComposite(wr, c)) == AfterComposite(st, c)
    ensures CleanComposite(c) && Agree(rd, wr) ==> Remarks(rd, limit, st, WireComposite(wr, c)) == []
    ensures Calm(Remarks(rd, limit, st, WireComposite(wr, c)))
    decreases |c|
  {
    hide Run, Remarks, Escaped, Strip;
    RunEscaped(rd, wr, limit, st, c[0]);
    if |c| == 1 {
      assert st.comps + [] == st.comps;
    } else {
      var mid := st.(buf := st.buf + Strip(c[0]));
      var next := FlushComponent(mid);
      RunSeparators(rd, wr, limit, mid);
      RunThen(rd, limit, st, Escaped(wr, c[0]), mid, [wr.componentSep], next);
      RunComposite(rd, wr, limit, next, c[1..]);
      AfterCompositeTail(st, c);
      RunThen(rd, limit, st, Escaped(wr, c[0]) + [wr.componentSep], next, WireComposite(wr, c[1..]), AfterComposite(st, c));
    }
  }

  lemma FlushAfterComposite(st: State, c: Composite)
    requires c != [] && st.comps == [] && st.buf == ""
    ensures FlushRepetition(AfterComposite(st, c)) == st.(reps := st.reps + [StripComposite(c)])
    ensures FlushElement(AfterComposite(st, c))
         == st.(elems := st.elems + [st.reps + [StripComposite(c)]], reps := [])
  {
    var s := StripComposite(c);
    assert "" + s[0] == s[0] && s[0 := s[0]] == s;
    assert [] + s[..|c| - 1] + [s[|c| - 1]] == s;
  }

  // ---------------------------------------------------------------- elements

  /** Two occurrences run together: to a reader that does not know repetition,
      the repetition separator is data between two components. */
  function Splice(sep: char, c: Composite, d: Composite): Composite
    requires c != [] && d != []
  {
    c[..|c| - 1] + [c[|c| - 1] + [sep] + d[0]] + d[1..]
  }

  function Spliced(sep: char, e: Element): (c: Composite)
    requires e != [] && Filled(e)
    ensures c != []
  {
    if |e| == 1 then e[0] else Splice(sep, e[0], Spliced(sep, e[1..]))
  }

  /** An element as the reader sees it. */
  function Seen(rd: Syntax, wr: Syntax, e: Element): (r: Element)
    requires e != [] && Filled(e)
    ensures r != [] && Filled(r)
  {
    if Agree(rd, wr) then e else [Spliced(wr.repetitionSep, e)]
  }

  /** An element the syntax can carry: one occurrence, or repetition is on. */
  predicate Writable(syn: Syntax, e: Element) {
    e != [] && Filled(e) && (syn.repetitionEnabled || |e| == 1)
  }

  function AfterElement(st: State, e: Element): State
    requires e != [] && Filled(e)
  {
    AfterComposite(st.(reps := st.reps + StripElement(e)[..|e| - 1]), e[|e| - 1])
  }

  /** One occurrence and the separator behind it. */
  lemma RunOccurrence(rd: Syntax, wr: Syntax, limit: nat, st: State, c: Composite)
    requires CanRead(rd, wr) && rd.repetitionEnabled && InSegment(st) && st.buf == "" && st.comps == [] && c != []
    ensures var text := WireComposite(wr, c) + [wr.repetitionSep];
            && Run(rd, limit, st, text) == st.(reps := st.reps + [StripComposite(c)])
            && (CleanComposite(c) ==> Remarks(rd, limit, st, text) == [])
            && Calm(Remarks(rd, limit, st, text))
  {
    RunComposite(rd, wr, limit, st, c);
    RunRepetition(rd, wr, limit, AfterComposite(st, c));
    FlushAfterComposite(st, c);
    RunThen(rd, limit, st, WireComposite(wr, c), AfterComposite(st, c), [wr.repetitionSep], st.(reps := st.reps + [StripComposite(c)]));
  }

  /** The occurrence read first joins the ones read before. */
  lemma AfterElementTail(st: State, e: Element)
    requires |e| > 1 && Filled(e)
    ensures Filled(e[1..])
    ensures AfterElement(st.(reps := st.reps + [StripComposite(e[0])]), e[1..]) == AfterElement(st, e)
  {
    var s := StripElement(e);
    assert StripElement(e[1..]) == s[1..];
    assert s[1..][..|e| - 2] == s[1..|e| - 1];
    assert st.reps + [s[0]] + s[1..|e| - 1] == st.reps + s[..|e| - 1];
  }

  /** An element read by a reader that knows repetition, or has none to know. */
  lemma {:induction false} RunElement(rd: Syntax, wr: Syntax, limit: nat, st: State, e: Element)
    requires CanRead(rd, wr) && Agree(rd, wr) && InSegment(st) && st.buf == "" && st.comps == [] && Writable(wr, e)
    ensures Run(rd, limit, st, WireElement(wr, e)) == AfterElement(st, e)
    ensures CleanElement(e) ==> Remarks(rd, limit, st, WireElement(wr, e)) == []
    ensures Calm(Remarks(rd, limit, st, WireElement(wr, e)))
    decreases |e|
  {
    hide Run, Remarks, WireComposite, StripComposite;
    if |e| == 1 {
      RunComposite(rd, wr, limit, st, e[0]);
      assert StripElement(e)[..0] == [] && st.reps + [] == st.reps;
    } else {
      var text := WireComposite(wr, e[0]) + [wr.repetitionSep];
      RunOccurrence(rd, wr, limit, st, e[0]);
      RunConcat(rd, limit, st, text, WireElement(wr, e[1..]));
      RunElement(rd, wr, limit, st.(reps := st.reps + [StripComposite(e[0])]), e[1..]);
      AfterElementTail(st, e);
    }
  }

  /** The stripped splice is the splice of the stripped parts. */
  lemma StripOfSplice(sep: char, c: Composite, d: Composite)
    requires c != [] && d != [] && !IsBreak(sep)
    ensures StripComposite(Splice(sep, c, d)) == Splice(sep, StripComposite(c), StripComposite(d))
  {
    StripJoins(c[|c| - 1], sep, d[0]);
    var left := StripComposite(Splice(sep, c, d));
    var right := Splice(sep, StripComposite(c), StripComposite(d));
    assert |left| == |right| == |c| + |d| - 1;
    forall i | 0 <= i < |left| ensures left[i] == right[i] {
      if i < |c| - 1 {
        assert right[i] == StripComposite(c)[i];
      } else if i >= |c| {
        assert right[i] == StripComposite(d)[i - |c| + 1];
      }
    }
  }

  /** Text already in hand joins the first component. */
  function Prefixed(buf: string, c: Composite): Composite
    requires c != []
  {
    c[0 := buf + c[0]]
  }

  lemma PrefixedSplice(buf: string, sep: char, x: Composite, y: Composite)
    requires x != [] && y != []
    ensures Prefixed(buf, Splice(sep, x, y)) == Splice(sep, Prefixed(buf, x), y)
  {
    if |x| == 1 {
      assert buf + (x[0] + [sep] + y[0]) == buf + x[0] + [sep] + y[0];
    }
  }

  lemma SpliceStrips(sep: char, st: State, c: Composite, d: Composite)
    requires c != [] && d != [] && !IsBreak(sep)
    ensures var mid := AfterComposite(st, c);
            AfterComposite(mid.(buf := mid.buf + [sep]), d) == AfterComposite(st, Splice(sep, c, d))
  {
    StripOfSplice(sep, c, d);
    PrefixedSplice(st.buf, sep, StripComposite(c), StripComposite(d));
    SpliceSplit(st.comps, sep, Prefixed(st.buf, StripComposite(c)), StripComposite(d));
  }

  lemma SpliceSplit(before: Composite, sep: char, x: Composite, y: Composite)
    requires x != [] && y != []
    ensures var s := Splice(sep, x, y);
            var t := Prefixed(x[|x| - 1] + [sep], y);
            && before + x[..|x| - 1] + t[..|y| - 1] == before + s[..|s| - 1]
            && t[|y| - 1] == s[|s| - 1]
  {
    var s := Splice(sep, x, y);
    var t := Prefixed(x[|x| - 1] + [sep], y);
    assert s == x[..|x| - 1] + t;
  }

  lemma {:induction false} StripConcat(a: string, b: string)
    ensures Strip(a + b) == Strip(a) + Strip(b)
    decreases |a|
  {
    if a == "" {
      assert a + b == b;
    } else {
      assert (a + b)[1..] == a[1..] + b;
      StripConcat(a[1..], b);
    }
  }

  lemma StripJoins(a: string, sep: char, b: string)
    requires !IsBreak(sep)
    ensures Strip(a + [sep] + b) == Strip(a) + [sep] + Strip(b)
  {
    StripConcat(a + [sep], b);
    StripConcat(a, [sep]);
    assert [sep][1..] == "" && Strip([sep][1..]) == "";
    assert Strip([sep]) == [sep];
  }

  /** An element read without knowing repetition: one occurrence, spliced. */
  lemma {:induction false} RunSpliced(rd: Syntax, wr: Syntax, limit: nat, st: State, e: Element)
    requires CanRead(rd, wr) && !Agree(rd, wr) && InSegment(st) && Writable(wr, e)
    ensures Run(rd, limit, st, WireElement(wr, e)) == AfterComposite(st, Spliced(wr.repetitionSep, e))
    ensures Calm(Remarks(rd, limit, st, WireElement(wr, e)))
    decreases |e|
  {
    RunComposite(rd, wr, limit, st, e[0]);
    if |e| > 1 {
      var mid := AfterComposite(st, e[0]);
      var next := mid.(buf := mid.buf + [wr.repetitionSep]);
      RunRepetition(rd, wr, limit, mid);
      RunThen(rd, limit, st, WireComposite(wr, e[0]), mid, [wr.repetitionSep], next);
      RunSpliced(rd, wr, limit, next, e[1..]);
      SpliceStrips(wr.repetitionSep, st, e[0], Spliced(wr.repetitionSep, e[1..]));
      RunThen(rd, limit, st, WireComposite(wr, e[0]) + [wr.repetitionSep], next, WireElement(wr, e[1..]),
              AfterComposite(st, Spliced(wr.repetitionSep, e)));
    }
  }

  lemma FlushAfterElement(st: State, e: Element)
    requires e != [] && Filled(e) && st.comps == [] && st.reps == [] && st.buf == ""
    ensures FlushElement(AfterElement(st, e)) == st.(elems := st.elems + [StripElement(e)])
  {
    var s := StripElement(e);
    FlushAfterComposite(st.(reps := s[..|e| - 1]), e[|e| - 1]);
    assert [] + s[..|e| - 1] == s[..|e| - 1];
    assert s[..|e| - 1] + [s[|e| - 1]] == s;
  }

  /** Where the reader stands after an element, repetition known or not. */
  function AfterSeen(rd: Syntax, wr: Syntax, st: State, e: Element): State
    requires e != [] && Filled(e)
  {
    if Agree(rd, wr) then AfterElement(st, e) else AfterComposite(st, Spliced(wr.repetitionSep, e))
  }

  lemma FlushAfterSeen(rd: Syntax, wr: Syntax, st: State, e: Element)
    requires e != [] && Filled(e) && st.comps == [] && st.reps == [] && st.buf == ""
    ensures FlushElement(AfterSeen(rd, wr, st, e)) == st.(elems := st.elems + [StripElement(Seen(rd, wr, e))])
  {
    if Agree(rd, wr) {
      FlushAfterElement(st, e);
    } else {
      var c := Spliced(wr.repetitionSep, e);
      FlushAfterComposite(st, c);
      assert [] + [StripComposite(c)] == StripElement([c]);
    }
  }

  lemma RunSeen(rd: Syntax, wr: Syntax, limit: nat, st: State, e: Element)
    requires CanRead(rd, wr) && InSegment(st) && st.buf == "" && st.comps == [] && Writable(wr, e)
    ensures Run(rd, limit, st, WireElement(wr, e)) == AfterSeen(rd, wr, st, e)
    ensures CleanElement(e) && Agree(rd, wr) ==> Remarks(rd, limit, st, WireElement(wr, e)) == []
    ensures Calm(Remarks(rd, limit, st, WireElement(wr, e)))
  {
    if Agree(rd, wr) {
      RunElement(rd, wr, limit, st, e);
    } else {
      RunSpliced(rd, wr, limit, st, e);
    }
  }

  // ---------------------------------------------------------------- segments

  predicate AllWritable(wr: Syntax, es: seq<Element>) {
    forall i | 0 <= i < |es| :: Writable(wr, es[i])
  }

  function SeenElements(rd: Syntax, wr: Syntax, es: seq<Element>): (r: seq<Element>)
    requires AllWritable(wr, es)
    ensures |r| == |es| && forall i | 0 <= i < |r| :: r[i] == StripElement(Seen(rd, wr, es[i]))
  {
    seq(|es|, i requires 0 <= i < |es| => StripElement(Seen(rd, wr, es[i])))
  }

  /** One element behind its separator. */
  lemma RunSeparated(rd: Syntax, wr: Syntax, limit: nat, st: State, e: Element)
    requires CanRead(rd, wr) && InSegment(st) && Writable(wr, e)
    ensures var text := [wr.elementSep] + WireElement(wr, e);
            var after := Run(rd, limit, st, text);
            && InSegment(after) && after.segments == st.segments
            && FlushElement(after).elems == FlushElement(st).elems + [StripElement(Seen(rd, wr, e))]
            && (CleanElement(e) && Agree(rd, wr) ==> Remarks(rd, limit, st, text) == [])
            && Calm(Remarks(rd, limit, st, text))
  {
    var mid := FlushElement(st);
    RunSeparators(rd, wr, limit, st);
    RunSeen(rd, wr, limit, mid, e);
    FlushAfterSeen(rd, wr, mid, e);
    RunThen(rd, limit, st, [wr.elementSep], mid, WireElement(wr, e), Run(rd, limit, mid, WireElement(wr, e)));
  }

  /** Where the reader is once the elements and the terminator are read. */
  function AfterTail(limit: nat, st: State, elems: seq<Element>): State {
    var segments := WithSegment(st.segments, elems);
    Idle(segments, |segments| >= limit)
  }

  /** From a pending element through the remaining ones to the terminator. */
  lemma {:induction false} RunTail(rd: Syntax, wr: Syntax, limit: nat, st: State, es: seq<Element>)
    requires CanRead(rd, wr) && InSegment(st) && AllWritable(wr, es)
    ensures Run(rd, limit, st, WireTail(wr, es)) == AfterTail(limit, st, FlushElement(st).elems + SeenElements(rd, wr, es))
    ensures |st.segments| + 1 < limit && ValidTag(TagOf(FlushElement(st).elems + SeenElements(rd, wr, es)))
            ==> && Calm(Remarks(rd, limit, st, WireTail(wr, es)))
                && (CleanElements(es) && Agree(rd, wr) ==> Remarks(rd, limit, st, WireTail(wr, es)) == [])
    decreases |es|
  {
    var flushed := FlushElement(st).elems;
    RunSeparators(rd, wr, limit, st);
    if es == [] {
      assert flushed + SeenElements(rd, wr, es) == flushed;
    } else {
      var text := [wr.elementSep] + WireElement(wr, es[0]);
      RunSeparated(rd, wr, limit, st, es[0]);
      var next := Run(rd, limit, st, text);
      RunTail(rd, wr, limit, next, es[1..]);
      SeenFirst(rd, wr, flushed, es);
      RunThen(rd, limit, st, text, next, WireTail(wr, es[1..]), Run(rd, limit, next, WireTail(wr, es[1..])));
    }
  }

  lemma SeenFirst(rd: Syntax, wr: Syntax, before: seq<Element>, es: seq<Element>)
    requires es != [] && AllWritable(wr, es)
    ensures AllWritable(wr, es[1..])
    ensures before + [StripElement(Seen(rd, wr, es[0]))] + SeenElements(rd, wr, es[1..]) == before + SeenElements(rd, wr, es)
  {
    PrependSame(before, StripElement(Seen(rd, wr, es[0])), SeenElements(rd, wr, es[1..]), SeenElements(rd, wr, es));
  }

  lemma PrependSame<T>(before: seq<T>, first: T, rest: seq<T>, all: seq<T>)
    requires |all| == 1 + |rest| && all[0] == first
    requires forall i | 0 <= i < |rest| :: rest[i] == all[i + 1]
    ensures before + [first] + rest == before + all
  {
    assert [first] + rest == all;
  }

  lemma RunTag(rd: Syntax, wr: Syntax, limit: nat, segments: seq<Segment>, tag: string)
    requires CanRead(rd, wr) && ValidTag(tag)
    ensures Escaped(wr, tag) == tag
    ensures Run(rd, limit, Idle(segments, false), tag) == Idle(segments, false).(buf := tag, started := true)
    ensures Remarks(rd, limit, Idle(segments, false), tag) == []
  {
    forall b | b in tag ensures !IsService(wr, b) && !IsService(rd, b) && !IsBreak(b) {
    }
    EscapedPlain(wr, tag);
    var idle := Idle(segments, false);
    var s1 := idle.(buf := [tag[0]], started := true);
    assert Step(rd, limit, idle, tag[0]) == s1 by {
      assert "" + [tag[0]] == [tag[0]];
    }
    RunEscaped(rd, rd, limit, s1, tag[1..]);
    EscapedPlain(rd, tag[1..]);
    StripIsIdentity(tag[1..]);
    assert [tag[0]] + tag[1..] == tag;
  }

  lemma NormWritable(wr: Syntax, es: seq<Element>)
    ensures AllWritable(wr, NormElements(wr, es))
  {
    var norm := NormElements(wr, es);
    forall i | 0 <= i < |norm| ensures Writable(wr, norm[i]) {
      NormElementParts(wr, es[i]);
    }
  }

  /** What a written segment reads back as. */
  function ReadBack(rd: Syntax, wr: Syntax, s: Segment): Segment {
    NormWritable(wr, s.elements);
    Segment(s.tag, SeenElements(rd, wr, NormElements(wr, s.elements)))
  }

  /** From the tag in hand to the terminator. */
  lemma RunAfterTag(rd: Syntax, wr: Syntax, limit: nat, segments: seq<Segment>, s: Segment)
    requires CanRead(rd, wr) && ValidTag(s.tag)
    ensures var st := Idle(segments, false).(buf := s.tag, started := true);
            var text := WireTail(wr, NormElements(wr, s.elements));
            var out := segments + [ReadBack(rd, wr, s)];
            && Run(rd, limit, st, text) == Idle(out, |out| >= limit)
            && (|segments| + 1 < limit ==> Calm(Remarks(rd, limit, st, text)))
            && (CleanElements(NormElements(wr, s.elements)) && Agree(rd, wr) && |segments| + 1 < limit
                ==> Remarks(rd, limit, st, text) == [])
  {
    var es := NormElements(wr, s.elements);
    NormWritable(wr, s.elements);
    var st := Idle(segments, false).(buf := s.tag, started := true);
    RunTail(rd, wr, limit, st, es);
    var all := FlushElement(st).elems + SeenElements(rd, wr, es);
    assert [] + [s.tag] == [s.tag] && [] + [[s.tag]] == [[s.tag]];
    assert FlushElement(st).elems == [[[s.tag]]];
    assert all[0] == [[s.tag]] && all[1..] == SeenElements(rd, wr, es);
  }

  /** A written segment, alone, reads back truncated and stripped. */
  lemma RunSegment(rd: Syntax, wr: Syntax, limit: nat, segments: seq<Segment>, s: Segment, lineEnd: string)
    requires CanRead(rd, wr) && ValidTag(s.tag) && AllBreaks(lineEnd)
    ensures var text := WireSegment(wr, s) + lineEnd;
            var out := segments + [ReadBack(rd, wr, s)];
            && Run(rd, limit, Idle(segments, false), text) == Idle(out, |out| >= limit)
            && (|segments| + 1 < limit ==> Calm(Remarks(rd, limit, Idle(segments, false), text)))
            && (CleanElements(NormElements(wr, s.elements)) && Agree(rd, wr) && |segments| + 1 < limit
                ==> Remarks(rd, limit, Idle(segments, false), text) == [])
  {
    var idle := Idle(segments, false);
    var tail := WireTail(wr, NormElements(wr, s.elements));
    RunTag(rd, wr, limit, segments, s.tag);
    RunAfterTag(rd, wr, limit, segments, s);
    RunConcat(rd, limit, idle, s.tag, tail);
    RunConcat(rd, limit, idle, s.tag + tail, lineEnd);
    var out := segments + [ReadBack(rd, wr, s)];
    RunBreaks(rd, limit, Idle(out, |out| >= limit), lineEnd);
  }

  function ReadBackAll(rd: Syntax, wr: Syntax, segs: seq<Segment>): (r: seq<Segment>)
    ensures |r| == |segs| && forall i | 0 <= i < |r| :: r[i] == ReadBack(rd, wr, segs[i])
  {
    seq(|segs|, i requires 0 <= i < |segs| => ReadBack(rd, wr, segs[i]))
  }

  /** No value that gets written holds a line break. */
  predicate WritesClean(wr: Syntax, segs: seq<Segment>) {
    forall i | 0 <= i < |segs| :: CleanElements(NormElements(wr, segs[i].elements))
  }

  lemma ReadBackFirst(rd: Syntax, wr: Syntax, before: seq<Segment>, segs: seq<Segment>)
    requires segs != []
    ensures before + [ReadBack(rd, wr, segs[0])] + ReadBackAll(rd, wr, segs[1..]) == before + ReadBackAll(rd, wr, segs)
  {
    PrependSame(before, ReadBack(rd, wr, segs[0]), ReadBackAll(rd, wr, segs[1..]), ReadBackAll(rd, wr, segs));
  }

  /** One segment and then the rest of the text. */
  lemma RunSegmentThen(rd: Syntax, wr: Syntax, limit: nat, before: seq<Segment>, s: Segment, lineEnd: string, rest: string)
    requires CanRead(rd, wr) && ValidTag(s.tag) && AllBreaks(lineEnd)
    ensures var one := before + [ReadBack(rd, wr, s)];
            var next := Idle(one, |one| >= limit);
            var text := WireSegment(wr, s) + lineEnd;
            && Run(rd, limit, Idle(before, false), text + rest) == Run(rd, limit, next, rest)
            && (CleanElements(NormElements(wr, s.elements)) && Agree(rd, wr) && |before| + 1 < limit
                && Remarks(rd, limit, next, rest) == []
                ==> Remarks(rd, limit, Idle(before, false), text + rest) == [])
            && (|before| + 1 < limit && Calm(Remarks(rd, limit, next, rest))
                ==> Calm(Remarks(rd, limit, Idle(before, false), text + rest)))
  {
    var one := before + [ReadBack(rd, wr, s)];
    var next := Idle(one, |one| >= limit);
    RunSegment(rd, wr, limit, before, s, lineEnd);
    RunThen(rd, limit, Idle(before, false), WireSegment(wr, s) + lineEnd, next, rest, Run(rd, limit, next, rest));
  }

  /** The whole list: what is read back, provided the cap is not exceeded. */
  lemma {:induction false} RunSegments(rd: Syntax, wr: Syntax, limit: nat, before: seq<Segment>, segs: seq<Segment>, lineEnd: string)
    requires CanRead(rd, wr) && ValidTags(segs) && AllBreaks(lineEnd)
    requires |before| + |segs| <= limit
    ensures var out := before + ReadBackAll(rd, wr, segs);
            Run(rd, limit, Idle(before, |before| >= limit), WireSegments(wr, segs, lineEnd)) == Idle(out, |out| >= limit)
    ensures WritesClean(wr, segs) && Agree(rd, wr) && |before| + |segs| < limit
            ==> Remarks(rd, limit, Idle(before, |before| >= limit), WireSegments(wr, segs, lineEnd)) == []
    ensures |before| + |segs| < limit ==> Calm(Remarks(rd, limit, Idle(before, |before| >= limit), WireSegments(wr, segs, lineEnd)))
    decreases |segs|
  {
    if segs == [] {
      assert before + ReadBackAll(rd, wr, segs) == before;
    } else {
      var rest := WireSegments(wr, segs[1..], lineEnd);
      assert WireSegments(wr, segs, lineEnd) == WireSegment(wr, segs[0]) + lineEnd + rest;
      assert WritesClean(wr, segs) ==> CleanElements(NormElements(wr, segs[0].elements)) && WritesClean(wr, segs[1..]);
      RunSegmentThen(rd, wr, limit, before, segs[0], lineEnd, rest);
      RunSegments(rd, wr, limit, before + [ReadBack(rd, wr, segs[0])], segs[1..], lineEnd);
      ReadBackFirst(rd, wr, before, segs);
    }
  }

  // ---------------------------------------------------------------- the law

  lemma WireStarts(wr: Syntax, segs: seq<Segment>, lineEnd: string)
    requires Usable(wr) && ValidTags(segs) && segs != []
    ensures var text := WireSegments(wr, segs, lineEnd);
            && |text| >= 3 && text[..3] == segs[0].tag
            && SkipBlanks(text) == text && SkipBreaks(text) == text && !HasAdvice(text)
  {
    var tag := segs[0].tag;
    RunTag(wr, wr, 1, [], tag);
    var tail, rest := WireTail(wr, NormElements(wr, segs[0].elements)), WireSegments(wr, segs[1..], lineEnd);
    Regroup(tag, tail, lineEnd, rest);
    TagStarts(tag, tail + lineEnd + rest);
  }

  lemma Regroup(a: string, b: string, c: string, d: string)
    ensures a + b + c + d == a + (b + c + d)
  {
  }

  lemma TagStarts(tag: string, rest: string)
    requires ValidTag(tag)
    ensures var text := tag + rest;
            && |text| >= 3 && text[..3] == tag
            && SkipBlanks(text) == text && SkipBreaks(text) == text && !HasAdvice(text)
  {
    assert (tag + rest)[..3] == tag && (tag + rest)[0] == tag[0];
  }

  /** A reader that agrees with the writer sees the normal form, stripped. */
  lemma ReadBackAgrees(rd: Syntax, wr: Syntax, segs: seq<Segment>)
    requires Agree(rd, wr)
    ensures ReadBackAll(rd, wr, segs) == StripSegments(NormSegments(wr, segs))
  {
    var norm := NormSegments(wr, segs);
    forall i | 0 <= i < |segs| ensures ReadBack(rd, wr, segs[i]) == StripSegments(norm)[i] {
      var es := NormElements(wr, segs[i].elements);
      NormWritable(wr, segs[i].elements);
      assert SeenElements(rd, wr, es) == StripElements(es);
    }
  }

  lemma ReadWire(rd: Syntax, wr: Syntax, limit: nat, segs: seq<Segment>, lineEnd: string)
    requires CanRead(rd, wr) && ValidTags(segs) && AllBreaks(lineEnd) && segs != [] && |segs| <= limit
    ensures var r := ReadBody(rd, limit, [], WireSegments(wr, segs, lineEnd));
            && r.Scanned? && r.syntax == rd && r.segments == ReadBackAll(rd, wr, segs)
            && (|segs| < limit ==> Calm(r.diags))
            && (WritesClean(wr, segs) && Agree(rd, wr) && |segs| < limit ==> r.diags == [])
  {
    hide ReadBody, Run, Remarks, WireSegments, CanRead, Agree, WritesClean, AllBreaks, Calm, ReadBack;
    var back := ReadBackAll(rd, wr, segs);
    RunSegments(rd, wr, limit, [], segs, lineEnd);
    assert [] + back == back;
    ReadBodyIdle(rd, limit, WireSegments(wr, segs, lineEnd), back, |back| >= limit);
  }

  /** A body that ends between segments is scanned as the segments it holds. */
  lemma ReadBodyIdle(rd: Syntax, limit: nat, body: string, segs: seq<Segment>, truncated: bool)
    requires Run(rd, limit, Idle([], false), body) == Idle(segs, truncated) && segs != []
    ensures ReadBody(rd, limit, [], body) == Scanned(segs, rd, Remarks(rd, limit, Idle([], false), body))
  {
    var said := Remarks(rd, limit, Idle([], false), body);
    assert [] + said + [] == said;
  }

  /** Any input whose body is wire text, read by any reader that can. */
  lemma ScanFrom(rd: Syntax, wr: Syntax, limit: nat, segs: seq<Segment>, raw: string, chosen: Option<Syntax>, lineEnd: string)
    requires CanRead(rd, wr) && ValidTags(segs) && AllBreaks(lineEnd) && segs != [] && |segs| <= limit
    requires AfterAdvice(raw) == WireSegments(wr, segs, lineEnd) && InitialSyntax(raw, chosen) == rd && LeadingRemark(raw) == []
    ensures var r := ScanText(raw, chosen, limit);
            && r.Scanned? && r.syntax == rd && r.segments == ReadBackAll(rd, wr, segs)
            && (|segs| < limit ==> Calm(r.diags))
            && (WritesClean(wr, segs) && Agree(rd, wr) && |segs| < limit ==> r.diags == [])
  {
    ReadWire(rd, wr, limit, segs, lineEnd);
  }

  /** The round trip, for every usable syntax, every list of segments with usable
      tags and any line ending: what Scan returns is the list with its empty tails
      truncated and the line breaks inside values gone. */
  lemma ScanOfWire(syn: Syntax, limit: nat, segs: seq<Segment>, lineEnd: string)
    requires Usable(syn) && ValidTags(segs) && AllBreaks(lineEnd)
    requires segs != [] && |segs| <= limit
    ensures var r := ScanText(WireSegments(syn, segs, lineEnd), Some(syn), limit);
            && r.Scanned? && r.syntax == syn
            && r.segments == StripSegments(NormSegments(syn, segs))
            && (WritesClean(syn, segs) && |segs| < limit ==> r.diags == [])
  {
    WireStarts(syn, segs, lineEnd);
    ScanFrom(syn, syn, limit, segs, WireSegments(syn, segs, lineEnd), Some(syn), lineEnd);
    ReadBackAgrees(syn, syn, segs);
  }

  lemma CleanStrips(segs: seq<Segment>)
    ensures CleanSegments(segs) <==> StripSegments(segs) == segs
  {
    if CleanSegments(segs) {
      forall i | 0 <= i < |segs| ensures StripSegments(segs)[i] == segs[i] {
        CleanElementsStrip(segs[i].elements);
      }
    } else {
      var i :| 0 <= i < |segs| && !CleanElements(segs[i].elements);
      CleanElementsStrip(segs[i].elements);
      assert StripSegments(segs)[i] != segs[i];
    }
  }

  lemma CleanElementsStrip(es: seq<Element>)
    ensures CleanElements(es) <==> StripElements(es) == es
  {
    forall i, r, k | 0 <= i < |es| && 0 <= r < |es[i]| && 0 <= k < |es[i][r]|
      ensures Strip(es[i][r][k]) == es[i][r][k] <==> NoBreaks(es[i][r][k])
    {
      StripIsIdentity(es[i][r][k]);
    }
    if CleanElements(es) {
      forall i | 0 <= i < |es| ensures StripElement(es[i]) == es[i] {
        forall r | 0 <= r < |es[i]| ensures StripComposite(es[i][r]) == es[i][r] {
          assert CleanComposite(es[i][r]);
        }
      }
    } else {
      var i :| 0 <= i < |es| && !CleanElement(es[i]);
      var r :| 0 <= r < |es[i]| && !CleanComposite(es[i][r]);
      var k :| 0 <= k < |es[i][r]| && !NoBreaks(es[i][r][k]);
      assert StripElements(es)[i][r][k] != es[i][r][k];
    }
  }

  /** Exactly the values without line breaks survive: the segments come back with
      only their empty tails truncated if and only if none of the values written
      holds a CR or an LF. */
  lemma RoundTripExactly(syn: Syntax, limit: nat, segs: seq<Segment>, lineEnd: string)
    requires Usable(syn) && ValidTags(segs) && AllBreaks(lineEnd)
    requires segs != [] && |segs| <= limit
    ensures ScanText(WireSegments(syn, segs, lineEnd), Some(syn), limit).Scanned?
    ensures ScanText(WireSegments(syn, segs, lineEnd), Some(syn), limit).segments == NormSegments(syn, segs)
       <==> CleanSegments(NormSegments(syn, segs))
  {
    ScanOfWire(syn, limit, segs, lineEnd);
    var norm := NormSegments(syn, segs);
    CleanStrips(norm);
  }
}
