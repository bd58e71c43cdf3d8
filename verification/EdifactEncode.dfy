/** The printer: escaping, truncation of empty tails (section 7 of ISO 9735:1988)
    and the wire form of a segment. */
module EdifactEncode {
  import opened Sequences
  import opened EdifactSyntax

  // ---------------------------------------------------------------- escaping

  /** Every service character is preceded by the release character. */
  function Escaped(syn: Syntax, s: string): string
    decreases |s|
  {
    if s == "" then ""
    else (if IsService(syn, s[0]) then [syn.releaseChar, s[0]] else [s[0]]) + Escaped(syn, s[1..])
  }

  lemma {:induction false} EscapedConcat(syn: Syntax, a: string, b: string)
    ensures Escaped(syn, a + b) == Escaped(syn, a) + Escaped(syn, b)
    decreases |a|
  {
    if a == "" {
      assert a + b == b;
    } else {
      assert (a + b)[1..] == a[1..] + b;
      EscapedConcat(syn, a[1..], b);
    }
  }

  lemma EscapedOne(syn: Syntax, b: char)
    ensures Escaped(syn, [b]) == if IsService(syn, b) then [syn.releaseChar, b] else [b]
  {
    assert [b][1..] == "";
    assert Escaped(syn, [b][1..]) == "";
  }

  lemma {:induction false} EscapedPlain(syn: Syntax, s: string)
    requires forall b | b in s :: !IsService(syn, b)
    ensures Escaped(syn, s) == s
    decreases |s|
  {
    if s != "" {
      EscapedPlain(syn, s[1..]);
    }
  }

  lemma EscapedEmpty(syn: Syntax, s: string)
    ensures Escaped(syn, s) == "" <==> s == ""
  {
  }

  /** Prefixes every service character with the release character. */
  method Escape(s: string, syn: Syntax) returns (out: string)
    ensures out == Escaped(syn, s)
  {
    var needs := false;
    for i := 0 to |s|
      invariant !needs
      invariant forall k | 0 <= k < i :: !IsService(syn, s[k])
    {
      if IsService(syn, s[i]) {
        needs := true;
        break;
      }
    }
    if !needs {
      EscapedPlain(syn, s);
      return s;
    }
    out := "";
    for i := 0 to |s|
      invariant out == Escaped(syn, s[..i])
    {
      assert s[..i + 1] == s[..i] + [s[i]];
      EscapedConcat(syn, s[..i], [s[i]]);
      EscapedOne(syn, s[i]);
      if IsService(syn, s[i]) {
        out := out + [syn.releaseChar];
      }
      out := out + [s[i]];
    }
    assert s[..|s|] == s;
  }

  // ---------------------------------------------------------------- normal form

  /** xs without its trailing blanks. */
  function DropTail<T(==)>(xs: seq<T>, blank: T): (r: seq<T>)
    ensures r <= xs
    ensures r == [] || r[|r| - 1] != blank
    ensures forall i | |r| <= i < |xs| :: xs[i] == blank
  {
    if xs != [] && xs[|xs| - 1] == blank then DropTail(xs[..|xs| - 1], blank) else xs
  }

  /** An occurrence keeps at least one component: nothing written reads back as "". */
  function NormComposite(c: Composite): (r: Composite)
    ensures r != []
  {
    var kept := DropTail(c, "");
    if kept == [] then [""] else kept
  }

  function NormComposites(cs: seq<Composite>): (r: seq<Composite>)
    ensures |r| == |cs| && forall i | 0 <= i < |r| :: r[i] == NormComposite(cs[i])
  {
    seq(|cs|, i requires 0 <= i < |cs| => NormComposite(cs[i]))
  }

  function Flatten<T>(xss: seq<seq<T>>): seq<T> {
    if xss == [] then [] else xss[0] + Flatten(xss[1..])
  }

  /** Occurrences without the empty tail. Below syntax version 4 repetitions
      cannot be written; their components are run together instead. */
  function NormElement(syn: Syntax, e: Element): (r: Element)
    ensures r != []
  {
    var kept := DropTail(NormComposites(e), [""]);
    if kept == [] then [[""]] else if syn.repetitionEnabled then kept else [Flatten(kept)]
  }

  function NormEach(syn: Syntax, es: seq<Element>): (r: seq<Element>)
    ensures |r| == |es| && forall i | 0 <= i < |r| :: r[i] == NormElement(syn, es[i])
  {
    seq(|es|, i requires 0 <= i < |es| => NormElement(syn, es[i]))
  }

  function NormElements(syn: Syntax, es: seq<Element>): seq<Element> {
    DropTail(NormEach(syn, es), [[""]])
  }

  /** The segment with its empty tails truncated. */
  function NormSegment(syn: Syntax, s: Segment): Segment {
    Segment(s.tag, NormElements(syn, s.elements))
  }

  function NormSegments(syn: Syntax, segs: seq<Segment>): (r: seq<Segment>)
    ensures |r| == |segs| && forall i | 0 <= i < |r| :: r[i] == NormSegment(syn, segs[i])
  {
    seq(|segs|, i requires 0 <= i < |segs| => NormSegment(syn, segs[i]))
  }

  // ---------------------------------------------------------------- wire form

  /** strings.Join with a one-character separator. */
  function Join(parts: seq<string>, sep: char): string {
    if parts == [] then ""
    else if |parts| == 1 then parts[0]
    else parts[0] + [sep] + Join(parts[1..], sep)
  }

  function WireComposite(syn: Syntax, c: Composite): string {
    if c == [] then ""
    else if |c| == 1 then Escaped(syn, c[0])
    else Escaped(syn, c[0]) + [syn.componentSep] + WireComposite(syn, c[1..])
  }

  function WireElement(syn: Syntax, e: Element): string {
    if e == [] then ""
    else if |e| == 1 then WireComposite(syn, e[0])
    else WireComposite(syn, e[0]) + [syn.repetitionSep] + WireElement(syn, e[1..])
  }

  /** Each element behind its separator, then the terminator. */
  function WireTail(syn: Syntax, es: seq<Element>): string {
    if es == [] then [syn.segmentTerm]
    else [syn.elementSep] + WireElement(syn, es[0]) + WireTail(syn, es[1..])
  }

  /** What EncodeTo writes for a segment. */
  function WireSegment(syn: Syntax, s: Segment): string {
    Escaped(syn, s.tag) + WireTail(syn, NormElements(syn, s.elements))
  }

  function WireSegments(syn: Syntax, segs: seq<Segment>, lineEnd: string): string {
    if segs == [] then "" else WireSegment(syn, segs[0]) + lineEnd + WireSegments(syn, segs[1..], lineEnd)
  }

  // ---------------------------------------------------------------- printing an element

  function EscapedAll(syn: Syntax, c: Composite): (r: seq<string>)
    ensures |r| == |c| && forall i | 0 <= i < |r| :: r[i] == Escaped(syn, c[i])
  {
    seq(|c|, i requires 0 <= i < |c| => Escaped(syn, c[i]))
  }

  lemma {:induction false} JoinEscaped(syn: Syntax, c: Composite)
    ensures Join(EscapedAll(syn, c), syn.componentSep) == WireComposite(syn, c)
    decreases |c|
  {
    if |c| > 1 {
      assert EscapedAll(syn, c)[1..] == EscapedAll(syn, c[1..]);
      JoinEscaped(syn, c[1..]);
    }
  }

  function WireAll(syn: Syntax, cs: seq<Composite>): (r: seq<string>)
    ensures |r| == |cs| && forall i | 0 <= i < |r| :: r[i] == WireComposite(syn, cs[i])
  {
    seq(|cs|, i requires 0 <= i < |cs| => WireComposite(syn, cs[i]))
  }

  lemma {:induction false} JoinWires(syn: Syntax, e: Element)
    ensures Join(WireAll(syn, e), syn.repetitionSep) == WireElement(syn, e)
    decreases |e|
  {
    if |e| > 1 {
      assert WireAll(syn, e)[1..] == WireAll(syn, e[1..]);
      JoinWires(syn, e[1..]);
    }
  }

  lemma {:induction false} WireCompositeConcat(syn: Syntax, a: Composite, b: Composite)
    requires a != [] && b != []
    ensures WireComposite(syn, a + b) == WireComposite(syn, a) + [syn.componentSep] + WireComposite(syn, b)
    decreases |a|
  {
    assert (a + b)[1..] == a[1..] + b;
    if |a| == 1 {
      assert a[1..] + b == b;
    } else {
      WireCompositeConcat(syn, a[1..], b);
    }
  }

  /** Every occurrence has at least one component. */
  predicate Filled(e: Element) {
    forall r | 0 <= r < |e| :: e[r] != []
  }

  /** Joining occurrences with the component separator runs their components together. */
  lemma {:induction false} JoinMerged(syn: Syntax, e: Element)
    requires Filled(e)
    ensures Join(WireAll(syn, e), syn.componentSep) == WireComposite(syn, Flatten(e))
    ensures e != [] ==> Flatten(e) != []
    decreases |e|
  {
    if e != [] {
      assert e[0] != [];
    }
    if |e| == 1 {
      assert Flatten(e) == e[0] + Flatten(e[1..]) && Flatten(e[1..]) == [] && e[0] + [] == e[0];
    } else if |e| > 1 {
      assert WireAll(syn, e)[1..] == WireAll(syn, e[1..]);
      JoinMerged(syn, e[1..]);
      WireCompositeConcat(syn, e[0], Flatten(e[1..]));
    }
  }

  /** Only the blank occurrence prints as nothing. */
  lemma WireCompositeEmpty(syn: Syntax, c: Composite)
    requires c != []
    ensures WireComposite(syn, c) == "" <==> c == [""]
  {
    EscapedEmpty(syn, c[0]);
  }

  lemma WireElementEmpty(syn: Syntax, e: Element)
    requires e != [] && Filled(e)
    ensures WireElement(syn, e) == "" <==> e == [[""]]
  {
    WireCompositeEmpty(syn, e[0]);
  }

  /** DropTail only looks at which entries are blank. */
  lemma {:induction false} DropTailLength<S, T>(xs: seq<S>, x: S, ys: seq<T>, y: T)
    requires |xs| == |ys| && forall i | 0 <= i < |xs| :: xs[i] == x <==> ys[i] == y
    ensures |DropTail(xs, x)| == |DropTail(ys, y)|
    decreases |xs|
  {
    if xs != [] && xs[|xs| - 1] == x {
      DropTailLength(xs[..|xs| - 1], x, ys[..|ys| - 1], y);
    }
  }

  /** Drops the empty strings a list of rendered parts ends in, keeping the first `least`. */
  method TrimEmpty(parts: seq<string>, least: nat) returns (out: seq<string>)
    requires least <= 1
    ensures least == 0 ==> out == DropTail(parts, "")
    ensures least == 1 ==> out == (if DropTail(parts, "") == [] then parts[..if parts == [] then 0 else 1] else DropTail(parts, ""))
  {
    out := parts;
    while |out| > least && out[|out| - 1] == ""
      invariant out <= parts && |out| >= if |parts| < least then |parts| else least
      invariant DropTail(out, "") == DropTail(parts, "")
    {
      out := out[..|out| - 1];
    }
    if |out| > least {
      assert DropTail(out, "") == out;
    }
  }

  method RenderComposite(c: Composite, syn: Syntax) returns (out: string)
    ensures out == WireComposite(syn, NormComposite(c))
  {
    var comps: seq<string> := [];
    for j := 0 to |c|
      invariant comps == EscapedAll(syn, c[..j])
    {
      var v := Escape(c[j], syn);
      comps := comps + [v];
      assert c[..j + 1] == c[..j] + [c[j]];
    }
    assert c[..|c|] == c;
    forall i | 0 <= i < |c| ensures comps[i] == "" <==> c[i] == "" {
      EscapedEmpty(syn, c[i]);
    }
    DropTailLength(comps, "", c, "");
    comps := TrimEmpty(comps, 0);
    assert comps == EscapedAll(syn, DropTail(c, ""));
    JoinEscaped(syn, DropTail(c, ""));
    out := Join(comps, syn.componentSep);
  }

  method RenderOccurrences(e: Element, syn: Syntax) returns (out: seq<string>)
    ensures out == WireAll(syn, NormComposites(e))
  {
    out := [];
    for i := 0 to |e|
      invariant |out| == i && forall k | 0 <= k < i :: out[k] == WireComposite(syn, NormComposite(e[k]))
    {
      var r := RenderComposite(e[i], syn);
      out := out + [r];
    }
  }

  /** Trimming the rendered occurrences is trimming the occurrences. */
  lemma TrimOccurrences(syn: Syntax, e: Element)
    ensures DropTail(WireAll(syn, NormComposites(e)), "") == WireAll(syn, DropTail(NormComposites(e), [""]))
  {
    var norm := NormComposites(e);
    var wires := WireAll(syn, norm);
    forall i | 0 <= i < |e| ensures wires[i] == "" <==> norm[i] == [""] {
      WireCompositeEmpty(syn, norm[i]);
    }
    DropTailLength(wires, "", norm, [""]);
  }

  /** The occurrences that stay, joined, are the wire form of the normal element. */
  lemma JoinKept(syn: Syntax, e: Element, joined: seq<string>)
    requires var kept := DropTail(NormComposites(e), [""]);
             if kept == [] then joined == [] || joined == [""] else joined == WireAll(syn, kept)
    ensures Join(joined, if syn.repetitionEnabled then syn.repetitionSep else syn.componentSep) == WireElement(syn, NormElement(syn, e))
  {
    var kept := DropTail(NormComposites(e), [""]);
    JoinWires(syn, kept);
    JoinMerged(syn, kept);
  }

  method RenderElement(e: Element, syn: Syntax) returns (out: string)
    ensures out == WireElement(syn, NormElement(syn, e))
  {
    var rendered := RenderOccurrences(e, syn);
    TrimOccurrences(syn, e);
    var reps := TrimEmpty(rendered, 1);
    JoinKept(syn, e, reps);
    // Repetitions cannot be written below version 4; the component separator
    // at least preserves the values.
    out := Join(reps, if syn.repetitionEnabled then syn.repetitionSep else syn.componentSep);
  }

  lemma NormElementParts(syn: Syntax, e: Element)
    ensures Filled(NormElement(syn, e))
  {
    var kept := DropTail(NormComposites(e), [""]);
    if kept != [] && !syn.repetitionEnabled {
      JoinMerged(syn, kept);
    }
  }

  function WireElements(syn: Syntax, es: seq<Element>): (r: seq<string>)
    ensures |r| == |es| && forall i | 0 <= i < |r| :: r[i] == WireElement(syn, es[i])
  {
    seq(|es|, i requires 0 <= i < |es| => WireElement(syn, es[i]))
  }

  method RenderEach(es: seq<Element>, syn: Syntax) returns (out: seq<string>)
    ensures out == WireElements(syn, NormEach(syn, es))
  {
    hide WireElement, NormElement;
    out := [];
    for i := 0 to |es|
      invariant |out| == i && forall k | 0 <= k < i :: out[k] == WireElement(syn, NormElement(syn, es[k]))
    {
      var r := RenderElement(es[i], syn);
      out := out + [r];
    }
  }

  /** Trimming the rendered elements is trimming the elements. */
  lemma TrimRendered(syn: Syntax, es: seq<Element>)
    ensures DropTail(WireElements(syn, NormEach(syn, es)), "") == WireElements(syn, NormElements(syn, es))
  {
    var norm := NormEach(syn, es);
    var wires := WireElements(syn, norm);
    forall i | 0 <= i < |norm| ensures wires[i] == "" <==> norm[i] == [[""]] {
      NormElementParts(syn, es[i]);
      WireElementEmpty(syn, norm[i]);
    }
    DropTailLength(wires, "", norm, [[""]]);
  }

  lemma NoTail(syn: Syntax)
    ensures WireTail(syn, []) == [syn.segmentTerm]
  {
  }

  lemma WireTailAt(syn: Syntax, es: seq<Element>, i: nat)
    requires i < |es|
    ensures WireTail(syn, es[i..]) == [syn.elementSep] + WireElement(syn, es[i]) + WireTail(syn, es[i + 1..])
  {
    assert es[i..][0] == es[i] && es[i..][1..] == es[i + 1..];
  }

  /** Writes each rendered element behind its separator, then the terminator. */
  method WriteElements(rendered: seq<string>, syn: Syntax, ghost es: seq<Element>) returns (out: string)
    requires rendered == WireElements(syn, es)
    ensures out == WireTail(syn, es)
  {
    hide WireElement, WireTail;
    out := "";
    assert es[0..] == es && "" + WireTail(syn, es) == WireTail(syn, es);
    for i := 0 to |rendered|
      invariant out + WireTail(syn, es[i..]) == WireTail(syn, es)
    {
      WireTailAt(syn, es, i);
      AddAssoc(out, [syn.elementSep] + WireElement(syn, es[i]), WireTail(syn, es[i + 1..]));
      AddAssoc(out, [syn.elementSep], WireElement(syn, es[i]));
      out := out + [syn.elementSep] + rendered[i];
    }
    assert es[|rendered|..] == [];
    NoTail(syn);
    out := out + [syn.segmentTerm];
  }

  /** Appends the segment's wire form, terminator included. */
  method EncodeTo(s: Segment, dst: string, syn: Syntax) returns (out: string)
    ensures out == dst + WireSegment(syn, s)
  {
    var tag := Escape(s.tag, syn);
    var rendered := RenderEach(s.elements, syn);
    TrimRendered(syn, s.elements);
    rendered := TrimEmpty(rendered, 0);
    var tail := WriteElements(rendered, syn, NormElements(syn, s.elements));
    out := dst + (tag + tail);
  }
}
