/** What the normal form of a segment means: it holds the same value at every
    position, and it is the only form without empty tails that does. */
module EdifactNormal {
  import opened EdifactSyntax
  import opened EdifactEncode

  /** Every element can be carried: it repeats only where repetition is on. */
  predicate Carriable(syn: Syntax, s: Segment) {
    forall i | 0 <= i < |s.elements| :: syn.repetitionEnabled || |s.elements[i]| <= 1
  }

  predicate AllCarriable(syn: Syntax, segs: seq<Segment>) {
    forall i | 0 <= i < |segs| :: Carriable(syn, segs[i])
  }

  /** The same value at every element, repetition and component position. */
  ghost predicate SameValues(s: Segment, t: Segment) {
    forall i, r, k :: At(s, i, r, k) == At(t, i, r, k)
  }

  ghost predicate SameElement(e: Element, f: Element) {
    forall r, k :: Component(Occurrence(e, r), k) == Component(Occurrence(f, r), k)
  }

  ghost predicate SameComposite(c: Composite, d: Composite) {
    forall k :: Component(c, k) == Component(d, k)
  }

  lemma NormCompositeKeeps(c: Composite)
    ensures SameComposite(NormComposite(c), c)
  {
  }

  lemma FlattenOne<T>(x: seq<T>)
    ensures Flatten([x]) == x
  {
    assert [x][1..] == [] && x + [] == x;
  }

  lemma NormElementKeeps(syn: Syntax, e: Element)
    requires syn.repetitionEnabled || |e| <= 1
    ensures SameElement(NormElement(syn, e), e)
  {
    var norm := NormComposites(e);
    var kept := DropTail(norm, [""]);
    if kept != [] && !syn.repetitionEnabled {
      FlattenOne(kept[0]);
      assert kept == [kept[0]];
    }
    forall r, k ensures Component(Occurrence(NormElement(syn, e), r), k) == Component(Occurrence(e, r), k) {
      if 0 <= r < |e| {
        NormCompositeKeeps(e[r]);
        assert Component(norm[r], k) == Component(e[r], k);
      }
    }
  }

  /** Truncation loses no value and moves none. */
  lemma NormKeepsValues(syn: Syntax, s: Segment)
    requires Carriable(syn, s)
    ensures SameValues(NormSegment(syn, s), s)
  {
    forall i, r, k ensures At(NormSegment(syn, s), i, r, k) == At(s, i, r, k) {
      NormKeepsElement(syn, s, i);
    }
  }

  lemma NormKeepsElement(syn: Syntax, s: Segment, i: int)
    requires Carriable(syn, s)
    ensures SameElement(ElementAt(NormSegment(syn, s), i), ElementAt(s, i))
  {
    if 0 <= i < |s.elements| {
      NormElementKeeps(syn, s.elements[i]);
      KeptOrBlank(NormEach(syn, s.elements), [[""]], i);
      BlankIsAbsent();
    }
  }

  lemma BlankIsAbsent()
    ensures SameElement([], [[""]])
  {
  }

  lemma KeptOrBlank<T>(xs: seq<T>, blank: T, i: nat)
    requires i < |xs|
    ensures if i < |DropTail(xs, blank)| then DropTail(xs, blank)[i] == xs[i] else xs[i] == blank
  {
  }

  // ---------------------------------------------------------------- uniqueness

  lemma SameCompositeNorm(c: Composite, d: Composite)
    requires SameComposite(c, d)
    ensures NormComposite(c) == NormComposite(d)
  {
    forall i: int | 0 <= i ensures (if i < |c| then c[i] else "") == (if i < |d| then d[i] else "") {
      assert Component(c, i) == Component(d, i);
    }
    DropTailAgree(c, d, "");
  }

  /** Two lists that agree wherever either has an entry, a missing one counting as
      blank, are the same list once their blank tails are dropped. */
  lemma DropTailAgree<T>(xs: seq<T>, ys: seq<T>, blank: T)
    requires forall i :: 0 <= i ==> (if i < |xs| then xs[i] else blank) == (if i < |ys| then ys[i] else blank)
    ensures DropTail(xs, blank) == DropTail(ys, blank)
  {
    var a, b := DropTail(xs, blank), DropTail(ys, blank);
    assert |a| == |b| by {
      var last := (if |a| < |b| then |b| else |a|) - 1;
      assert 0 <= last ==>
          (if last < |xs| then xs[last] else blank) == (if last < |ys| then ys[last] else blank);
    }
  }

  /** An occurrence, or the blank one where there is none, in normal form. */
  function NormOccurrence(e: Element, r: nat): Composite {
    NormComposite(Occurrence(e, r))
  }

  lemma SameElementNorm(syn: Syntax, e: Element, f: Element)
    requires SameElement(e, f)
    requires syn.repetitionEnabled || (|e| <= 1 && |f| <= 1)
    ensures NormElement(syn, e) == NormElement(syn, f)
  {
    var x, y := NormComposites(e), NormComposites(f);
    forall r: int | 0 <= r ensures (if r < |x| then x[r] else [""]) == (if r < |y| then y[r] else [""]) {
      forall k ensures Component(Occurrence(e, r), k) == Component(Occurrence(f, r), k) {
      }
      assert SameComposite(Occurrence(e, r), Occurrence(f, r));
      SameCompositeNorm(Occurrence(e, r), Occurrence(f, r));
      assert NormOccurrence(e, r) == if r < |x| then x[r] else [""];
      assert NormOccurrence(f, r) == if r < |y| then y[r] else [""];
    }
    DropTailAgree(x, y, [""]);
  }

  lemma SameValuesNorm(syn: Syntax, s: Segment, t: Segment)
    requires Carriable(syn, s) && Carriable(syn, t) && SameValues(s, t)
    ensures NormElements(syn, s.elements) == NormElements(syn, t.elements)
  {
    var x, y := NormEach(syn, s.elements), NormEach(syn, t.elements);
    forall i: int | 0 <= i ensures (if i < |x| then x[i] else [[""]]) == (if i < |y| then y[i] else [[""]]) {
      var e, f := ElementAt(s, i), ElementAt(t, i);
      forall r, k ensures Component(Occurrence(e, r), k) == Component(Occurrence(f, r), k) {
        assert At(s, i, r, k) == At(t, i, r, k);
      }
      SameElementNorm(syn, e, f);
      assert NormElement(syn, []) == [[""]];
    }
    DropTailAgree(x, y, [[""]]);
  }

  /** The normal form is canonical: two segments have the same one exactly when
      they have the same tag and the same value everywhere. */
  lemma NormIsCanonical(syn: Syntax, s: Segment, t: Segment)
    requires Carriable(syn, s) && Carriable(syn, t)
    ensures NormSegment(syn, s) == NormSegment(syn, t) <==> s.tag == t.tag && SameValues(s, t)
  {
    NormKeepsValues(syn, s);
    NormKeepsValues(syn, t);
    if s.tag == t.tag && SameValues(s, t) {
      SameValuesNorm(syn, s, t);
    }
    if NormSegment(syn, s) == NormSegment(syn, t) {
      forall i, r, k ensures At(s, i, r, k) == At(t, i, r, k) {
        assert At(NormSegment(syn, s), i, r, k) == At(s, i, r, k);
        assert At(NormSegment(syn, t), i, r, k) == At(t, i, r, k);
      }
    }
  }

  lemma NormCarriable(syn: Syntax, s: Segment)
    ensures Carriable(syn, NormSegment(syn, s))
  {
  }

  /** Truncating twice is truncating once, so a second pass writes the same bytes. */
  lemma NormIdempotent(syn: Syntax, s: Segment)
    requires Carriable(syn, s)
    ensures NormSegment(syn, NormSegment(syn, s)) == NormSegment(syn, s)
  {
    NormKeepsValues(syn, s);
    NormCarriable(syn, s);
    NormIsCanonical(syn, NormSegment(syn, s), s);
  }

  lemma {:induction false} WireOfNorm(syn: Syntax, segs: seq<Segment>, lineEnd: string)
    requires AllCarriable(syn, segs)
    ensures WireSegments(syn, NormSegments(syn, segs), lineEnd) == WireSegments(syn, segs, lineEnd)
    decreases |segs|
  {
    if segs != [] {
      NormIdempotent(syn, segs[0]);
      assert NormSegments(syn, segs)[1..] == NormSegments(syn, segs[1..]);
      WireOfNorm(syn, segs[1..], lineEnd);
    }
  }
}
