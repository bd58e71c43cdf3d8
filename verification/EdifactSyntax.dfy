/** The service characters of an EDIFACT interchange (ISO 9735) and the values
    the syntax layer passes around: composites, elements, segments, diagnostics.

    Bytes are characters here. Every byte string is a string of characters below
    256, nothing depends on that bound, and every result holds for all strings. */
module EdifactSyntax {

  /** The service characters in force. */
  datatype Syntax = Syntax(
    componentSep: char,
    elementSep: char,
    decimalMark: char,
    releaseChar: char,
    repetitionSep: char,
    segmentTerm: char,
    version: int,
    repetitionEnabled: bool)

  const DEFAULT_REPETITION_SEP := '*'
  const MAX_SYNTAX_VERSION := 4

  /** The ISO 9735 defaults at a syntax version. */
  function DefaultSyntax(version: int): Syntax {
    Syntax(':', '+', '.', '?', DEFAULT_REPETITION_SEP, '\'', version, version >= 4)
  }

  predicate IsService(syn: Syntax, b: char) {
    || b == syn.componentSep || b == syn.elementSep || b == syn.segmentTerm || b == syn.releaseChar
    || (syn.repetitionEnabled && b == syn.repetitionSep)
  }

  predicate IsAlphanumeric(b: char) {
    'A' <= b <= 'Z' || 'a' <= b <= 'z' || '0' <= b <= '9'
  }

  /** A service character is printable ASCII and neither a letter nor a digit. */
  predicate ValidServiceChar(b: char) {
    ' ' < b <= '~' && !IsAlphanumeric(b)
  }

  /** What Syntax.Validate accepts: usable and pairwise distinct characters. */
  predicate Usable(syn: Syntax) {
    && (syn.decimalMark == '.' || syn.decimalMark == ',')
    && ValidServiceChar(syn.componentSep) && ValidServiceChar(syn.elementSep)
    && ValidServiceChar(syn.releaseChar) && ValidServiceChar(syn.segmentTerm)
    && syn.elementSep != syn.componentSep
    && syn.releaseChar !in [syn.componentSep, syn.elementSep]
    && syn.segmentTerm !in [syn.componentSep, syn.elementSep, syn.releaseChar]
    && (syn.repetitionEnabled ==>
          && ValidServiceChar(syn.repetitionSep)
          && syn.repetitionSep !in [syn.componentSep, syn.elementSep, syn.releaseChar, syn.segmentTerm])
  }

  /** The UNA service string advice for a syntax. */
  function AdviceString(syn: Syntax): string {
    "UNA" + [syn.componentSep, syn.elementSep, syn.decimalMark, syn.releaseChar,
             if syn.repetitionEnabled then syn.repetitionSep else ' ', syn.segmentTerm]
  }

  /** Whether the version's defaults imply the syntax, so that UNA may be omitted. */
  predicate IsDefault(syn: Syntax) {
    && syn.componentSep == ':' && syn.elementSep == '+' && syn.decimalMark == '.'
    && syn.releaseChar == '?' && syn.segmentTerm == '\''
    && (syn.repetitionEnabled ==> syn.repetitionSep == DEFAULT_REPETITION_SEP)
    && syn.repetitionEnabled == (syn.version >= 4)
  }

  type Composite = seq<string>
  type Element = seq<Composite>

  /** A decoded segment. Its position in the input is not part of this model. */
  datatype Segment = Segment(tag: string, elements: seq<Element>)

  function Component(c: Composite, i: int): string {
    if 0 <= i < |c| then c[i] else ""
  }

  function Occurrence(e: Element, r: int): Composite {
    if 0 <= r < |e| then e[r] else []
  }

  function ElementAt(s: Segment, i: int): Element {
    if 0 <= i < |s.elements| then s.elements[i] else []
  }

  /** Component k of repetition r of element i, "" wherever the segment is shorter. */
  function At(s: Segment, i: int, r: int, k: int): string {
    Component(Occurrence(ElementAt(s, i), r), k)
  }

  /** The accessor mapping code uses: component k of the first repetition. */
  function Get(s: Segment, i: int, k: int): string {
    At(s, i, 0, k)
  }

  function Value(s: Segment, i: int): string {
    Get(s, i, 0)
  }

  /** Three letters or digits that are not the service string advice itself. */
  predicate ValidTag(t: string) {
    |t| == 3 && IsAlphanumeric(t[0]) && IsAlphanumeric(t[1]) && IsAlphanumeric(t[2]) && t != "UNA" && t != "una"
  }

  datatype Severity = Info | Warn | Error

  /** A non-fatal observation; offsets and wording are not part of this model. */
  datatype Diagnostic = Diagnostic(severity: Severity, code: string)

  predicate IsBreak(b: char) {
    b == '\r' || b == '\n'
  }

  predicate IsBlank(b: char) {
    b == ' ' || b == '\t' || IsBreak(b)
  }
}
