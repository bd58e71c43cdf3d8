/** Trimming and upper-casing, as strings.TrimSpace and strings.ToUpper do for ASCII. */
module Text {
  predicate IsSpace(b: char) {
    b == ' ' || '\t' <= b <= '\r'
  }

  function TrimLeft(s: string): string {
    if s != "" && IsSpace(s[0]) then TrimLeft(s[1..]) else s
  }

  function TrimRight(s: string): string {
    if s != "" && IsSpace(s[|s| - 1]) then TrimRight(s[..|s| - 1]) else s
  }

  function TrimSpace(s: string): string {
    TrimRight(TrimLeft(s))
  }

  function UpperChar(b: char): char {
    if 'a' <= b <= 'z' then b - 'a' + 'A' else b
  }

  function Upper(s: string): (r: string)
    ensures |r| == |s| && forall i | 0 <= i < |s| :: r[i] == UpperChar(s[i])
  {
    seq(|s|, i requires 0 <= i < |s| => UpperChar(s[i]))
  }

  /** Upper case, without surrounding blanks: how addresses and seats are keyed. */
  function Normalise(s: string): string {
    Upper(TrimSpace(s))
  }

  // ---------------------------------------------------------------- what they do

  const SMALL := "abcdefghijklmnopqrstuvwxyz"
  const CAPITALS := "ABCDEFGHIJKLMNOPQRSTUVWXYZ"

  /** Blank, tab, line feed, vertical tab, form feed and carriage return. */
  predicate IsWhitespace(b: char) {
    b as int in {32, 9, 10, 11, 12, 13}
  }

  lemma {:induction false} TrimLeftMeans(s: string) returns (from: nat)
    ensures from <= |s| && TrimLeft(s) == s[from..] && (from < |s| ==> !IsWhitespace(s[from]))
    ensures forall k | 0 <= k < from :: IsWhitespace(s[k])
    decreases |s|
  {
    from := 0;
    if s != "" && IsSpace(s[0]) {
      var more := TrimLeftMeans(s[1..]);
      from := more + 1;
      assert s[1..][more..] == s[from..];
      assert forall k | 0 < k < from :: s[k] == s[1..][k - 1];
    }
  }

  lemma {:induction false} TrimRightMeans(s: string) returns (upTo: nat)
    ensures upTo <= |s| && TrimRight(s) == s[..upTo] && (upTo > 0 ==> !IsWhitespace(s[upTo - 1]))
    ensures forall k | upTo <= k < |s| :: IsWhitespace(s[k])
    decreases |s|
  {
    upTo := |s|;
    if s != "" && IsSpace(s[|s| - 1]) {
      upTo := TrimRightMeans(s[..|s| - 1]);
    }
  }

  /** Trimming keeps what stands between the first and the last character that is not a
      blank. */
  lemma TrimSpaceMeans(s: string) returns (from: nat, upTo: nat)
    ensures from <= upTo <= |s| && TrimSpace(s) == s[from..upTo]
    ensures forall k | 0 <= k < |s| && !(from <= k < upTo) :: IsWhitespace(s[k])
    ensures from < upTo ==> !IsWhitespace(s[from]) && !IsWhitespace(s[upTo - 1])
  {
    hide IsWhitespace;
    from := TrimLeftMeans(s);
    var rest := s[from..];
    var n := TrimRightMeans(rest);
    upTo := from + n;
    assert rest[..n] == s[from..upTo];
    assert forall k | upTo <= k < |s| :: s[k] == rest[k - from];
    assert from < |s| ==> rest[0] == s[from];
    assert n > 0 ==> rest[n - 1] == s[upTo - 1];
  }

  /** Upper case changes the letters and nothing else. */
  lemma UpperMeans(s: string, i: nat)
    requires i < |s|
    ensures forall k | 0 <= k < 26 :: s[i] == SMALL[k] ==> Upper(s)[i] == CAPITALS[k]
    ensures s[i] !in SMALL ==> Upper(s)[i] == s[i]
  {
    var b := s[i];
    if 'a' <= b <= 'z' {
      assert SMALL[b as int - 'a' as int] == b;
    }
  }
}
