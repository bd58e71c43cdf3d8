/** Fixed-width records: text and numbers in 1-based columns, and amounts whose sign is
    punched over the last digit (section 6.7 of IATA DISH revision 23). */
module HotRecord {
  import opened Arithmetic
  import opened Text
  import opened Decimal

  const RECORD_LEN := 136

  type Record = string

  function Repeated(c: char, n: int): (s: string)
    ensures |s| == Max(0, n) && forall i | 0 <= i < |s| :: s[i] == c
  {
    seq(Max(0, n), i requires 0 <= i < Max(0, n) => c)
  }

  function Blanks(n: int): string {
    Repeated(' ', n)
  }

  function Cleaned(s: string): (r: string)
    ensures |r| == |s| && forall i | 0 <= i < |s| :: r[i] == if ' ' <= s[i] <= '~' then s[i] else ' '
  {
    seq(|s|, i requires 0 <= i < |s| => if ' ' <= s[i] <= '~' then s[i] else ' ')
  }

  /** What goes into w columns: control characters blanked, cut to fit, numbers with
      leading zeros. */
  function Fitted(s: string, w: nat, numeric: bool): (r: string)
    ensures |r| <= w
  {
    var clean := Cleaned(s);
    var cut := if |clean| > w then clean[..w] else clean;
    if numeric then Repeated('0', w - |cut|) + cut else cut
  }

  function Slice(rec: Record, start: nat, end: nat): (s: string)
    requires 1 <= start <= end + 1 <= |rec| + 1
    ensures |s| == end - start + 1
  {
    rec[start - 1..end]
  }

  /** Text laid over the record from a column on: nothing outside its columns changes. */
  function Laid(rec: Record, start: nat, end: nat, text: string): (r: Record)
    requires 1 <= start <= end <= |rec| && |text| <= end - start + 1
    ensures |r| == |rec|
    ensures forall a: nat, b: nat | 1 <= a <= b <= |rec| && (b < start || end < a) :: Slice(r, a, b) == Slice(rec, a, b)
    ensures Slice(r, start, end) == text + Slice(rec, start, end)[|text|..]
  {
    var r := rec[..start - 1] + text + rec[start - 1 + |text|..];
    assert forall i | 0 <= i < |rec| && !(start - 1 <= i < end) :: r[i] == rec[i];
    r
  }

  function Put(rec: Record, start: nat, end: nat, s: string, numeric: bool): Record
    requires 1 <= start <= end <= |rec|
  {
    Laid(rec, start, end, Fitted(s, end - start + 1, numeric))
  }

  function Get(rec: Record, start: nat, end: nat): string
    requires 1 <= start <= end <= |rec|
  {
    TrimSpace(Slice(rec, start, end))
  }

  /** A number with leading zeros to at least w characters, its sign first. */
  function Padded(n: int, w: int): string {
    if n < 0 then "-" + Repeated('0', w - 1 - |Itoa(-n)|) + Itoa(-n) else Repeated('0', w - |Itoa(n)|) + Itoa(n)
  }

  /** An empty record of a kind: its identifier and qualifier. */
  function Blank(id: string, qualifier: nat): Record {
    Put(Put(Blanks(RECORD_LEN), 1, 3, id, false), 12, 13, Padded(qualifier, 2), false)
  }

  // ---------------------------------------------------------------- over-punched amounts

  function Absolute(v: int): nat {
    if v < 0 then -v else v
  }

  /** The last w digits of a number. */
  function LastDigits(n: nat, w: nat): (s: string)
    ensures |s| == w
  {
    var s := Padded(n, w);
    s[|s| - w..]
  }

  /** The sign over a digit: { A to I for plus, } J to R for minus. */
  function Punched(negative: bool, digit: char): char
    requires IsDigit(digit)
  {
    if negative then (if digit == '0' then '}' else ('J' as int + (digit as int - '1' as int)) as char)
    else if digit == '0' then '{' else ('A' as int + (digit as int - '1' as int)) as char
  }

  function Overpunched(v: int, w: nat): (s: string)
    requires w >= 1
    ensures |s| == w
  {
    LastDigitsAreDigits(Absolute(v), w);
    var s := LastDigits(Absolute(v), w);
    s[..w - 1] + [Punched(v < 0, s[w - 1])]
  }

  function PutAmount(rec: Record, start: nat, end: nat, v: int): Record
    requires 1 <= start <= end <= |rec|
  {
    Laid(rec, start, end, Overpunched(v, end - start + 1))
  }

  /** The digit and the sign a last character carries; None is no amount at all. */
  function Unpunched(c: char): (int, bool) {
    if IsDigit(c) then (c as int - '0' as int, false)
    else if c == '{' then (0, false)
    else if 'A' <= c <= 'I' then (c as int - 'A' as int + 1, false)
    else if c == '}' then (0, true)
    else if 'J' <= c <= 'R' then (c as int - 'J' as int + 1, true)
    else (-1, false)
  }

  /** An over-punched amount; plain digits read as positive and anything else as nothing. */
  function AmountOf(s: string): int
    requires s != ""
  {
    var (d, negative) := Unpunched(s[|s| - 1]);
    if d < 0 then 0
    else
      var v := AtoiOrZero(TrimSpace(s[..|s| - 1]) + [DigitOf(if d < 10 then d else 0)]);
      if negative then -v else v
  }

  function GetAmount(rec: Record, start: nat, end: nat): int
    requires 1 <= start <= end <= |rec|
  {
    AmountOf(Slice(rec, start, end))
  }

  function Pow10(w: nat): (p: nat)
    ensures p >= 1
  {
    if w == 0 then 1 else 10 * Pow10(w - 1)
  }

  lemma PaddedSnoc(n: nat, w: int, q: nat, d: char)
    requires Itoa(n) == Itoa(q) + [d]
    ensures Padded(n, w) == Padded(q, w - 1) + [d]
  {
    hide Itoa;
  }

  lemma PaddedLength(n: nat, w: int)
    ensures |Padded(n, w)| >= w
  {
  }

  lemma PaddedDigit(n: nat, w: int)
    requires n < 10
    ensures Padded(n, w) == Repeated('0', w - 1) + [DigitOf(n)]
  {
  }

  lemma ZerosEnd(k: int)
    ensures k >= 1 ==> Repeated('0', k - 1) + "0" == Repeated('0', k)
  {
  }

  lemma PrintedSnoc(n: nat)
    requires n >= 10
    ensures Itoa(n) == Itoa(n / 10) + [DigitOf(n % 10)]
  {
  }

  lemma LastSnoc(q: string, d: char, w: nat)
    requires 1 <= w <= |q| + 1
    ensures (q + [d])[|q| + 1 - w..] == q[|q| + 1 - w..] + [d]
  {
  }

  lemma ShortDigits(n: nat, w: nat)
    requires w >= 1 && n < 10
    ensures LastDigits(n, w) == Repeated('0', w - 1) + [DigitOf(n)]
    ensures LastDigits(0, w - 1) == Repeated('0', w - 1)
  {
    hide Padded, Itoa;
    PaddedDigit(n, w);
    PaddedDigit(0, w - 1);
    ZerosEnd(w - 1);
  }

  /** The last digit comes off. */
  lemma LastDigitsStep(n: nat, w: nat)
    requires w >= 1
    ensures LastDigits(n, w) == LastDigits(n / 10, w - 1) + [DigitOf(n % 10)]
  {
    hide Padded, Repeated, Itoa;
    if n < 10 {
      ShortDigits(n, w);
    } else {
      var q, d := n / 10, DigitOf(n % 10);
      PrintedSnoc(n);
      PaddedSnoc(n, w, q, d);
      PaddedLength(q, w - 1);
      LastSnoc(Padded(q, w - 1), d, w);
    }
  }

  lemma {:induction false} LastDigitsAreDigits(n: nat, w: nat)
    ensures forall b | b in LastDigits(n, w) :: IsDigit(b)
    decreases w
  {
    if w > 0 {
      LastDigitsStep(n, w);
      LastDigitsAreDigits(n / 10, w - 1);
    }
  }

  lemma ModStep(n: nat, m: nat)
    requires m >= 1
    ensures n % (10 * m) == 10 * ((n / 10) % m) + n % 10
  {
    var q, k := n / 10, n / 10 / m;
    assert q == m * k + q % m;
    assert n == (10 * m) * k + (10 * (q % m) + n % 10);
    ModUnique(n, 10 * m, k, 10 * (q % m) + n % 10);
  }

  lemma AtLeastOnce(m: nat, a: int, b: int)
    requires a < b
    ensures m * b >= m * a + m
  {
    assert m * b == m * a + m + m * (b - a - 1);
  }

  lemma OneRemainder(m: nat, j: int, x: nat, k: int, r: nat)
    requires m * j + x == m * k + r && x < m && r < m
    ensures x == r
  {
    if j < k {
      AtLeastOnce(m, j, k);
    } else if k < j {
      AtLeastOnce(m, k, j);
    }
  }

  lemma ModUnique(n: nat, m: nat, k: nat, r: nat)
    requires m >= 1 && n == m * k + r && r < m
    ensures n % m == r
  {
    OneRemainder(m, n / m, n % m, k, r);
  }

  lemma MagnitudeSnoc(s: string, d: char)
    requires IsDigit(d) && forall b | b in s :: IsDigit(b)
    ensures (forall b | b in s + [d] :: IsDigit(b))
    ensures Magnitude(s + [d]) == 10 * Magnitude(s) + (d as int - '0' as int)
  {
    assert (s + [d])[..|s|] == s;
  }

  lemma {:induction false} LastDigitsValue(n: nat, w: nat)
    ensures (forall b | b in LastDigits(n, w) :: IsDigit(b)) && Magnitude(LastDigits(n, w)) == n % Pow10(w)
    decreases w
  {
    hide LastDigits;
    LastDigitsAreDigits(n, w);
    if w == 0 {
      assert LastDigits(n, 0) == "";
    } else {
      LastDigitsStep(n, w);
      LastDigitsValue(n / 10, w - 1);
      MagnitudeSnoc(LastDigits(n / 10, w - 1), DigitOf(n % 10));
      ModStep(n, Pow10(w - 1));
    }
  }

  lemma {:induction false} DigitsTrim(s: string)
    requires forall b | b in s :: !IsSpace(b)
    ensures TrimSpace(s) == s
  {
    if s != "" {
      assert s[0] in s && s[|s| - 1] in s;
    }
  }

  lemma UnpunchedPunched(negative: bool, digit: char)
    requires IsDigit(digit)
    ensures Unpunched(Punched(negative, digit)) == (digit as int - '0' as int, negative)
  {
  }

  /** The sign survives, and of the digits those that fit. */
  lemma AmountReadsBack(v: int, w: nat)
    requires w >= 1
    ensures AmountOf(Overpunched(v, w)) == (if v < 0 then -(Absolute(v) % Pow10(w)) else Absolute(v) % Pow10(w))
  {
    hide LastDigits, Punched, Unpunched, TrimSpace, Pow10, Magnitude;
    var n := Absolute(v);
    LastDigitsValue(n, w);
    var s := LastDigits(n, w);
    var body, last := s[..w - 1], s[w - 1];
    assert s == body + [last] && last in s;
    forall b | b in body ensures !IsSpace(b) {
      assert b in s;
    }
    DigitsTrim(body);
    UnpunchedPunched(v < 0, last);
    var text := Overpunched(v, w);
    assert text[..w - 1] == body && text[w - 1] == Punched(v < 0, last);
    assert DigitOf(last as int - '0' as int) == last;
    assert AllDigits(s);
  }

  /** An amount survives w columns if and only if it has no more than w digits. */
  lemma AmountSurvivesExactly(v: int, w: nat)
    requires w >= 1
    ensures AmountOf(Overpunched(v, w)) == v <==> Absolute(v) < Pow10(w)
  {
    hide AmountOf, Overpunched, Pow10;
    AmountReadsBack(v, w);
    var n, m := Absolute(v), Pow10(w);
    assert n % m < m;
    if n < m {
      ModUnique(n, m, 0, n);
    }
  }

  // ---------------------------------------------------------------- columns read back

  /** Text that fits w columns and has nothing to lose. */
  predicate Fits(s: string, w: nat) {
    |s| <= w && (forall b | b in s :: ' ' <= b <= '~') && TrimSpace(s) == s
  }

  lemma {:induction false} TrimRightBlanks(s: string, n: nat)
    requires TrimRight(s) == s
    ensures TrimRight(s + Blanks(n)) == s
    decreases n
  {
    if n == 0 {
      assert s + Blanks(0) == s;
    } else {
      var t := s + Blanks(n);
      assert t[..|t| - 1] == s + Blanks(n - 1);
      TrimRightBlanks(s, n - 1);
    }
  }

  lemma {:induction false} TrimLeftBlanks(n: nat)
    ensures TrimLeft(Blanks(n)) == ""
    decreases n
  {
    if n > 0 {
      assert Blanks(n)[1..] == Blanks(n - 1);
      TrimLeftBlanks(n - 1);
    }
  }

  lemma {:induction false} TrimLeftShortens(s: string)
    ensures |TrimLeft(s)| <= |s| && (TrimLeft(s) == s || |TrimLeft(s)| < |s|)
    decreases |s|
  {
    if s != "" && IsSpace(s[0]) {
      TrimLeftShortens(s[1..]);
    }
  }

  lemma {:induction false} TrimRightShortens(s: string)
    ensures |TrimRight(s)| <= |s| && (TrimRight(s) == s || |TrimRight(s)| < |s|)
    decreases |s|
  {
    if s != "" && IsSpace(s[|s| - 1]) {
      TrimRightShortens(s[..|s| - 1]);
    }
  }

  /** Trimmed text is trimmed at both ends. */
  lemma TrimmedBothEnds(s: string)
    requires TrimSpace(s) == s
    ensures TrimLeft(s) == s && TrimRight(s) == s
  {
    TrimLeftShortens(s);
    TrimRightShortens(TrimLeft(s));
  }

  lemma {:induction false} TrimLeftEnds(s: string)
    ensures TrimLeft(s) == "" || !IsSpace(TrimLeft(s)[0])
    decreases |s|
  {
    if s != "" && IsSpace(s[0]) {
      TrimLeftEnds(s[1..]);
    }
  }

  lemma {:induction false} TrimRightEnds(s: string)
    ensures TrimRight(s) <= s && (TrimRight(s) == "" || !IsSpace(TrimRight(s)[|TrimRight(s)| - 1]))
    decreases |s|
  {
    if s != "" && IsSpace(s[|s| - 1]) {
      TrimRightEnds(s[..|s| - 1]);
    }
  }

  /** Trimming twice is trimming once. */
  lemma TrimTwice(s: string)
    ensures TrimSpace(TrimSpace(s)) == TrimSpace(s)
  {
    TrimLeftEnds(s);
    TrimRightEnds(TrimLeft(s));
  }

  lemma TrimPadded(s: string, n: nat)
    requires TrimSpace(s) == s
    ensures TrimSpace(s + Blanks(n)) == s
  {
    TrimmedBothEnds(s);
    if s == "" {
      assert s + Blanks(n) == Blanks(n);
      TrimLeftBlanks(n);
    } else {
      TrimLeftShortens(s[1..]);
      assert (s + Blanks(n))[0] == s[0];
      TrimRightBlanks(s, n);
    }
  }

  predicate BlankAt(rec: Record, start: nat, end: nat)
    requires 1 <= start <= end <= |rec|
  {
    Slice(rec, start, end) == Blanks(end - start + 1)
  }

  /** Text put into blank columns is read back. */
  lemma PutReads(rec: Record, start: nat, end: nat, s: string)
    requires 1 <= start <= end <= |rec| && BlankAt(rec, start, end) && Fits(s, end - start + 1)
    ensures Get(Put(rec, start, end, s, false), start, end) == s
  {
    hide TrimSpace;
    PutSlice(rec, start, end, s);
    TrimPadded(s, end - start + 1 - |s|);
  }

  /** Exactly what is in the columns afterwards. */
  lemma PutSlice(rec: Record, start: nat, end: nat, s: string)
    requires 1 <= start <= end <= |rec| && BlankAt(rec, start, end) && Fits(s, end - start + 1)
    ensures Slice(Put(rec, start, end, s, false), start, end) == s + Blanks(end - start + 1 - |s|)
  {
    hide TrimSpace;
    var w := end - start + 1;
    CleanIsClean(s);
    assert Blanks(w)[|s|..] == Blanks(w - |s|);
  }

  lemma CleanIsClean(s: string)
    requires forall b | b in s :: ' ' <= b <= '~'
    ensures Cleaned(s) == s
  {
    forall i | 0 <= i < |s| ensures Cleaned(s)[i] == s[i] {
      assert s[i] in s;
    }
  }

  /** A number put right-justified is read back. */
  lemma NumberReads(rec: Record, start: nat, end: nat, n: nat, numeric: bool)
    requires 1 <= start <= end <= |rec| && n < Pow10(end - start + 1)
    ensures var w := end - start + 1;
            Atoi(Get(Put(rec, start, end, Padded(n, w), numeric), start, end)) == Number(n)
  {
    hide TrimSpace, Pow10;
    var w := end - start + 1;
    var s := Padded(n, w);
    PaddedFits(n, w);
    LastDigitsValue(n, w);
    assert s == LastDigits(n, w);
    forall b | b in s ensures !IsSpace(b) && ' ' <= b <= '~' {
      assert IsDigit(b);
    }
    CleanIsClean(s);
    assert Fitted(s, w, numeric) == s;
    var rest := Slice(rec, start, end)[w..];
    assert rest == "" && s + rest == s;
    DigitsTrim(s);
    ModUnique(n, Pow10(w), 0, n);
    assert AllDigits(s);
  }

  lemma {:induction false} PaddedFits(n: nat, w: nat)
    requires w >= 1 && n < Pow10(w)
    ensures |Padded(n, w)| == w
    decreases w
  {
    if n >= 10 {
      assert w > 1;
      PaddedFits(n / 10, w - 1);
    }
  }

  lemma {:induction false} MagnitudeBound(s: string)
    requires forall b | b in s :: IsDigit(b)
    ensures Magnitude(s) < Pow10(|s|)
    decreases |s|
  {
    if s != "" {
      MagnitudeBound(s[..|s| - 1]);
      assert s[|s| - 1] in s;
    }
  }

  lemma {:induction false} MagnitudePositive(s: string)
    requires AllDigits(s) && s[0] != '0'
    ensures Magnitude(s) >= 1
    decreases |s|
  {
    assert s[0] in s && s[|s| - 1] in s;
    if |s| > 1 {
      MagnitudePositive(s[..|s| - 1]);
    }
  }

  lemma {:induction false} LeadingDigit(n: nat)
    requires n >= 1
    ensures Digits(n)[0] != '0'
    decreases n
  {
    if n >= 10 {
      LeadingDigit(n / 10);
      assert Digits(n)[0] == Digits(n / 10)[0];
    }
  }

  lemma {:induction false} DigitsTooMany(n: nat, w: nat)
    requires n >= Pow10(w)
    ensures |Digits(n)| > w
    decreases w
  {
    if w > 0 {
      DigitsTooMany(n / 10, w - 1);
    }
  }

  /** A number too wide for its columns loses its last digits: what is left is another
      number, and not nothing. */
  lemma NumberCut(rec: Record, start: nat, end: nat, n: nat, numeric: bool)
    requires 1 <= start <= end <= |rec| && n >= Pow10(end - start + 1)
    ensures var w := end - start + 1;
            var v := AtoiOrZero(Get(Put(rec, start, end, Padded(n, w), numeric), start, end));
            1 <= v < n
  {
    hide TrimSpace, Pow10, Magnitude, Digits;
    var w := end - start + 1;
    DigitsTooMany(n, w);
    LeadingDigit(n);
    var s := Digits(n)[..w];
    assert Padded(n, w) == Digits(n);
    forall b | b in s ensures IsDigit(b) {
      assert b in Digits(n);
    }
    CleanCut(Digits(n), w);
    assert Fitted(Digits(n), w, numeric) == s;
    var rest := Slice(rec, start, end)[w..];
    assert rest == "" && s + rest == s;
    DigitsTrim(s);
    assert AllDigits(s);
    MagnitudeBound(s);
    MagnitudePositive(s);
  }

  lemma CleanCut(s: string, w: nat)
    requires w <= |s| && forall b | b in s :: ' ' <= b <= '~'
    ensures Cleaned(s)[..w] == s[..w]
  {
    CleanIsClean(s);
  }

  lemma AmountReads(rec: Record, start: nat, end: nat, v: int)
    requires 1 <= start <= end <= |rec| && Absolute(v) < Pow10(end - start + 1)
    ensures GetAmount(PutAmount(rec, start, end, v), start, end) == v
  {
    hide AmountOf, Overpunched, Pow10;
    var w := end - start + 1;
    AmountSurvivesExactly(v, w);
    var rest := Slice(rec, start, end)[w..];
    assert rest == "" && Overpunched(v, w) + rest == Overpunched(v, w);
  }

  /** Nothing but the identifier and its qualifier is written on a new record. */
  lemma BlankReads(id: string, qualifier: nat)
    requires |id| == 3 && qualifier < 100
    ensures |Blank(id, qualifier)| == RECORD_LEN
    ensures forall a: nat, b: nat | 14 <= a <= b <= RECORD_LEN :: Slice(Blank(id, qualifier), a, b) == Blanks(b - a + 1)
    ensures forall a: nat, b: nat | 4 <= a <= b <= 11 :: Slice(Blank(id, qualifier), a, b) == Blanks(b - a + 1)
  {
    hide Padded, Fitted;
    var empty := Blanks(RECORD_LEN);
    forall a: nat, b: nat | 1 <= a <= b <= RECORD_LEN ensures Slice(empty, a, b) == Blanks(b - a + 1) {
    }
  }

  // ---------------------------------------------------------------- what is kept of any value

  lemma {:induction false} TrimLeftOver(s: string, n: nat)
    ensures TrimLeft(s + Blanks(n)) == if TrimLeft(s) == "" then "" else TrimLeft(s) + Blanks(n)
    decreases |s|
  {
    if s == "" {
      assert s + Blanks(n) == Blanks(n);
      TrimLeftBlanks(n);
    } else if IsSpace(s[0]) {
      assert (s + Blanks(n))[1..] == s[1..] + Blanks(n);
      TrimLeftOver(s[1..], n);
    }
  }

  lemma {:induction false} TrimRightOver(s: string, n: nat)
    ensures TrimRight(s + Blanks(n)) == TrimRight(s)
    decreases n
  {
    if n == 0 {
      assert s + Blanks(0) == s;
    } else {
      var t := s + Blanks(n);
      assert t[..|t| - 1] == s + Blanks(n - 1);
      TrimRightOver(s, n - 1);
    }
  }

  /** Blanks behind a text do not matter to a reader. */
  lemma TrimOver(s: string, n: nat)
    ensures TrimSpace(s + Blanks(n)) == TrimSpace(s)
  {
    TrimLeftOver(s, n);
    TrimRightOver(TrimLeft(s), n);
  }

  /** What is read back of a text put into w blank columns. */
  function KeptText(s: string, w: nat): string {
    TrimSpace(Fitted(s, w, false))
  }

  /** And of one filled up with leading zeros. */
  function KeptWide(s: string, w: nat): string {
    TrimSpace(Fitted(s, w, true))
  }

  function KeptNumber(n: int, w: nat): int {
    AtoiOrZero(KeptText(Padded(n, w), w))
  }

  function KeptAmount(v: int, w: nat): int
    requires w >= 1
  {
    AmountOf(Overpunched(v, w))
  }

  lemma PutKeeps(rec: Record, start: nat, end: nat, s: string)
    requires 1 <= start <= end <= |rec| && BlankAt(rec, start, end)
    ensures Get(Put(rec, start, end, s, false), start, end) == KeptText(s, end - start + 1)
  {
    hide TrimSpace;
    var w := end - start + 1;
    var text := Fitted(s, w, false);
    assert Blanks(w)[|text|..] == Blanks(w - |text|);
    TrimOver(text, w - |text|);
  }

  lemma WidePutKeeps(rec: Record, start: nat, end: nat, s: string)
    requires 1 <= start <= end <= |rec|
    ensures Get(Put(rec, start, end, s, true), start, end) == KeptWide(s, end - start + 1)
  {
    hide TrimSpace;
    var w := end - start + 1;
    var text := Fitted(s, w, true);
    assert |text| == w;
    var rest := Slice(rec, start, end)[w..];
    assert text + rest == text;
  }

  lemma AmountPutKeeps(rec: Record, start: nat, end: nat, v: int)
    requires 1 <= start <= end <= |rec|
    ensures GetAmount(PutAmount(rec, start, end, v), start, end) == KeptAmount(v, end - start + 1)
  {
    hide AmountOf, Overpunched;
    var w := end - start + 1;
    var rest := Slice(rec, start, end)[w..];
    assert Overpunched(v, w) + rest == Overpunched(v, w);
  }

  lemma {:induction false} TrimmedWithin(s: string)
    ensures |TrimSpace(s)| <= |s| && forall b | b in TrimSpace(s) :: b in s
  {
    TrimLeftWithin(s);
    TrimRightEnds(TrimLeft(s));
  }

  lemma {:induction false} TrimLeftWithin(s: string)
    ensures |TrimLeft(s)| <= |s| && forall b | b in TrimLeft(s) :: b in s
    decreases |s|
  {
    if s != "" && IsSpace(s[0]) {
      TrimLeftWithin(s[1..]);
    }
  }

  /** A text survives w columns if and only if it is printable, has nothing to trim and fits. */
  lemma TextSurvivesExactly(s: string, w: nat)
    ensures KeptText(s, w) == s <==> Fits(s, w)
  {
    hide TrimSpace;
    var text := Fitted(s, w, false);
    TrimmedWithin(text);
    TrimTwice(text);
    if Fits(s, w) {
      CleanIsClean(s);
    } else {
      forall b | b in text ensures ' ' <= b <= '~' {
        FittedPrintable(s, w);
      }
    }
  }

  lemma FittedPrintable(s: string, w: nat)
    ensures forall b | b in Fitted(s, w, false) || b in Fitted(s, w, true) :: ' ' <= b <= '~'
  {
    var clean := Cleaned(s);
    assert forall b | b in clean :: ' ' <= b <= '~';
  }

  /** With leading zeros it must fill its columns as well. */
  lemma WideSurvivesExactly(s: string, w: nat)
    requires w >= 1
    ensures KeptWide(s, w) == s <==> Fits(s, w) && |s| == w
  {
    hide TrimSpace;
    var text := Fitted(s, w, true);
    TrimmedWithin(text);
    TrimTwice(text);
    FittedPrintable(s, w);
    if Fits(s, w) && |s| == w {
      CleanIsClean(s);
      assert Repeated('0', 0) + s == s;
    } else if KeptWide(s, w) == s && |s| < w {
      assert Fits(s, w);
      CleanIsClean(s);
      ZerosKeepTheirWidth(s, w);
    }
  }

  /** Leading zeros never go away. */
  lemma ZerosKeepTheirWidth(s: string, w: nat)
    requires |s| < w && TrimSpace(s) == s
    ensures |TrimSpace(Repeated('0', w - |s|) + s)| == w
  {
    var text := Repeated('0', w - |s|) + s;
    TrimmedBothEnds(s);
    assert text[0] == '0';
    if s == "" {
      assert text[|text| - 1] == '0';
    } else {
      TrimRightShortens(s[..|s| - 1]);
      assert text[|text| - 1] == s[|s| - 1] && !IsSpace(s[|s| - 1]);
    }
  }

  /** Room for a number's digits, and for its sign. */
  predicate NumberFits(n: int, w: nat) {
    if n >= 0 then n < Pow10(w) else w >= 1 && -n < Pow10(w - 1)
  }

  /** A number survives if and only if its columns have room for it. */
  lemma NumberSurvivesExactly(n: int, w: nat)
    requires w >= 1
    ensures KeptNumber(n, w) == n <==> NumberFits(n, w)
  {
    hide TrimSpace, Pow10, Magnitude;
    var rec := Blanks(w);
    assert BlankAt(rec, 1, w);
    PutKeeps(rec, 1, w, Padded(n, w));
    if n < 0 {
      NegativeKept(n, w);
    } else if n < Pow10(w) {
      NumberReads(rec, 1, w, n, false);
    } else {
      NumberCut(rec, 1, w, n, false);
    }
  }

  lemma PaddedNegative(n: int, w: int)
    requires n < 0
    ensures Padded(n, w) == "-" + Padded(-n, w - 1)
  {
    hide Itoa;
  }

  lemma PaddedValue(n: nat, w: nat)
    requires w >= 1 && n < Pow10(w)
    ensures |Padded(n, w)| == w && AllDigits(Padded(n, w)) && Magnitude(Padded(n, w)) == n
  {
    hide Pow10, Magnitude, Itoa;
    PaddedFits(n, w);
    LastDigitsValue(n, w);
    assert Padded(n, w) == LastDigits(n, w);
    ModUnique(n, Pow10(w), 0, n);
  }

  lemma PaddedTooWide(n: nat, w: nat)
    requires n >= Pow10(w)
    ensures |Padded(n, w)| > w && AllDigits(Padded(n, w))
  {
    hide Pow10;
    DigitsTooMany(n, w);
    assert Padded(n, w) == Digits(n);
  }

  lemma NegativeKept(n: int, w: nat)
    requires w >= 1 && n < 0
    ensures KeptNumber(n, w) == n <==> -n < Pow10(w - 1)
  {
    hide KeptText, Padded, Pow10, Magnitude, AllDigits, AtoiOrZero;
    PaddedNegative(n, w);
    var p := Padded(-n, w - 1);
    if -n >= Pow10(w - 1) {
      PaddedTooWide(-n, w - 1);
      SignedCut(p, w);
      MagnitudeBound(p[..w - 1]);
    } else if w == 1 {
      OneIsLeast(n);
    } else {
      PaddedValue(-n, w - 1);
      SignedReads(p, w);
    }
  }

  lemma OneIsLeast(n: int)
    requires n < 0
    ensures -n >= Pow10(0)
  {
  }

  lemma SignedReads(p: string, w: nat)
    requires AllDigits(p) && |p| + 1 == w
    ensures AtoiOrZero(KeptText("-" + p, w)) == 0 - Magnitude(p)
  {
    hide TrimSpace, Magnitude;
    var s := "-" + p;
    forall b | b in s ensures ' ' <= b <= '~' && !IsSpace(b) {
      assert b == '-' || b in p;
    }
    CleanIsClean(s);
    DigitsTrim(s);
    assert s[1..] == p && s[0] == '-' && !IsDigit('-');
  }

  lemma SignedCut(d: string, w: nat)
    requires AllDigits(d) && w >= 1 && |d| > w - 1
    ensures var cut := d[..w - 1];
            (forall b | b in cut :: IsDigit(b)) && AtoiOrZero(KeptText("-" + d, w)) == 0 - Magnitude(cut)
  {
    hide TrimSpace, Magnitude;
    var cut := d[..w - 1];
    forall b | b in cut ensures IsDigit(b) {
      assert b in d;
    }
    var s := "-" + d;
    forall b | b in s ensures ' ' <= b <= '~' {
      assert b == '-' || b in d;
    }
    CleanIsClean(s);
    assert s[..w] == "-" + cut;
    if w == 1 {
      DashAlone(s);
    } else {
      SignedReads(cut, w);
      SameFit(s, "-" + cut, w);
    }
  }

  lemma SameFit(s: string, t: string, w: nat)
    requires |s| >= w && |t| == w && s[..w] == t
    ensures KeptText(s, w) == KeptText(t, w)
  {
    var a, b := Cleaned(s), Cleaned(t);
    assert a[..w] == b && (|a| == w ==> a == b);
    assert Repeated('0', 0) == "";
  }

  lemma DashAlone(s: string)
    requires |s| >= 1 && s[0] == '-'
    ensures AtoiOrZero(KeptText(s, 1)) == 0 && Magnitude("") == 0
  {
    SameFit(s, "-", 1);
    assert Cleaned("-") == "-";
    assert KeptText("-", 1) == "-";
    assert !AllDigits("-") by {
      assert "-"[0] in "-";
    }
    assert "-"[1..] == "";
  }
}
