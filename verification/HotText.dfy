/** A settlement file as text: a record a line, and nothing in a record that could end one. */
module HotText {
  import opened Decimal
  import opened HotRecord
  import opened HotFile
  import opened HotColumns
  import opened HotRoundTrip
  import opened HotExact

  // ---------------------------------------------------------------- lines

  function TextOf(recs: seq<Record>): string {
    if recs == [] then "" else recs[0] + "\n" + TextOf(recs[1..])
  }

  function LineEnd(text: string): (i: nat)
    ensures i <= |text| && (i < |text| ==> text[i] == '\n')
    ensures forall k | 0 <= k < i :: text[k] != '\n'
  {
    if text == "" || text[0] == '\n' then 0 else 1 + LineEnd(text[1..])
  }

  /** The lines of a text, without what ends them; a last one need not be ended. */
  function Lines(text: string): seq<string> {
    if text == "" then []
    else
      var i := LineEnd(text);
      if i == |text| then [text] else [text[..i]] + Lines(text[i + 1..])
  }

  function WithoutReturns(line: string): string {
    if line != "" && line[|line| - 1] == '\r' then WithoutReturns(line[..|line| - 1]) else line
  }

  /** Empty lines are passed over and short ones filled with blanks. */
  function RecordsOf(lines: seq<string>): (r: seq<Record>)
    ensures AllRecords(r)
  {
    if lines == [] then []
    else
      var before, line := RecordsOf(lines[..|lines| - 1]), WithoutReturns(lines[|lines| - 1]);
      if line == "" then before else before + [line + Blanks(RECORD_LEN - |line|)]
  }

  function ParsedText(text: string): Result {
    Parsed(RecordsOf(Lines(text)))
  }

  // ---------------------------------------------------------------- what records hold

  predicate Printable(s: string) {
    forall b | b in s :: ' ' <= b <= '~'
  }

  lemma LaidPrintable(rec: Record, start: nat, end: nat, text: string)
    requires 1 <= start <= end <= |rec| && |text| <= end - start + 1 && Printable(rec) && Printable(text)
    ensures Printable(Laid(rec, start, end, text)) && |Laid(rec, start, end, text)| == |rec|
  {
    var a, c := rec[..start - 1], rec[start - 1 + |text|..];
    forall b | b in a || b in c ensures b in rec {
    }
    assert Laid(rec, start, end, text) == a + text + c;
  }

  lemma PutPrintable(rec: Record, start: nat, end: nat, s: string, numeric: bool)
    requires 1 <= start <= end <= |rec| && Printable(rec)
    ensures Printable(Put(rec, start, end, s, numeric)) && |Put(rec, start, end, s, numeric)| == |rec|
  {
    LaidPrintable(rec, start, end, Fitted(s, end - start + 1, numeric));
  }

  lemma AmountPrintable(rec: Record, start: nat, end: nat, v: int)
    requires 1 <= start <= end <= |rec| && Printable(rec)
    ensures Printable(PutAmount(rec, start, end, v)) && |PutAmount(rec, start, end, v)| == |rec|
  {
    OverpunchedPrintable(v, end - start + 1);
    LaidPrintable(rec, start, end, Overpunched(v, end - start + 1));
  }

  lemma OverpunchedPrintable(v: int, w: nat)
    requires w >= 1
    ensures Printable(Overpunched(v, w))
  {
    hide LastDigits;
    LastDigitsAreDigits(Absolute(v), w);
    var s := LastDigits(Absolute(v), w);
    assert s[w - 1] in s;
    var body, last := s[..w - 1], Punched(v < 0, s[w - 1]);
    assert Overpunched(v, w) == body + [last] && ' ' <= last <= '~';
    forall b | b in body ensures ' ' <= b <= '~' {
      assert b in s && IsDigit(b);
    }
  }

  lemma AnyPrintable()
    ensures forall rec: Record, start: nat, end: nat, s, numeric {:trigger Put(rec, start, end, s, numeric)} ::
      1 <= start <= end <= |rec| && Printable(rec)
      ==> Printable(Put(rec, start, end, s, numeric)) && |Put(rec, start, end, s, numeric)| == |rec|
    ensures forall rec: Record, start: nat, end: nat, v {:trigger PutAmount(rec, start, end, v)} ::
      1 <= start <= end <= |rec| && Printable(rec)
      ==> Printable(PutAmount(rec, start, end, v)) && |PutAmount(rec, start, end, v)| == |rec|
    ensures Printable(Blanks(RECORD_LEN)) && |Blanks(RECORD_LEN)| == RECORD_LEN
  {
    hide Put, PutAmount;
    forall rec: Record, start: nat, end: nat, s, numeric | 1 <= start <= end <= |rec| && Printable(rec)
      ensures Printable(Put(rec, start, end, s, numeric)) && |Put(rec, start, end, s, numeric)| == |rec|
    {
      PutPrintable(rec, start, end, s, numeric);
    }
    forall rec: Record, start: nat, end: nat, v | 1 <= start <= end <= |rec| && Printable(rec)
      ensures Printable(PutAmount(rec, start, end, v)) && |PutAmount(rec, start, end, v)| == |rec|
    {
      AmountPrintable(rec, start, end, v);
    }
  }

  predicate AllPrintable(recs: seq<Record>) {
    forall i | 0 <= i < |recs| :: |recs[i]| == RECORD_LEN && Printable(recs[i])
  }

  lemma {:induction false} TaxesPrintable(t: Transaction, number: nat, currency: string, taxes: seq<Tax>, first: bool)
    ensures AllPrintable(Bks30s(t, number, currency, taxes, first))
    decreases |taxes|, first
  {
    hide Put, PutAmount, Printable, Blanks, Padded;
    AnyPrintable();
    if |taxes| > 3 {
      TaxesPrintable(t, number, currency, taxes[3..], false);
    }
  }

  lemma {:induction false} CouponsPrintable(t: Transaction, number: nat, coupons: seq<Coupon>)
    ensures AllPrintable(Bki63s(t, number, coupons))
    decreases |coupons|
  {
    hide Put, Printable, Blanks, Padded;
    AnyPrintable();
    if coupons != [] {
      CouponsPrintable(t, number, coupons[..|coupons| - 1]);
    }
  }

  lemma {:induction false} PaymentsPrintable(t: Transaction, number: nat, currency: string, ps: seq<Payment>)
    ensures AllPrintable(Bkp84s(t, number, currency, ps))
    decreases |ps|
  {
    hide Put, PutAmount, Printable, Blanks, Padded;
    AnyPrintable();
    if ps != [] {
      PaymentsPrintable(t, number, currency, ps[..|ps| - 1]);
    }
  }

  lemma SinglesPrintable(t: Transaction, number: nat, currency: string, count: nat)
    ensures AllPrintable([Bkt06(t, number, count)]) && AllPrintable([Bks24(t, number)]) && AllPrintable([Bks39(t, number, currency)])
    ensures AllPrintable([Bks45(t, number)]) && AllPrintable([Bks46(t, number)])
    ensures AllPrintable([Bar64(t, number), Bar65(t, number)])
  {
    hide Put, PutAmount, Printable, Blanks, Padded;
    AnyPrintable();
  }

  lemma TransactionPrintable(t: Transaction, number: nat, currency: string)
    ensures AllPrintable(TransactionRecords(t, number, currency))
  {
    hide Bkt06, Bks24, Bks30s, Bks39, Bks45, Bks46, Bki63s, Bar64, Bar65, Bkp84s, Printable, CashLast;
    SinglesPrintable(t, number, currency, 1 + |Details(t, number, currency)|);
    TaxesPrintable(t, number, currency, t.taxes, true);
    CouponsPrintable(t, number, t.coupons);
    PaymentsPrintable(t, number, currency, CashLast(t.payments));
  }

  lemma {:induction false} DetailsPrintable(o: Office, before: nat, n: nat)
    requires n <= |o.transactions|
    ensures AllPrintable(OfficeDetails(o, before, n))
    decreases n
  {
    hide TransactionRecords, Printable, Computed;
    if n > 0 {
      DetailsPrintable(o, before, n - 1);
      TransactionPrintable(Computed(o.transactions[n - 1]), before + n, CurrencyOf(o.transactions[n - 1], o));
    }
  }

  lemma TotalPrintable(o: Office, key: (string, string), currency: string)
    ensures AllPrintable([Bot93(o, key)]) && AllPrintable([Bot94(o, currency)]) && AllPrintable([Boh03(o)])
  {
    hide Put, PutAmount, Printable, Blanks, Padded, SumOf;
    AnyPrintable();
  }

  lemma {:induction false} SubtotalsPrintable(o: Office, keys: seq<(string, string)>)
    ensures AllPrintable(Bot93s(o, keys))
    decreases |keys|
  {
    hide Bot93, Printable;
    if keys != [] {
      SubtotalsPrintable(o, keys[..|keys| - 1]);
      TotalPrintable(o, keys[|keys| - 1], "");
    }
  }

  lemma {:induction false} TotalsPrintable(o: Office, currencies: seq<string>)
    ensures AllPrintable(Bot94s(o, currencies))
    decreases |currencies|
  {
    hide Bot94, Printable;
    if currencies != [] {
      TotalsPrintable(o, currencies[..|currencies| - 1]);
      TotalPrintable(o, ("", ""), currencies[|currencies| - 1]);
    }
  }

  lemma OfficePrintable(o: Office, before: nat)
    ensures AllPrintable(OfficeRecords(o, before))
  {
    hide Boh03, Bot93, Bot94, OfficeDetails, Bot93s, Bot94s, Printable, Codes, Currencies;
    TotalPrintable(o, ("", ""), "");
    DetailsPrintable(o, before, |o.transactions|);
    SubtotalsPrintable(o, Codes(o, |o.transactions|));
    TotalsPrintable(o, Currencies(o, |o.transactions|));
  }

  lemma {:induction false} OfficesPrintable(offices: seq<Office>)
    ensures AllPrintable(OfficesRecords(offices))
    decreases |offices|
  {
    hide OfficeRecords, Printable;
    if offices != [] {
      var o, init := offices[|offices| - 1], offices[..|offices| - 1];
      OfficesPrintable(init);
      OfficePrintable(o, Count(init));
    }
  }

  lemma FootingPrintable(f: File, currency: string)
    ensures AllPrintable([Footing("BCT", 95, f.week, 17, f, currency)]) && AllPrintable([Footing("BFT", 99, f.plan, 16, f, currency)])
    ensures AllPrintable([Bfh01(f), Bch02(f)])
  {
    hide Put, PutAmount, Printable, Blanks, Padded, CycleSum;
    AnyPrintable();
  }

  lemma {:induction false} FootingsPrintable(f: File, currencies: seq<string>)
    ensures AllPrintable(Bct95s(f, currencies)) && AllPrintable(Bft99s(f, currencies))
    decreases |currencies|
  {
    hide Footing, Printable;
    if currencies != [] {
      FootingsPrintable(f, currencies[..|currencies| - 1]);
      FootingPrintable(f, currencies[|currencies| - 1]);
    }
  }

  /** No record of a written file holds anything but printable characters, whatever the fields held. */
  lemma FilePrintable(f: File)
    ensures AllPrintable(FileRecords(f)) && AllRecords(FileRecords(f)) && AllPrintable(Written(FileRecords(f)))
  {
    hide Bfh01, Bch02, OfficesRecords, Bct95s, Bft99s, Printable, Put, Padded;
    var recs := FileRecords(f);
    FootingPrintable(f, "");
    OfficesPrintable(f.offices);
    FootingsPrintable(f, FootingCurrencies(f));
    assert AllPrintable(recs);
    AnyPrintable();
  }

  // ---------------------------------------------------------------- there and back

  lemma LineEndHere(line: string, rest: string)
    requires forall b | b in line :: b != '\n'
    ensures LineEnd(line + "\n" + rest) == |line|
  {
    var text := line + "\n" + rest;
    forall k | 0 <= k < |line| ensures text[k] != '\n' {
      assert line[k] in line;
    }
    assert text[|line|] == '\n';
  }

  lemma {:induction false} LinesOfText(recs: seq<Record>)
    requires AllPrintable(recs)
    ensures Lines(TextOf(recs)) == recs
    decreases |recs|
  {
    if recs != [] {
      var rest := TextOf(recs[1..]);
      var text := recs[0] + "\n" + rest;
      LinesOfText(recs[1..]);
      LineEndHere(recs[0], rest);
      assert text[..|recs[0]|] == recs[0] && text[|recs[0]| + 1..] == rest;
    }
  }

  lemma {:induction false} RecordsOfLines(recs: seq<Record>)
    requires AllPrintable(recs)
    ensures RecordsOf(recs) == recs
    decreases |recs|
  {
    if recs != [] {
      var rec := recs[|recs| - 1];
      RecordsOfLines(recs[..|recs| - 1]);
      assert rec[|rec| - 1] in rec;
      assert rec + Blanks(0) == rec;
    }
  }

  /** What the text of a written file parses to is what its records do. */
  lemma TextParses(f: File)
    ensures AllRecords(FileRecords(f)) && ParsedText(TextOf(Written(FileRecords(f)))) == Parsed(Written(FileRecords(f)))
  {
    hide FileRecords, Written, Parsed, AllRecords, AllPrintable, Lines, TextOf, RecordsOf;
    FilePrintable(f);
    LinesOfText(Written(FileRecords(f)));
    RecordsOfLines(Written(FileRecords(f)));
  }

  /** Whether a text is accepted and says this file, and nothing besides. */
  ghost predicate Says(text: string, f: File) {
    var parsed := ParsedText(text);
    parsed.Read? && parsed.reader.file == f && parsed.reader.fragments == []
  }

  function TextOfFile(f: File): string {
    FileFull(f);
    TextOf(Written(FileRecords(f)))
  }

  /** The text of any file is accepted if and only if its transactions and records can be
      counted, and says the whole file, every transaction computed, if and only if every
      field fits its columns as well. */
  lemma TextReadsBackExactly(f: File)
    ensures ParsedText(TextOfFile(f)).Read? <==> FileCountable(f)
    ensures Says(TextOfFile(f), ReadFile(f)) <==> FileInRange(f)
    ensures FileCountable(f) ==> Says(TextOfFile(f), KeptFile(f))
  {
    hide FileRecords, FileCountable, FileInRange, ReadFile, KeptFile, ParsedText, Parsed, Written, TextOf, AllRecords;
    TextParses(f);
    AcceptedExactly(f);
    ReadsBackExactly(f);
    if FileCountable(f) {
      WrittenFileReads(f);
    }
  }
}
