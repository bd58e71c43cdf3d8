/** The columns and the order of what is written, those no reader of the file looks at
    included, and what each total record sums up. */
module HotLayout {
  import opened Arithmetic
  import opened Wrappers
  import opened Text
  import opened Decimal
  import opened HotRecord
  import opened HotFile
  import opened HotColumns

  // ---------------------------------------------------------------- columns

  /** The signs are punched as the handbook's table has them: a positive amount ends in one
      of the first ten characters, a negative one in one of the others, by its last digit. */
  lemma PunchTable(negative: bool, digit: nat)
    requires digit < 10
    ensures Punched(negative, DigitOf(digit)) == (if negative then "}JKLMNOPQR" else "{ABCDEFGHI")[digit]
  {
  }

  /** Columns count from one: text that fits stands in its columns, and no other character
      of the record changes. */
  lemma TextStands(rec: Record, start: nat, end: nat, s: string)
    requires 1 <= start <= end <= |rec| && |s| <= end - start + 1 && forall b | b in s :: ' ' <= b <= '~'
    ensures var r := Put(rec, start, end, s, false);
            && |r| == |rec| && (forall k | 0 <= k < |s| :: r[start - 1 + k] == s[k])
            && forall k | 0 <= k < |rec| && !(start - 1 <= k < start - 1 + |s|) :: r[k] == rec[k]
  {
    CleanIsClean(s);
    assert Put(rec, start, end, s, false) == rec[..start - 1] + s + rec[start - 1 + |s|..];
  }

  /** The day, the transaction's number and the document every document record carries. */
  ghost predicate Numbered(rec: Record, t: Transaction, number: nat)
    requires |rec| == RECORD_LEN
  {
    Get(rec, 14, 19) == KeptText(t.issued, 6) && AtoiOrZero(Get(rec, 20, 25)) == KeptNumber(number, 6)
  }

  lemma DocNumbered(t: Transaction, number: nat, id: string, qualifier: nat)
    requires |id| == 3 && Word(id) && qualifier < 100 && |Padded(qualifier, 2)| == 2 && Word(Padded(qualifier, 2))
    ensures Numbered(Doc(t, number, id, qualifier), t, number)
  {
    hide Padded, Fitted, Fits, TrimSpace, KeptText, KeptNumber, Put;
    BlankId(id, qualifier);
    var r0 := Blank(id, qualifier);
    TextStep(r0, 14, 19, t.issued);
    var r1 := Put(r0, 14, 19, t.issued, false);
    NumberStep(r1, 20, 25, number);
    var r2 := Put(r1, 20, 25, Padded(number, 6), false);
    AnyStep(r2, 26, 39, t.document, false);
    var r3 := Put(r2, 26, 39, t.document, false);
    AnyStep(r3, 40, 40, Itoa(t.checkDigit), false);
  }

  /** Later columns do not touch them. */
  lemma StillNumbered(rec: Record, next: Record, start: nat, end: nat, t: Transaction, number: nat)
    requires |rec| == RECORD_LEN && 26 <= start <= end && Else(rec, next, start, end) && Numbered(rec, t, number)
    ensures Numbered(next, t, number)
  {
    hide TrimSpace, KeptText, KeptNumber, Slice;
    assert Slice(next, 14, 19) == Slice(rec, 14, 19) && Slice(next, 20, 25) == Slice(rec, 20, 25);
  }

  /** Each record of a document is numbered, and a memo's related and original documents,
      coupons and bars stand where they should. */
  lemma DocumentsNumbered(t: Transaction, number: nat, c: Coupon)
    ensures Numbered(Bks24(t, number), t, number) && Numbered(Bks45(t, number), t, number) && Numbered(Bks46(t, number), t, number)
    ensures Numbered(Bki63(t, number, c), t, number) && Numbered(Bar64(t, number), t, number) && Numbered(Bar65(t, number), t, number)
    ensures Get(Bar64(t, number), 53, 53) == "/"
  {
    hide Padded, TrimSpace, Put, Doc, Numbered, Fits;
    Qualifiers();
    DocNumbered(t, number, "BKS", 24);
    DocNumbered(t, number, "BKS", 45);
    DocNumbered(t, number, "BKS", 46);
    DocNumbered(t, number, "BKI", 63);
    DocNumbered(t, number, "BAR", 64);
    DocNumbered(t, number, "BAR", 65);
    var r24 := Doc(t, number, "BKS", 24);
    OneText(r24, 48, 55, t.agent, true, t, number);
    OneText(Put(r24, 48, 55, t.agent, true), 72, 75, t.code, false, t, number);
    OneText(Put(Put(r24, 48, 55, t.agent, true), 72, 75, t.code, false), 86, 98, t.locator, false, t, number);
    OneText(Doc(t, number, "BKS", 45), 26, 39, t.related, false, t, number);
    OneText(Doc(t, number, "BKS", 46), 41, 54, t.original, false, t, number);
    var r63 := Doc(t, number, "BKI", 63);
    OneText(r63, 41, 41, Itoa(c.number), false, t, number);
    OneText(Put(r63, 41, 41, Itoa(c.number), false), 67, 71, c.flight, false, t, number);
    OneText(Doc(t, number, "BAR", 64), 53, 53, "/", false, t, number);
    OneText(Doc(t, number, "BAR", 65), 41, 89, t.passenger, false, t, number);
    DocReads(t, number, "BAR", 64);
    WordFits("/", 1);
    PutReads(Doc(t, number, "BAR", 64), 53, 53, "/");
  }

  lemma OneText(rec: Record, start: nat, end: nat, s: string, numeric: bool, t: Transaction, number: nat)
    requires |rec| == RECORD_LEN && 26 <= start <= end <= RECORD_LEN && Numbered(rec, t, number)
    ensures Numbered(Put(rec, start, end, s, numeric), t, number) && |Put(rec, start, end, s, numeric)| == RECORD_LEN
  {
    hide Put, Numbered;
    AnyStep(rec, start, end, s, numeric);
    StillNumbered(rec, Put(rec, start, end, s, numeric), start, end, t, number);
  }

  lemma OneAmount(rec: Record, start: nat, end: nat, v: int, t: Transaction, number: nat)
    requires |rec| == RECORD_LEN && 26 <= start <= end <= RECORD_LEN && Numbered(rec, t, number)
    ensures Numbered(PutAmount(rec, start, end, v), t, number) && |PutAmount(rec, start, end, v)| == RECORD_LEN
  {
    hide PutAmount, Numbered;
    AnyAmountStep(rec, start, end, v);
    StillNumbered(rec, PutAmount(rec, start, end, v), start, end, t, number);
  }

  /** The amounts record repeats the number; so does the commission record, whose rate and
      amount stand twice, once as given and once as effective, in the file's currency. */
  lemma AmountsNumbered(t: Transaction, number: nat, currency: string, taxes: seq<Tax>, first: bool)
    ensures Numbered(Bks30(t, number, currency, taxes, first), t, number)
  {
    hide Padded, TrimSpace, Put, PutAmount, Doc, Numbered, WithTax;
    Qualifiers();
    DocNumbered(t, number, "BKS", 30);
    var r0 := Doc(t, number, "BKS", 30);
    OneAmount(r0, 41, 51, if first then t.fare else 0, t, number);
    var r1 := PutAmount(r0, 41, 51, if first then t.fare else 0);
    OneAmount(r1, 120, 130, if first then t.total else 0, t, number);
    OneAmount(PutAmount(r1, 120, 130, if first then t.total else 0), 52, 62, 0, t, number);
    var r3 := WithFare(t, number, first);
    OneTax(r3, taxes, 0, 63, t, number);
    OneTax(WithTax(r3, taxes, 0, 63), taxes, 1, 82, t, number);
    OneTax(WithTax(WithTax(r3, taxes, 0, 63), taxes, 1, 82), taxes, 2, 101, t, number);
    OneText(WithTaxes(r3, taxes), 133, 136, currency, false, t, number);
  }

  lemma OneTax(rec: Record, taxes: seq<Tax>, i: nat, col: nat, t: Transaction, number: nat)
    requires |rec| == RECORD_LEN && 26 <= col <= RECORD_LEN - 18 && Numbered(rec, t, number)
    ensures Numbered(WithTax(rec, taxes, i, col), t, number)
  {
    hide Put, PutAmount, Numbered;
    if i < |taxes| {
      OneText(rec, col, col + 7, taxes[i].code, false, t, number);
      OneAmount(Put(rec, col, col + 7, taxes[i].code, false), col + 8, col + 18, taxes[i].amount, t, number);
    } else {
      OneAmount(rec, col + 8, col + 18, 0, t, number);
    }
  }

  lemma CommissionStands(t: Transaction, number: nat, currency: string)
    ensures var r := Bks39(t, number, currency);
            && Numbered(r, t, number)
            && AtoiOrZero(Get(r, 50, 54)) == AtoiOrZero(Get(r, 88, 92)) == KeptNumber(t.commissionRate, 5)
            && GetAmount(r, 55, 65) == GetAmount(r, 93, 103) == KeptAmount(-t.commission, 11)
            && Get(r, 72, 76) == "00000" && GetAmount(r, 77, 87) == 0 && GetAmount(r, 104, 114) == 0
            && Get(r, 133, 136) == KeptText(currency, 4)
  {
    hide Padded, KeptText, KeptNumber, KeptAmount, TrimSpace, Doc, Put, PutAmount, Slice, AmountOf, Numbered, Fits;
    Qualifiers();
    NoAmount();
    DocReads(t, number, "BKS", 39);
    DocNumbered(t, number, "BKS", 39);
    var r0 := Doc(t, number, "BKS", 39);
    NumberStep(r0, 50, 54, t.commissionRate);
    OneText(r0, 50, 54, Padded(t.commissionRate, 5), false, t, number);
    var r1 := Put(r0, 50, 54, Padded(t.commissionRate, 5), false);
    AmountStep(r1, 55, 65, -t.commission);
    OneAmount(r1, 55, 65, -t.commission, t, number);
    var r2 := PutAmount(r1, 55, 65, -t.commission);
    WordFits("00000", 5);
    TextStep(r2, 72, 76, "00000");
    PutReads(r2, 72, 76, "00000");
    OneText(r2, 72, 76, "00000", false, t, number);
    var r3 := Put(r2, 72, 76, "00000", false);
    AmountStep(r3, 77, 87, 0);
    OneAmount(r3, 77, 87, 0, t, number);
    var r4 := PutAmount(r3, 77, 87, 0);
    NumberStep(r4, 88, 92, t.commissionRate);
    OneText(r4, 88, 92, Padded(t.commissionRate, 5), false, t, number);
    var r5 := Put(r4, 88, 92, Padded(t.commissionRate, 5), false);
    AmountStep(r5, 93, 103, -t.commission);
    OneAmount(r5, 93, 103, -t.commission, t, number);
    var r6 := PutAmount(r5, 93, 103, -t.commission);
    AmountStep(r6, 104, 114, 0);
    OneAmount(r6, 104, 114, 0, t, number);
    var r7 := PutAmount(r6, 104, 114, 0);
    TextStep(r7, 133, 136, currency);
    OneText(r7, 133, 136, currency, false, t, number);
  }

  /** A payment is numbered too, and stands in the file's currency. */
  lemma PaymentStands(t: Transaction, number: nat, currency: string, p: Payment)
    ensures var r := Bkp84(t, number, currency, p); Numbered(r, t, number) && Get(r, 133, 136) == KeptText(currency, 4)
  {
    hide Padded, KeptText, KeptNumber, TrimSpace, Put, PutAmount, Slice, AmountOf, Numbered;
    Qualifiers();
    BlankId("BKP", 84);
    var r0 := Blank("BKP", 84);
    TextStep(r0, 14, 19, t.issued);
    var r1 := Put(r0, 14, 19, t.issued, false);
    NumberStep(r1, 20, 25, number);
    var r2 := Put(r1, 20, 25, Padded(number, 6), false);
    assert Numbered(r2, t, number) by {
      JustNumbered(r0, t, number);
    }
    AnyStep(r2, 26, 35, p.kind, false);
    OneText(r2, 26, 35, p.kind, false, t, number);
    var r3 := Put(r2, 26, 35, p.kind, false);
    AnyAmountStep(r3, 36, 46, p.amount);
    OneAmount(r3, 36, 46, p.amount, t, number);
    var r4 := PutAmount(r3, 36, 46, p.amount);
    AnyStep(r4, 47, 65, p.account, false);
    OneText(r4, 47, 65, p.account, false, t, number);
    var r5 := Put(r4, 47, 65, p.account, false);
    AnyAmountStep(r5, 98, 108, p.remittance);
    OneAmount(r5, 98, 108, p.remittance, t, number);
    var r6 := PutAmount(r5, 98, 108, p.remittance);
    TextStep(r6, 133, 136, currency);
    OneText(r6, 133, 136, currency, false, t, number);
  }

  lemma JustNumbered(r0: Record, t: Transaction, number: nat)
    requires |r0| == RECORD_LEN && BlankAt(r0, 14, 19) && BlankAt(r0, 20, 25)
    ensures Numbered(Put(Put(r0, 14, 19, t.issued, false), 20, 25, Padded(number, 6), false), t, number)
  {
    hide Padded, KeptText, KeptNumber, TrimSpace, Put, Slice;
    TextStep(r0, 14, 19, t.issued);
    var r1 := Put(r0, 14, 19, t.issued, false);
    NumberStep(r1, 20, 25, number);
  }

  /** A transaction's header has its number and the first three characters of its document. */
  lemma HeaderStands(t: Transaction, number: nat, count: nat)
    ensures var r := Bkt06(t, number, count);
            && AtoiOrZero(Get(r, 14, 19)) == KeptNumber(number, 6)
            && Get(r, 25, 27) == KeptText(if |t.document| > 3 then t.document[..3] else t.document, 3)
  {
    hide Padded, KeptText, KeptNumber, TrimSpace, Put, Slice;
    Qualifiers();
    BlankId("BKT", 6);
    var r0 := Blank("BKT", 6);
    var prefix := t.document[..if |t.document| > 3 then 3 else |t.document|];
    assert prefix == if |t.document| > 3 then t.document[..3] else t.document;
    NumberStep(r0, 14, 19, number);
    var r1 := Put(r0, 14, 19, Padded(number, 6), false);
    TextStep(r1, 25, 27, prefix);
    var r2 := Put(r1, 25, 27, prefix, false);
    AnyStep(r2, 65, 68, t.system, false);
    AnyStep(Put(r2, 65, 68, t.system, false), 22, 24, Padded(count, 3), false);
  }

  /** Subtotals and totals say whose they are, and a subtotal of which code. */
  lemma TotalsStand(o: Office, key: (string, string), currency: string)
    ensures var r := Bot93(o, key);
            Get(r, 14, 21) == KeptWide(o.agent, 8) && Get(r, 22, 27) == KeptText(o.period, 6) && Get(r, 88, 91) == KeptText(key.0, 4)
    ensures var r := Bot94(o, currency); Get(r, 14, 21) == KeptWide(o.agent, 8) && Get(r, 22, 27) == KeptText(o.period, 6)
  {
    SubtotalStands(o, key, SumOf(o, |o.transactions|, key.1, Some(key.0)));
    TotalStands(o, currency, SumOf(o, |o.transactions|, currency, None));
  }

  lemma SubtotalStands(o: Office, key: (string, string), tot: Totals)
    ensures var r := SubtotalRecord(o, key, tot);
            Get(r, 14, 21) == KeptWide(o.agent, 8) && Get(r, 22, 27) == KeptText(o.period, 6) && Get(r, 88, 91) == KeptText(key.0, 4)
  {
    hide Padded, TrimSpace, KeptText, KeptWide, Put, PutAmount, Slice, AmountOf, WithSums;
    Qualifiers();
    BlankId("BOT", 93);
    var r0 := Blank("BOT", 93);
    WideStep(r0, 14, 21, o.agent);
    var r1 := Put(r0, 14, 21, o.agent, true);
    TextStep(r1, 22, 27, o.period);
    var r2 := Put(r1, 22, 27, o.period, false);
    SumsStep(r2, 28, tot);
    var r3 := WithSums(r2, 28, tot);
    TextStep(r3, 88, 91, key.0);
    var r4 := Put(r3, 88, 91, key.0, false);
    AnyAmountStep(r4, 92, 106, 0);
    AnyStep(PutAmount(r4, 92, 106, 0), 133, 136, key.1, false);
  }

  lemma TotalStands(o: Office, currency: string, tot: Totals)
    ensures var r := TotalRecord(o, currency, tot); Get(r, 14, 21) == KeptWide(o.agent, 8) && Get(r, 22, 27) == KeptText(o.period, 6)
  {
    hide Padded, TrimSpace, KeptText, KeptWide, Put, PutAmount, Slice, AmountOf, WithSums;
    Qualifiers();
    BlankId("BOT", 94);
    var r0 := Blank("BOT", 94);
    WideStep(r0, 14, 21, o.agent);
    var r1 := Put(r0, 14, 21, o.agent, true);
    TextStep(r1, 22, 27, o.period);
    var r2 := Put(r1, 22, 27, o.period, false);
    SumsStep(r2, 28, tot);
    var r3 := WithSums(r2, 28, tot);
    AnyAmountStep(r3, 88, 102, 0);
    AnyStep(PutAmount(r3, 88, 102, 0), 133, 136, currency, false);
  }

  /** The file says which edition of the handbook it follows. */
  lemma EditionStands(f: File)
    ensures Get(Bfh01(f), 20, 22) == "230"
  {
    hide Padded, TrimSpace, Put, Slice, Fits;
    Qualifiers();
    BlankId("BFH", 1);
    var r0 := Blank("BFH", 1);
    TextStep(r0, 14, 16, f.plan);
    var r1 := Put(r0, 14, 16, f.plan, false);
    TextStep(r1, 17, 19, f.airline);
    var r2 := Put(r1, 17, 19, f.airline, false);
    WordFits("230", 3);
    PutReads(r2, 20, 22, "230");
    AnyStep(r2, 20, 22, "230", false);
    AnyStep(Put(r2, 20, 22, "230", false), 39, 44, Padded(f.sequence, 6), false);
  }

  /** The cycle totals name the week and the file totals the plan, and both count the
      offices. */
  lemma FootingsStand(f: File, currency: string)
    ensures var r := Footing("BCT", 95, f.week, 17, f, currency);
            Get(r, 14, 16) == KeptText(f.week, 3) && Get(r, 17, 17) == "1" && AtoiOrZero(Get(r, 18, 22)) == KeptNumber(|f.offices|, 5)
    ensures var r := Footing("BFT", 99, f.plan, 16, f, currency);
            Get(r, 14, 16) == KeptText(f.plan, 3) && AtoiOrZero(Get(r, 17, 21)) == KeptNumber(|f.offices|, 5)
  {
    hide Padded, TrimSpace, Put, PutAmount, Slice, Fits, KeptText, KeptNumber, CycleSum, AmountOf, WithSums, Footing, FootingRecord;
    Qualifiers();
    FootingStands("BCT", 95, f.week, 17, f, currency);
    FootingStands("BFT", 99, f.plan, 16, f, currency);
  }

  lemma FootingStands(id: string, qualifier: nat, name: string, nameEnd: nat, f: File, currency: string)
    requires |id| == 3 && Word(id) && qualifier < 100 && |Padded(qualifier, 2)| == 2 && Word(Padded(qualifier, 2))
    requires 16 <= nameEnd <= 17
    ensures var r := Footing(id, qualifier, name, nameEnd, f, currency);
            && Get(r, 14, 16) == KeptText(name, 3) && AtoiOrZero(Get(r, nameEnd + 1, nameEnd + 5)) == KeptNumber(|f.offices|, 5)
            && (nameEnd == 17 ==> Get(r, 17, 17) == "1")
  {
    hide Padded, TrimSpace, Put, PutAmount, Slice, CycleSum, AmountOf, WithSums, KeptText, KeptNumber, Fits;
    BlankId(id, qualifier);
    var tot, r0 := CycleSum(f.offices, currency), Blank(id, qualifier);
    TextStep(r0, 14, 16, name);
    var r1 := Put(r0, 14, 16, name, false);
    WordFits("1", 1);
    PutReads(r1, 17, 17, "1");
    AnyStep(r1, 17, 17, "1", false);
    var r2 := if nameEnd == 17 then Put(r1, 17, 17, "1", false) else r1;
    NumberStep(r2, nameEnd + 1, nameEnd + 5, |f.offices|);
    var r3 := Put(r2, nameEnd + 1, nameEnd + 5, Padded(|f.offices|, 5), false);
    SumsStep(r3, nameEnd + 6, tot);
    var r4 := WithSums(r3, nameEnd + 6, tot);
    AnyAmountStep(r4, nameEnd + 66, nameEnd + 80, 0);
    AnyStep(PutAmount(r4, nameEnd + 66, nameEnd + 80, 0), 133, 136, currency, false);
  }

  // ---------------------------------------------------------------- the order of records

  function Ids(recs: seq<Record>): (ids: seq<string>)
    requires AllRecords(recs)
    ensures |ids| == |recs| && forall i | 0 <= i < |recs| :: ids[i] == IdOf(recs[i])
  {
    seq(|recs|, i requires 0 <= i < |recs| => IdOf(recs[i]))
  }

  function Several(id: string, n: int): (ids: seq<string>)
    ensures |ids| == (if n > 0 then n else 0) && forall i | 0 <= i < |ids| :: ids[i] == id
  {
    seq(if n > 0 then n else 0, i requires 0 <= i => id)
  }

  /** The records of a transaction, by kind: one amounts record for every three taxes or
      part of three, and one at least. */
  function Kinds(t: Transaction): seq<string> {
    ["BKT06"] + KindsAfterHeader(t)
  }

  function KindsAfterHeader(t: Transaction): seq<string> {
    ["BKS24"] + Several("BKS30", if |t.taxes| == 0 then 1 else (|t.taxes| + 2) / 3) + ["BKS39"]
    + Several("BKS45", if t.related != "" then 1 else 0) + Several("BKS46", if t.original != "" then 1 else 0)
    + Several("BKI63", |t.coupons|) + ["BAR64", "BAR65"] + Several("BKP84", |t.payments|)
  }

  /** Records all of one kind. */
  ghost predicate AllOf(recs: seq<Record>, id: string, n: int) {
    |recs| == n && AllRecords(recs) && forall i | 0 <= i < |recs| :: IdOf(recs[i]) == id
  }

  lemma {:induction false} TaxRecordsAre(t: Transaction, number: nat, currency: string, taxes: seq<Tax>, first: bool)
    requires first || taxes != []
    ensures AllOf(Bks30s(t, number, currency, taxes, first), "BKS30", if |taxes| == 0 then 1 else (|taxes| + 2) / 3)
    decreases |taxes|
  {
    hide Bks30, IdOf;
    if |taxes| > 3 {
      TaxRecordsAre(t, number, currency, taxes[3..], false);
    }
    AmountsKind(t, number, currency, taxes, first);
  }

  /** Whatever taxes it holds, an amounts record is one. */
  lemma AmountsKind(t: Transaction, number: nat, currency: string, taxes: seq<Tax>, first: bool)
    ensures IdOf(Bks30(t, number, currency, taxes, first)) == "BKS30"
  {
    hide Put, WithTax, TrimSpace, Slice;
    var r0 := WithFare(t, number, first);
    FareReads(t, number, first);
    TaxElse(r0, taxes, 0, 63);
    TaxElse(WithTax(r0, taxes, 0, 63), taxes, 1, 82);
    TaxElse(WithTax(WithTax(r0, taxes, 0, 63), taxes, 1, 82), taxes, 2, 101);
    AnyStep(WithTaxes(r0, taxes), 133, 136, currency, false);
  }

  lemma TaxElse(rec: Record, taxes: seq<Tax>, i: nat, col: nat)
    requires |rec| == RECORD_LEN && 14 <= col <= RECORD_LEN - 18
    ensures Else(rec, WithTax(rec, taxes, i, col), col, col + 18)
  {
    hide Put, PutAmount, Slice;
    if i < |taxes| {
      AnyStep(rec, col, col + 7, taxes[i].code, false);
      AnyAmountStep(Put(rec, col, col + 7, taxes[i].code, false), col + 8, col + 18, taxes[i].amount);
    } else {
      AnyAmountStep(rec, col + 8, col + 18, 0);
    }
  }

  lemma {:induction false} CouponRecordsAre(t: Transaction, number: nat, coupons: seq<Coupon>)
    ensures AllOf(Bki63s(t, number, coupons), "BKI63", |coupons|)
    decreases |coupons|
  {
    hide Bki63, IdOf;
    if coupons != [] {
      CouponRecordsAre(t, number, coupons[..|coupons| - 1]);
      Bki63Reads(t, number, coupons[|coupons| - 1]);
    }
  }

  lemma {:induction false} PaymentRecordsAre(t: Transaction, number: nat, currency: string, ps: seq<Payment>)
    ensures AllOf(Bkp84s(t, number, currency, ps), "BKP84", |ps|)
    decreases |ps|
  {
    hide Bkp84, IdOf;
    if ps != [] {
      PaymentRecordsAre(t, number, currency, ps[..|ps| - 1]);
      Bkp84Reads(t, number, currency, ps[|ps| - 1]);
    }
  }

  lemma IdsOfSeveral(recs: seq<Record>, id: string, n: int)
    requires AllOf(recs, id, n)
    ensures AllRecords(recs) && Ids(recs) == Several(id, n)
  {
    hide IdOf;
  }

  lemma IdsConcat(xs: seq<Record>, ys: seq<Record>)
    requires AllRecords(xs) && AllRecords(ys)
    ensures AllRecords(xs + ys) && Ids(xs + ys) == Ids(xs) + Ids(ys)
  {
    hide IdOf;
  }

  lemma IdsOfParts(a: seq<Record>, b: seq<Record>, c: seq<Record>, d: seq<Record>,
                   e: seq<Record>, f: seq<Record>, g: seq<Record>, h: seq<Record>)
    requires AllRecords(a) && AllRecords(b) && AllRecords(c) && AllRecords(d)
    requires AllRecords(e) && AllRecords(f) && AllRecords(g) && AllRecords(h)
    ensures AllRecords(a + b + c + d + e + f + g + h)
    ensures Ids(a + b + c + d + e + f + g + h) == Ids(a) + Ids(b) + Ids(c) + Ids(d) + Ids(e) + Ids(f) + Ids(g) + Ids(h)
  {
    hide Ids, AllRecords;
    IdsConcat(a, b);
    IdsConcat(a + b, c);
    IdsConcat(a + b + c, d);
    IdsConcat(a + b + c + d, e);
    IdsConcat(a + b + c + d + e, f);
    IdsConcat(a + b + c + d + e + f, g);
    IdsConcat(a + b + c + d + e + f + g, h);
  }

  lemma DetailKinds(t: Transaction, number: nat, currency: string)
    ensures AllRecords(Details(t, number, currency))
    ensures Ids(Details(t, number, currency)) == KindsAfterHeader(t)
  {
    hide IdOf, Bks24, Bks30s, Bks39, Bks45, Bks46, Bki63s, Bar64, Bar65, Bkp84s, CashLast, Several, Ids, AllOf, AllRecords;
    CashLastLength(t.payments);
    TaxRecordsAre(t, number, currency, t.taxes, true);
    CouponRecordsAre(t, number, t.coupons);
    PaymentRecordsAre(t, number, currency, CashLast(t.payments));
    SingleKinds(t, number, currency);
    var r30, r63, r84 := Bks30s(t, number, currency, t.taxes, true), Bki63s(t, number, t.coupons), Bkp84s(t, number, currency, CashLast(t.payments));
    var r45 := if t.related != "" then [Bks45(t, number)] else [];
    var r46 := if t.original != "" then [Bks46(t, number)] else [];
    IdsOfSeveral(r30, "BKS30", if |t.taxes| == 0 then 1 else (|t.taxes| + 2) / 3);
    IdsOfSeveral(r45, "BKS45", if t.related != "" then 1 else 0);
    IdsOfSeveral(r46, "BKS46", if t.original != "" then 1 else 0);
    IdsOfSeveral(r63, "BKI63", |t.coupons|);
    IdsOfSeveral(r84, "BKP84", |t.payments|);
    IdsOfParts([Bks24(t, number)], r30, [Bks39(t, number, currency)], r45, r46, r63, [Bar64(t, number), Bar65(t, number)], r84);
  }

  /** A transaction is written as one header, then its records by kind in one order. */
  lemma RecordsInOrder(t: Transaction, number: nat, currency: string)
    ensures AllRecords(TransactionRecords(t, number, currency))
    ensures Ids(TransactionRecords(t, number, currency)) == Kinds(t)
  {
    hide IdOf, Bkt06, Details, KindsAfterHeader, Ids, AllOf, AllRecords;
    DetailKinds(t, number, currency);
    SingleKinds(t, number, currency);
    IdsConcat([Bkt06(t, number, 1 + |Details(t, number, currency)|)], Details(t, number, currency));
  }

  lemma SingleKinds(t: Transaction, number: nat, currency: string)
    ensures var head := [Bkt06(t, number, 1 + |Details(t, number, currency)|)]; AllRecords(head) && Ids(head) == ["BKT06"]
    ensures AllRecords([Bks24(t, number)]) && Ids([Bks24(t, number)]) == ["BKS24"]
    ensures AllRecords([Bks39(t, number, currency)]) && Ids([Bks39(t, number, currency)]) == ["BKS39"]
    ensures var bars := [Bar64(t, number), Bar65(t, number)]; AllRecords(bars) && Ids(bars) == ["BAR64", "BAR65"]
    ensures AllOf(if t.related != "" then [Bks45(t, number)] else [], "BKS45", if t.related != "" then 1 else 0)
    ensures AllOf(if t.original != "" then [Bks46(t, number)] else [], "BKS46", if t.original != "" then 1 else 0)
  {
    hide IdOf, Bkt06, Bks24, Bks39, Bks45, Bks46, Bar64, Bar65, Details, AllOf, AllRecords, Ids;
    var count := 1 + |Details(t, number, currency)|;
    Bkt06Reads(t, number, count);
    OneKind(Bkt06(t, number, count), "BKT06");
    Bks24Reads(t, number);
    OneKind(Bks24(t, number), "BKS24");
    Bks39Reads(t, number, currency);
    OneKind(Bks39(t, number, currency), "BKS39");
    BarsRead(t, number);
    OneKind(Bar64(t, number), "BAR64");
    OneKind(Bar65(t, number), "BAR65");
    IdsConcat([Bar64(t, number)], [Bar65(t, number)]);
    assert [Bar64(t, number)] + [Bar65(t, number)] == [Bar64(t, number), Bar65(t, number)];
    NoneOf("BKS45");
    NoneOf("BKS46");
    Bks46Reads(t, number);
    OneKind(Bks46(t, number), "BKS46");
    if t.related != "" {
      Bks45Reads(t, number);
      OneKind(Bks45(t, number), "BKS45");
    }
  }

  lemma OneKind(rec: Record, id: string)
    requires |rec| == RECORD_LEN && IdOf(rec) == id
    ensures AllRecords([rec]) && Ids([rec]) == [id] && AllOf([rec], id, 1)
  {
    hide IdOf;
  }

  lemma NoneOf(id: string)
    ensures AllOf([], id, 0)
  {
  }

  lemma CashLastLength(ps: seq<Payment>)
    ensures |CashLast(ps)| == |ps|
  {
  }

  /** The first cash payment is written last and the others keep their order. */
  lemma CashGoesLast(ps: seq<Payment>, i: nat)
    requires i < |ps| && ps[i].kind == "CA" && forall k | 0 <= k < i :: ps[k].kind != "CA"
    ensures CashLast(ps) == ps[..i] + ps[i + 1..] + [ps[i]]
  {
    FirstCashAt(ps, i);
  }

  lemma {:induction false} FirstCashAt(ps: seq<Payment>, i: nat)
    requires i < |ps| && ps[i].kind == "CA" && forall k | 0 <= k < i :: ps[k].kind != "CA"
    ensures FirstCash(ps) == i
    decreases |ps|
  {
    if i > 0 {
      FirstCashAt(ps[1..], i - 1);
    }
  }

  // ---------------------------------------------------------------- what a row sums up

  /** The sums of the transactions a row is for: those in its currency and, for a subtotal,
      of its code. */
  function RowOf(o: Office, ts: seq<Transaction>, currency: string, code: Option<string>): Totals {
    if ts == [] then Totals(0, 0, 0, 0)
    else
      var t, rest := ts[0], RowOf(o, ts[1..], currency, code);
      if (if t.currency != "" then t.currency else o.currency) == currency && code in {None, Some(t.code)} then
        Totals(rest.gross + TotalsOf(t).gross, rest.remittance + TotalsOf(t).remittance,
               rest.commission + TotalsOf(t).commission, rest.taxes + TotalsOf(t).taxes)
      else rest
  }

  lemma {:induction false} RowSnoc(o: Office, ts: seq<Transaction>, t: Transaction, currency: string, code: Option<string>)
    ensures var before := RowOf(o, ts, currency, code);
            RowOf(o, ts + [t], currency, code)
            == if (if t.currency != "" then t.currency else o.currency) == currency && code in {None, Some(t.code)} then
                 Totals(before.gross + TotalsOf(t).gross, before.remittance + TotalsOf(t).remittance,
                        before.commission + TotalsOf(t).commission, before.taxes + TotalsOf(t).taxes)
               else before
    decreases |ts|
  {
    hide TotalsOf;
    if ts == [] {
      assert [t][1..] == [];
    } else {
      assert (ts + [t])[1..] == ts[1..] + [t];
      RowSnoc(o, ts[1..], t, currency, code);
    }
  }

  lemma {:induction false} SumIsRow(o: Office, n: nat, currency: string, code: Option<string>)
    requires n <= |o.transactions|
    ensures SumOf(o, n, currency, code) == RowOf(o, o.transactions[..n], currency, code)
    decreases n
  {
    hide TotalsOf;
    if n > 0 {
      SumIsRow(o, n - 1, currency, code);
      RowSnoc(o, o.transactions[..n - 1], o.transactions[n - 1], currency, code);
      assert o.transactions[..n - 1] + [o.transactions[n - 1]] == o.transactions[..n];
    }
  }

  /** Each subtotal and total an office is written with sums up exactly the transactions of
      its currency and code, one row for each code and currency that occur. */
  lemma RowsAreSums(o: Office, key: (string, string))
    ensures var n := |o.transactions|;
            && Bot93(o, key) == SubtotalRecord(o, key, RowOf(o, o.transactions, key.1, Some(key.0)))
            && Bot94(o, key.1) == TotalRecord(o, key.1, RowOf(o, o.transactions, key.1, None))
            && (key in Codes(o, n) <==> exists i :: 0 <= i < n && key == (o.transactions[i].code, CurrencyOf(o.transactions[i], o)))
            && (key.1 in Currencies(o, n) <==> exists i :: 0 <= i < n && key.1 == CurrencyOf(o.transactions[i], o))
  {
    hide SubtotalRecord, TotalRecord, TotalsOf;
    var n := |o.transactions|;
    assert o.transactions[..n] == o.transactions;
    SumIsRow(o, n, key.1, Some(key.0));
    SumIsRow(o, n, key.1, None);
    KeysOccur(o, n, key);
  }

  lemma {:induction false} KeysOccur(o: Office, n: nat, key: (string, string))
    requires n <= |o.transactions|
    ensures key in Codes(o, n) <==> exists i :: 0 <= i < n && key == (o.transactions[i].code, CurrencyOf(o.transactions[i], o))
    ensures key.1 in Currencies(o, n) <==> exists i :: 0 <= i < n && key.1 == CurrencyOf(o.transactions[i], o)
    decreases n
  {
    if n > 0 {
      KeysOccur(o, n - 1, key);
    }
  }
}
