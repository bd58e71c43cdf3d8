/** A settlement file: reporting offices and their transactions, laid out as fixed-width
    records with totals, and read back. */
module HotFile {
  import opened Arithmetic
  import opened Wrappers
  import opened Decimal
  import opened HotRecord

  datatype Tax = Tax(code: string, amount: int)

  datatype Payment = Payment(kind: string, amount: int, account: string, remittance: int)

  /** A flight coupon. */
  datatype Coupon = Coupon(number: int, flight: string)

  /** A document with its amounts in minor units; dates are the six digits a record carries. */
  datatype Transaction = Transaction(
    code: string, issued: string, document: string, checkDigit: int, agent: string, system: string, locator: string,
    currency: string, fare: int, taxes: seq<Tax>, total: int, commissionRate: int, commission: int,
    related: string, original: string, coupons: seq<Coupon>, passenger: string, payments: seq<Payment>)

  datatype Office = Office(agent: string, period: string, currency: string, transactions: seq<Transaction>)

  datatype File = File(plan: string, airline: string, sequence: int, week: string, offices: seq<Office>)

  datatype Totals = Totals(gross: int, remittance: int, commission: int, taxes: int)

  const NO_TOTALS := Totals(0, 0, 0, 0)

  function Plus(a: Totals, b: Totals): Totals {
    Totals(a.gross + b.gross, a.remittance + b.remittance, a.commission + b.commission, a.taxes + b.taxes)
  }

  const CASH := "CA"

  // ---------------------------------------------------------------- what a transaction comes to

  function TaxSum(taxes: seq<Tax>): int {
    if taxes == [] then 0 else TaxSum(taxes[..|taxes| - 1]) + taxes[|taxes| - 1].amount
  }

  /** Divides by b, half away from nothing. */
  function RoundDiv(a: int, b: int): int
    requires b > 0
  {
    if a >= 0 then (a + b / 2) / b else -((-a + b / 2) / b)
  }

  /** The position of the last cash payment. */
  function LastCash(ps: seq<Payment>): (i: Option<nat>)
    ensures i.Some? ==> i.value < |ps| && ps[i.value].kind == CASH
  {
    if ps == [] then None
    else if ps[|ps| - 1].kind == CASH then Some(|ps| - 1)
    else LastCash(ps[..|ps| - 1])
  }

  function Unremitted(ps: seq<Payment>): (r: seq<Payment>)
    ensures |r| == |ps| && forall i | 0 <= i < |r| :: r[i] == ps[i].(remittance := 0)
  {
    seq(|ps|, i requires 0 <= i < |ps| => ps[i].(remittance := 0))
  }

  function TotalDue(t: Transaction): int {
    if t.total == 0 then t.fare + TaxSum(t.taxes) else t.total
  }

  function CommissionDue(t: Transaction): int {
    if t.commission == 0 && t.commissionRate != 0 then RoundDiv(t.fare * t.commissionRate, 10000) else t.commission
  }

  /** The payments with the remittance on the last cash one, which is added if missing. */
  function Remitted(ps: seq<Payment>, commission: int): (r: seq<Payment>)
    ensures r != [] && LastCash(r).Some?
  {
    var zero := Unremitted(ps);
    match LastCash(zero)
    case Some(i) =>
      LastCashKept(zero, i, zero[i].amount - commission);
      zero[i := zero[i].(remittance := zero[i].amount - commission)]
    case None =>
      var added := zero + [Payment(CASH, 0, "", 0 - commission)];
      assert added[|added| - 1].kind == CASH;
      added
  }

  lemma {:induction false} LastCashKept(ps: seq<Payment>, i: nat, remittance: int)
    requires LastCash(ps) == Some(i)
    ensures LastCash(ps[i := ps[i].(remittance := remittance)]) == Some(i)
    decreases |ps|
  {
    var next := ps[i := ps[i].(remittance := remittance)];
    if i < |ps| - 1 {
      assert next[..|ps| - 1] == ps[..|ps| - 1][i := ps[i].(remittance := remittance)];
      LastCashKept(ps[..|ps| - 1], i, remittance);
    }
  }

  /** With everything the handbook derives filled in. */
  function Computed(t: Transaction): Transaction {
    t.(total := TotalDue(t), commission := CommissionDue(t), payments := Remitted(t.payments, CommissionDue(t)))
  }

  function TotalsOf(t: Transaction): Totals {
    var c := Computed(t);
    Totals(c.total, c.payments[LastCash(c.payments).value].remittance, -c.commission, TaxSum(t.taxes))
  }

  function CurrencyOf(t: Transaction, o: Office): string {
    if t.currency == "" then o.currency else t.currency
  }

  // ---------------------------------------------------------------- records

  function Doc(t: Transaction, number: nat, id: string, qualifier: nat): (r: Record)
    requires |id| == 3 && qualifier < 100
    ensures |r| == RECORD_LEN
  {
    BlankReads(id, qualifier);
    var r0 := Blank(id, qualifier);
    var r1 := Put(r0, 14, 19, t.issued, false);
    var r2 := Put(r1, 20, 25, Padded(number, 6), false);
    var r3 := Put(r2, 26, 39, t.document, false);
    Put(r3, 40, 40, Itoa(t.checkDigit), false)
  }

  function Bkt06(t: Transaction, number: nat, count: nat): (r: Record)
    ensures |r| == RECORD_LEN
  {
    BlankReads("BKT", 6);
    var r0 := Blank("BKT", 6);
    var r1 := Put(r0, 14, 19, Padded(number, 6), false);
    var r2 := Put(r1, 25, 27, t.document[..Min(3, |t.document|)], false);
    var r3 := Put(r2, 65, 68, t.system, false);
    Put(r3, 22, 24, Padded(count, 3), false)
  }

  function Bks24(t: Transaction, number: nat): (r: Record)
    ensures |r| == RECORD_LEN
  {
    var r0 := Doc(t, number, "BKS", 24);
    var r1 := Put(r0, 48, 55, t.agent, true);
    var r2 := Put(r1, 72, 75, t.code, false);
    Put(r2, 86, 98, t.locator, false)
  }

  /** Three taxes a record; the columns of a missing tax hold no code and no amount. */
  function WithTax(rec: Record, taxes: seq<Tax>, i: nat, col: nat): (r: Record)
    requires |rec| == RECORD_LEN && 14 <= col <= RECORD_LEN - 18
    ensures |r| == RECORD_LEN
  {
    if i < |taxes| then PutAmount(Put(rec, col, col + 7, taxes[i].code, false), col + 8, col + 18, taxes[i].amount)
    else PutAmount(rec, col + 8, col + 18, 0)
  }

  /** Fare and total are on the first record only. */
  function WithFare(t: Transaction, number: nat, first: bool): (r: Record)
    ensures |r| == RECORD_LEN
  {
    var r0 := Doc(t, number, "BKS", 30);
    var r1 := PutAmount(r0, 41, 51, if first then t.fare else 0);
    var r2 := PutAmount(r1, 120, 130, if first then t.total else 0);
    PutAmount(r2, 52, 62, 0)
  }

  function WithTaxes(rec: Record, taxes: seq<Tax>): (r: Record)
    requires |rec| == RECORD_LEN
    ensures |r| == RECORD_LEN
  {
    WithTax(WithTax(WithTax(rec, taxes, 0, 63), taxes, 1, 82), taxes, 2, 101)
  }

  function Bks30(t: Transaction, number: nat, currency: string, taxes: seq<Tax>, first: bool): (r: Record)
    ensures |r| == RECORD_LEN
  {
    Put(WithTaxes(WithFare(t, number, first), taxes), 133, 136, currency, false)
  }

  function Bks30s(t: Transaction, number: nat, currency: string, taxes: seq<Tax>, first: bool): seq<Record>
    decreases |taxes|, first
  {
    if !first && taxes == [] then []
    else if |taxes| > 3 then [Bks30(t, number, currency, taxes, first)] + Bks30s(t, number, currency, taxes[3..], false)
    else [Bks30(t, number, currency, taxes, first)]
  }

  function Bks39(t: Transaction, number: nat, currency: string): (r: Record)
    ensures |r| == RECORD_LEN
  {
    var r0 := Doc(t, number, "BKS", 39);
    var r1 := Put(r0, 50, 54, Padded(t.commissionRate, 5), false);
    var r2 := PutAmount(r1, 55, 65, -t.commission);
    var r3 := Put(r2, 72, 76, "00000", false);
    var r4 := PutAmount(r3, 77, 87, 0);
    var r5 := Put(r4, 88, 92, Padded(t.commissionRate, 5), false);
    var r6 := PutAmount(r5, 93, 103, -t.commission);
    var r7 := PutAmount(r6, 104, 114, 0);
    Put(r7, 133, 136, currency, false)
  }

  /** The related document goes over the document's own columns. */
  function Bks45(t: Transaction, number: nat): (r: Record)
    ensures |r| == RECORD_LEN
  {
    Put(Doc(t, number, "BKS", 45), 26, 39, t.related, false)
  }

  function Bks46(t: Transaction, number: nat): (r: Record)
    ensures |r| == RECORD_LEN
  {
    Put(Doc(t, number, "BKS", 46), 41, 54, t.original, false)
  }

  function Bki63(t: Transaction, number: nat, c: Coupon): (r: Record)
    ensures |r| == RECORD_LEN
  {
    Put(Put(Doc(t, number, "BKI", 63), 41, 41, Itoa(c.number), false), 67, 71, c.flight, false)
  }

  function Bki63s(t: Transaction, number: nat, coupons: seq<Coupon>): seq<Record> {
    if coupons == [] then []
    else Bki63s(t, number, coupons[..|coupons| - 1]) + [Bki63(t, number, coupons[|coupons| - 1])]
  }

  function Bar64(t: Transaction, number: nat): (r: Record)
    ensures |r| == RECORD_LEN
  {
    Put(Doc(t, number, "BAR", 64), 53, 53, "/", false)
  }

  function Bar65(t: Transaction, number: nat): (r: Record)
    ensures |r| == RECORD_LEN
  {
    Put(Doc(t, number, "BAR", 65), 41, 89, t.passenger, false)
  }

  function Bkp84(t: Transaction, number: nat, currency: string, p: Payment): (r: Record)
    ensures |r| == RECORD_LEN
  {
    BlankReads("BKP", 84);
    var r0 := Blank("BKP", 84);
    var r1 := Put(r0, 14, 19, t.issued, false);
    var r2 := Put(r1, 20, 25, Padded(number, 6), false);
    var r3 := Put(r2, 26, 35, p.kind, false);
    var r4 := PutAmount(r3, 36, 46, p.amount);
    var r5 := Put(r4, 47, 65, p.account, false);
    var r6 := PutAmount(r5, 98, 108, p.remittance);
    Put(r6, 133, 136, currency, false)
  }

  function Bkp84s(t: Transaction, number: nat, currency: string, ps: seq<Payment>): seq<Record> {
    if ps == [] then []
    else Bkp84s(t, number, currency, ps[..|ps| - 1]) + [Bkp84(t, number, currency, ps[|ps| - 1])]
  }

  function FirstCash(ps: seq<Payment>): (i: nat)
    ensures i <= |ps| && (i < |ps| ==> ps[i].kind == CASH)
  {
    if ps == [] || ps[0].kind == CASH then 0 else 1 + FirstCash(ps[1..])
  }

  /** The first cash payment goes last. */
  function CashLast(ps: seq<Payment>): seq<Payment> {
    var i := FirstCash(ps);
    if i < |ps| then ps[..i] + ps[i + 1..] + [ps[i]] else ps
  }

  /** All but the header of a computed transaction. */
  function Details(t: Transaction, number: nat, currency: string): seq<Record> {
    [Bks24(t, number)]
    + Bks30s(t, number, currency, t.taxes, true)
    + [Bks39(t, number, currency)]
    + (if t.related != "" then [Bks45(t, number)] else [])
    + (if t.original != "" then [Bks46(t, number)] else [])
    + Bki63s(t, number, t.coupons)
    + [Bar64(t, number), Bar65(t, number)]
    + Bkp84s(t, number, currency, CashLast(t.payments))
  }

  function TransactionRecords(t: Transaction, number: nat, currency: string): seq<Record> {
    var details := Details(t, number, currency);
    [Bkt06(t, number, 1 + |details|)] + details
  }

  // ---------------------------------------------------------------- totals

  /** The totals of the first n transactions in a currency, and of one code when given. */
  function SumOf(o: Office, n: nat, currency: string, code: Option<string>): Totals
    requires n <= |o.transactions|
  {
    if n == 0 then NO_TOTALS
    else
      var t, before := o.transactions[n - 1], SumOf(o, n - 1, currency, code);
      if CurrencyOf(t, o) == currency && (code.None? || code.value == t.code) then Plus(before, TotalsOf(t)) else before
  }

  /** Currencies in the order they first appear. */
  function Currencies(o: Office, n: nat): seq<string>
    requires n <= |o.transactions|
  {
    if n == 0 then []
    else
      var before, currency := Currencies(o, n - 1), CurrencyOf(o.transactions[n - 1], o);
      if currency in before then before else before + [currency]
  }

  /** Code and currency, in the order they first appear. */
  function Codes(o: Office, n: nat): seq<(string, string)>
    requires n <= |o.transactions|
  {
    if n == 0 then []
    else
      var before, key := Codes(o, n - 1), (o.transactions[n - 1].code, CurrencyOf(o.transactions[n - 1], o));
      if key in before then before else before + [key]
  }

  /** The four sums of a total record, fifteen columns each. */
  function WithSums(rec: Record, start: nat, tot: Totals): (r: Record)
    requires |rec| == RECORD_LEN && 14 <= start <= RECORD_LEN - 59
    ensures |r| == RECORD_LEN
  {
    var r1 := PutAmount(rec, start, start + 14, tot.gross);
    var r2 := PutAmount(r1, start + 15, start + 29, tot.remittance);
    var r3 := PutAmount(r2, start + 30, start + 44, tot.commission);
    PutAmount(r3, start + 45, start + 59, tot.taxes)
  }

  function SubtotalRecord(o: Office, key: (string, string), tot: Totals): (r: Record)
    ensures |r| == RECORD_LEN
  {
    BlankReads("BOT", 93);
    var r1 := Put(Blank("BOT", 93), 14, 21, o.agent, true);
    var r2 := Put(r1, 22, 27, o.period, false);
    var r3 := Put(WithSums(r2, 28, tot), 88, 91, key.0, false);
    Put(PutAmount(r3, 92, 106, 0), 133, 136, key.1, false)
  }

  function TotalRecord(o: Office, currency: string, tot: Totals): (r: Record)
    ensures |r| == RECORD_LEN
  {
    BlankReads("BOT", 94);
    var r1 := Put(Blank("BOT", 94), 14, 21, o.agent, true);
    var r2 := Put(r1, 22, 27, o.period, false);
    Put(PutAmount(WithSums(r2, 28, tot), 88, 102, 0), 133, 136, currency, false)
  }

  function Bot93(o: Office, key: (string, string)): (r: Record)
    ensures |r| == RECORD_LEN
  {
    SubtotalRecord(o, key, SumOf(o, |o.transactions|, key.1, Some(key.0)))
  }

  function Bot94(o: Office, currency: string): (r: Record)
    ensures |r| == RECORD_LEN
  {
    TotalRecord(o, currency, SumOf(o, |o.transactions|, currency, None))
  }

  function Bot93s(o: Office, keys: seq<(string, string)>): (r: seq<Record>)
    ensures forall i | 0 <= i < |r| :: |r[i]| == RECORD_LEN
  {
    if keys == [] then [] else Bot93s(o, keys[..|keys| - 1]) + [Bot93(o, keys[|keys| - 1])]
  }

  function Bot94s(o: Office, currencies: seq<string>): (r: seq<Record>)
    ensures forall i | 0 <= i < |r| :: |r[i]| == RECORD_LEN
  {
    if currencies == [] then [] else Bot94s(o, currencies[..|currencies| - 1]) + [Bot94(o, currencies[|currencies| - 1])]
  }

  // ---------------------------------------------------------------- the file

  function Bfh01(f: File): (r: Record)
    ensures |r| == RECORD_LEN
  {
    BlankReads("BFH", 1);
    var r1 := Put(Blank("BFH", 1), 14, 16, f.plan, false);
    var r2 := Put(r1, 17, 19, f.airline, false);
    var r3 := Put(r2, 20, 22, "230", false);
    Put(r3, 39, 44, Padded(f.sequence, 6), false)
  }

  function Bch02(f: File): (r: Record)
    ensures |r| == RECORD_LEN
  {
    BlankReads("BCH", 2);
    Put(Blank("BCH", 2), 14, 16, f.week, false)
  }

  function Boh03(o: Office): (r: Record)
    ensures |r| == RECORD_LEN
  {
    BlankReads("BOH", 3);
    var r1 := Put(Blank("BOH", 3), 14, 21, o.agent, true);
    var r2 := Put(r1, 22, 27, o.period, false);
    Put(r2, 28, 31, o.currency, false)
  }

  /** The first n transactions of an office, numbered on from the file's. */
  function OfficeDetails(o: Office, before: nat, n: nat): seq<Record>
    requires n <= |o.transactions|
  {
    if n == 0 then []
    else
      var t := o.transactions[n - 1];
      OfficeDetails(o, before, n - 1) + TransactionRecords(Computed(t), before + n, CurrencyOf(t, o))
  }

  function OfficeRecords(o: Office, before: nat): seq<Record> {
    var n := |o.transactions|;
    [Boh03(o)] + OfficeDetails(o, before, n) + Bot93s(o, Codes(o, n)) + Bot94s(o, Currencies(o, n))
  }

  function Count(offices: seq<Office>): nat {
    if offices == [] then 0 else Count(offices[..|offices| - 1]) + |offices[|offices| - 1].transactions|
  }

  function OfficesRecords(offices: seq<Office>): seq<Record> {
    if offices == [] then []
    else
      var init := offices[..|offices| - 1];
      OfficesRecords(init) + OfficeRecords(offices[|offices| - 1], Count(init))
  }

  /** The cycle and file totals of a currency over all offices. */
  function CycleSum(offices: seq<Office>, currency: string): Totals {
    if offices == [] then NO_TOTALS
    else
      var o := offices[|offices| - 1];
      Plus(CycleSum(offices[..|offices| - 1], currency), SumOf(o, |o.transactions|, currency, None))
  }

  function Merged(seen: seq<string>, more: seq<string>): seq<string> {
    if more == [] then seen
    else
      var before, x := Merged(seen, more[..|more| - 1]), more[|more| - 1];
      if x in before then before else before + [x]
  }

  function CycleCurrencies(offices: seq<Office>): seq<string> {
    if offices == [] then []
    else
      var o := offices[|offices| - 1];
      Merged(CycleCurrencies(offices[..|offices| - 1]), Currencies(o, |o.transactions|))
  }

  function FootingRecord(id: string, qualifier: nat, name: string, nameEnd: nat, f: File, currency: string, tot: Totals): (r: Record)
    requires |id| == 3 && qualifier < 100 && 14 <= nameEnd <= 17
    ensures |r| == RECORD_LEN
  {
    BlankReads(id, qualifier);
    var r1 := Put(Blank(id, qualifier), 14, 16, name, false);
    var r2 := if nameEnd == 17 then Put(r1, 17, 17, "1", false) else r1;
    var r3 := Put(r2, nameEnd + 1, nameEnd + 5, Padded(|f.offices|, 5), false);
    var r4 := WithSums(r3, nameEnd + 6, tot);
    Put(PutAmount(r4, nameEnd + 66, nameEnd + 80, 0), 133, 136, currency, false)
  }

  function Footing(id: string, qualifier: nat, name: string, nameEnd: nat, f: File, currency: string): (r: Record)
    requires |id| == 3 && qualifier < 100 && 14 <= nameEnd <= 17
    ensures |r| == RECORD_LEN
  {
    FootingRecord(id, qualifier, name, nameEnd, f, currency, CycleSum(f.offices, currency))
  }

  function Bct95s(f: File, currencies: seq<string>): seq<Record> {
    if currencies == [] then []
    else Bct95s(f, currencies[..|currencies| - 1]) + [Footing("BCT", 95, f.week, 17, f, currencies[|currencies| - 1])]
  }

  function Bft99s(f: File, currencies: seq<string>): seq<Record> {
    if currencies == [] then []
    else Bft99s(f, currencies[..|currencies| - 1]) + [Footing("BFT", 99, f.plan, 16, f, currencies[|currencies| - 1])]
  }

  /** An empty file still foots, in no currency. */
  function FootingCurrencies(f: File): seq<string> {
    var currencies := CycleCurrencies(f.offices);
    if currencies == [] then [""] else currencies
  }

  function FileRecords(f: File): seq<Record> {
    var currencies := FootingCurrencies(f);
    [Bfh01(f), Bch02(f)] + OfficesRecords(f.offices) + Bct95s(f, currencies) + Bft99s(f, currencies)
  }

  /** A record with its number in the file. */
  function Stamped(rec: Record, n: nat): (r: Record)
    requires |rec| >= RECORD_LEN
    ensures |r| == |rec|
  {
    Put(rec, 4, 11, Padded(n, 8), true)
  }

  predicate AllRecords(recs: seq<Record>) {
    forall i | 0 <= i < |recs| :: |recs[i]| >= RECORD_LEN
  }

  function Written(recs: seq<Record>): (r: seq<Record>)
    requires AllRecords(recs)
    ensures |r| == |recs| && forall i | 0 <= i < |r| :: r[i] == Stamped(recs[i], i + 1)
  {
    seq(|recs|, i requires 0 <= i < |recs| => Stamped(recs[i], i + 1))
  }

  // ---------------------------------------------------------------- reading

  datatype Reader = Reader(file: File, tx: Option<Transaction>, stated: int, count: int, fragments: seq<string>)

  datatype ReadError = BadSequence | BadCount | NoOffice | NoTransaction | EmptyFile

  datatype Result = Read(reader: Reader) | Failed(error: ReadError)

  const START := Reader(File("", "", 0, "", []), None, 0, 0, [])

  const NEW := Transaction("", "", "", 0, "", "", "", "", 0, [], 0, 0, 0, "", "", [], "", [])

  /** The transaction in progress is filed, once its records are as many as it said. */
  function Finished(r: Reader): Result {
    if r.tx.None? || r.file.offices == [] then Read(r)
    else if r.stated != 0 && r.count != r.stated then Failed(BadCount)
    else
      var all := r.file.offices;
      var o := all[|all| - 1];
      Read(r.(file := r.file.(offices := all[|all| - 1 := o.(transactions := o.transactions + [r.tx.value])]), tx := None))
  }

  function TrimBlanks(s: string): string {
    if s != "" && s[|s| - 1] == ' ' then TrimBlanks(s[..|s| - 1]) else s
  }

  function IdOf(rec: Record): string
    requires |rec| >= RECORD_LEN
  {
    Get(rec, 1, 3) + Get(rec, 12, 13)
  }

  /** Whether a record is one of a transaction's own after its header. */
  predicate IsDetail(id: string) {
    ((|id| >= 2 && id[..2] == "BK") || (|id| >= 3 && id[..3] == "BAR")) && id != "BKT06"
  }

  function TaxAt(rec: Record, col: nat): seq<Tax>
    requires |rec| >= RECORD_LEN && 14 <= col <= RECORD_LEN - 18
  {
    if Get(rec, col, col + 7) != "" then [Tax(Get(rec, col, col + 7), GetAmount(rec, col + 8, col + 18))] else []
  }

  /** What one detail record adds to the transaction in progress. */
  function WithDetail(t: Transaction, id: string, rec: Record): Transaction
    requires |rec| >= RECORD_LEN
  {
    if id == "BKS24" then
      t.(issued := Get(rec, 14, 19), document := Get(rec, 26, 39), checkDigit := AtoiOrZero(Get(rec, 40, 40)), agent := Get(rec, 48, 55),
         code := Get(rec, 72, 75), locator := Get(rec, 86, 98))
    else if id == "BKS30" then
      var fare, total := GetAmount(rec, 41, 51), GetAmount(rec, 120, 130);
      t.(fare := if fare != 0 then fare else t.fare, total := if total != 0 then total else t.total,
         taxes := t.taxes + TaxAt(rec, 63) + TaxAt(rec, 82) + TaxAt(rec, 101), currency := Get(rec, 133, 136))
    else if id == "BKS39" then
      t.(commissionRate := AtoiOrZero(Get(rec, 50, 54)), commission := -GetAmount(rec, 55, 65))
    else if id == "BKS45" then t.(related := Get(rec, 26, 39))
    else if id == "BKS46" then t.(original := Get(rec, 41, 54))
    else if id == "BKI63" then t.(coupons := t.coupons + [Coupon(AtoiOrZero(Get(rec, 41, 41)), Get(rec, 67, 71))])
    else if id == "BAR65" then t.(passenger := Get(rec, 41, 89))
    else if id == "BKP84" then
      t.(payments := t.payments + [Payment(Get(rec, 26, 35), GetAmount(rec, 36, 46), Get(rec, 47, 65), GetAmount(rec, 98, 108))])
    else t
  }

  predicate IsKnownDetail(id: string) {
    id in ["BKS24", "BKS30", "BKS39", "BKS45", "BKS46", "BKI63", "BAR64", "BAR65", "BKP84"]
  }

  /** One record, apart from its number. */
  function Applied(r: Reader, rec: Record): Result
    requires |rec| >= RECORD_LEN
  {
    var id := IdOf(rec);
    var counted := if r.tx.Some? && IsDetail(id) then r.(count := r.count + 1) else r;
    if id == "BFH01" then
      Read(counted.(file := r.file.(plan := Get(rec, 14, 16), airline := Get(rec, 17, 19), sequence := AtoiOrZero(Get(rec, 39, 44)))))
    else if id == "BCH02" then Read(counted.(file := r.file.(week := Get(rec, 14, 16))))
    else if id == "BOH03" then
      match Finished(counted)
      case Failed(e) => Failed(e)
      case Read(done) =>
        Read(done.(file := done.file.(offices :=
          done.file.offices + [Office(Get(rec, 14, 21), Get(rec, 22, 27), Get(rec, 28, 31), [])])))
    else if id == "BKT06" then
      match Finished(counted)
      case Failed(e) => Failed(e)
      case Read(done) =>
        if done.file.offices == [] then Failed(NoOffice)
        else Read(done.(tx := Some(NEW.(system := Get(rec, 65, 68))), stated := AtoiOrZero(Get(rec, 22, 24)), count := 1))
    else if IsKnownDetail(id) then
      match counted.tx
      case None => if id == "BKS24" then Failed(NoTransaction) else Read(counted)
      case Some(t) => Read(counted.(tx := Some(WithDetail(t, id, rec))))
    else if id in ["BOT93", "BOT94", "BCT95", "BFT99"] then Finished(counted)
    else Read(counted.(fragments := counted.fragments + [TrimBlanks(rec)]))
  }

  function AppliedAll(r: Reader, recs: seq<Record>): Result
    requires AllRecords(recs)
  {
    if recs == [] then Read(r)
    else
      match AppliedAll(r, recs[..|recs| - 1])
      case Failed(e) => Failed(e)
      case Read(before) => Applied(before, recs[|recs| - 1])
  }

  /** A file is read record by record; each must carry its own position. */
  function ReadFrom(recs: seq<Record>): Result
    requires AllRecords(recs)
  {
    if recs == [] then Read(START)
    else
      var n := |recs|;
      match ReadFrom(recs[..n - 1])
      case Failed(e) => Failed(e)
      case Read(before) =>
        if AtoiOrZero(Get(recs[n - 1], 4, 11)) != n then Failed(BadSequence) else Applied(before, recs[n - 1])
  }

  function Parsed(recs: seq<Record>): Result
    requires AllRecords(recs)
  {
    match ReadFrom(recs)
    case Failed(e) => Failed(e)
    case Read(r) =>
      match Finished(r)
      case Failed(e) => Failed(e)
      case Read(done) => if recs == [] then Failed(EmptyFile) else Read(done)
  }

  function RemittanceSum(ps: seq<Payment>): int {
    if ps == [] then 0 else RemittanceSum(ps[..|ps| - 1]) + ps[|ps| - 1].remittance
  }

  /** What a reader sums up for an office's first n transactions. */
  function OfficeSum(ts: seq<Transaction>): Totals {
    if ts == [] then NO_TOTALS
    else
      var t := ts[|ts| - 1];
      Plus(OfficeSum(ts[..|ts| - 1]), Totals(t.total, RemittanceSum(t.payments), -t.commission, TaxSum(t.taxes)))
  }
}
