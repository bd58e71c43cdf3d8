/** What each record of a settlement file holds in its columns, as a reader finds it. */
module HotColumns {
  import opened Arithmetic
  import opened Wrappers
  import opened Sequences
  import opened Text
  import opened Decimal
  import opened HotRecord
  import opened HotFile

  // ---------------------------------------------------------------- what a reader makes of any fields

  /** A tax whose code leaves nothing in its columns is not read at all. */
  function KeptTax(x: Tax): (r: seq<Tax>)
    ensures |r| <= 1
  {
    if KeptText(x.code, 8) != "" then [Tax(KeptText(x.code, 8), KeptAmount(x.amount, 11))] else []
  }

  function KeptTaxes(taxes: seq<Tax>): (r: seq<Tax>)
    ensures |r| <= |taxes|
  {
    if taxes == [] then [] else KeptTaxes(taxes[..|taxes| - 1]) + KeptTax(taxes[|taxes| - 1])
  }

  function KeptCoupon(c: Coupon): Coupon {
    Coupon(KeptNumber(c.number, 1), KeptText(c.flight, 5))
  }

  function KeptCoupons(coupons: seq<Coupon>): (r: seq<Coupon>)
    ensures |r| == |coupons| && forall i | 0 <= i < |r| :: r[i] == KeptCoupon(coupons[i])
  {
    seq(|coupons|, i requires 0 <= i < |coupons| => KeptCoupon(coupons[i]))
  }

  function KeptPayment(p: Payment): Payment {
    Payment(KeptText(p.kind, 10), KeptAmount(p.amount, 11), KeptText(p.account, 19), KeptAmount(p.remittance, 11))
  }

  function KeptPayments(ps: seq<Payment>): (r: seq<Payment>)
    ensures |r| == |ps| && forall i | 0 <= i < |r| :: r[i] == KeptPayment(ps[i])
  {
    seq(|ps|, i requires 0 <= i < |ps| => KeptPayment(ps[i]))
  }

  /** The related document, with what it leaves uncovered of the document under it. */
  function KeptRelated(related: string, document: string): string {
    if related == "" then ""
    else
      var over, under := Fitted(related, 14, false), Fitted(document, 14, false);
      TrimSpace(over + (if |over| < |under| then under[|over|..] else ""))
  }

  /** What a reader makes of a written transaction, whatever its fields hold. */
  function Kept(t: Transaction, currency: string): Transaction {
    Transaction(KeptText(t.code, 4), KeptText(t.issued, 6), KeptText(t.document, 14), KeptNumber(t.checkDigit, 1),
                KeptWide(t.agent, 8), KeptText(t.system, 4), KeptText(t.locator, 13), KeptText(currency, 4),
                KeptAmount(t.fare, 11), KeptTaxes(t.taxes), KeptAmount(t.total, 11), KeptNumber(t.commissionRate, 5),
                -KeptAmount(-t.commission, 11), KeptRelated(t.related, t.document),
                if t.original == "" then "" else KeptText(t.original, 14), KeptCoupons(t.coupons),
                KeptText(t.passenger, 49), KeptPayments(CashLast(t.payments)))
  }

  // ---------------------------------------------------------------- fields in range

  /** An amount of eleven columns. */
  predicate Amount(v: int) {
    Absolute(v) < Pow10(11)
  }

  predicate TaxInRange(x: Tax) {
    x.code != "" && Fits(x.code, 8) && Amount(x.amount)
  }

  predicate PaymentInRange(p: Payment) {
    Fits(p.kind, 10) && Fits(p.account, 19) && Amount(p.amount) && Amount(p.remittance)
  }

  predicate CouponInRange(c: Coupon) {
    NumberFits(c.number, 1) && Fits(c.flight, 5)
  }

  /** The related document is written over the document, so it must cover it. */
  predicate TextsInRange(t: Transaction) {
    && Fits(t.issued, 6) && Fits(t.document, 14) && NumberFits(t.checkDigit, 1) && Fits(t.code, 4)
    && Fits(t.agent, 8) && |t.agent| == 8 && Fits(t.system, 4) && Fits(t.locator, 13)
    && Fits(t.passenger, 49) && Fits(t.original, 14)
    && Fits(t.related, 14) && (t.related != "" ==> |t.related| >= |t.document|)
  }

  predicate MoneyInRange(t: Transaction, currency: string) {
    && Fits(currency, 4) && Amount(t.fare) && Amount(t.total) && Amount(t.commission) && NumberFits(t.commissionRate, 5)
  }

  predicate ListsInRange(t: Transaction) {
    && (forall i | 0 <= i < |t.taxes| :: TaxInRange(t.taxes[i]))
    && (forall i | 0 <= i < |t.coupons| :: CouponInRange(t.coupons[i]))
    && (forall i | 0 <= i < |t.payments| :: PaymentInRange(t.payments[i]))
  }

  /** A computed transaction in a currency, each of its fields as wide as its columns. */
  predicate FieldsInRange(t: Transaction, currency: string) {
    TextsInRange(t) && MoneyInRange(t, currency) && ListsInRange(t)
  }

  /** The header counts a transaction's records in three digits. */
  predicate Countable(t: Transaction, currency: string) {
    1 + |Details(t, 0, currency)| < Pow10(3)
  }

  /** What should be read of a written transaction: all of it, its cash payment last. */
  function ReadBack(t: Transaction, currency: string): Transaction {
    t.(currency := currency, payments := CashLast(t.payments))
  }

  lemma TaxSurvivesExactly(x: Tax)
    ensures KeptTax(x) == [x] <==> TaxInRange(x)
  {
    hide KeptText, AmountOf, Overpunched, Fits, Pow10;
    TextSurvivesExactly(x.code, 8);
    AmountSurvivesExactly(x.amount, 11);
  }

  lemma {:induction false} TaxesSurviveExactly(taxes: seq<Tax>)
    ensures KeptTaxes(taxes) == taxes <==> forall i | 0 <= i < |taxes| :: TaxInRange(taxes[i])
    decreases |taxes|
  {
    hide KeptTax, TaxInRange;
    if taxes != [] {
      var init, x := taxes[..|taxes| - 1], taxes[|taxes| - 1];
      TaxesSurviveExactly(init);
      TaxSurvivesExactly(x);
      assert taxes == init + [x];
      if |KeptTax(x)| == 1 {
        assert KeptTax(x) == [KeptTax(x)[0]];
        LastOfEqual(KeptTaxes(init), KeptTax(x)[0], init, x);
      }
    }
  }

  lemma LastOfEqual<T>(xs: seq<T>, x: T, ys: seq<T>, y: T)
    ensures xs + [x] == ys + [y] <==> xs == ys && x == y
  {
    if xs + [x] == ys + [y] {
      assert xs == (xs + [x])[..|xs|] && (xs + [x])[|xs|] == x;
    }
  }

  lemma CouponsSurviveExactly(coupons: seq<Coupon>)
    ensures KeptCoupons(coupons) == coupons <==> forall i | 0 <= i < |coupons| :: CouponInRange(coupons[i])
  {
    hide KeptNumber, KeptText, Fits, NumberFits;
    forall i | 0 <= i < |coupons| ensures KeptCoupon(coupons[i]) == coupons[i] <==> CouponInRange(coupons[i]) {
      NumberSurvivesExactly(coupons[i].number, 1);
      TextSurvivesExactly(coupons[i].flight, 5);
    }
  }

  lemma PaymentSurvivesExactly(p: Payment)
    ensures KeptPayment(p) == p <==> PaymentInRange(p)
  {
    hide KeptText, AmountOf, Overpunched, Fits, Pow10;
    TextSurvivesExactly(p.kind, 10);
    AmountSurvivesExactly(p.amount, 11);
    TextSurvivesExactly(p.account, 19);
    AmountSurvivesExactly(p.remittance, 11);
  }

  lemma PaymentsSurviveExactly(ps: seq<Payment>)
    ensures KeptPayments(ps) == ps <==> forall i | 0 <= i < |ps| :: PaymentInRange(ps[i])
  {
    hide KeptPayment, PaymentInRange;
    forall i | 0 <= i < |ps| ensures KeptPayment(ps[i]) == ps[i] <==> PaymentInRange(ps[i]) {
      PaymentSurvivesExactly(ps[i]);
    }
    var kept := KeptPayments(ps);
    assert kept == ps <==> forall i | 0 <= i < |ps| :: kept[i] == ps[i];
  }

  /** Moving the cash payment leaves the same payments. */
  lemma CashLastMembers(ps: seq<Payment>)
    ensures (forall i | 0 <= i < |ps| :: PaymentInRange(ps[i]))
       <==> (forall i | 0 <= i < |CashLast(ps)| :: PaymentInRange(CashLast(ps)[i]))
  {
    hide PaymentInRange, FirstCash;
    var qs := CashLast(ps);
    forall i | 0 <= i < |ps| ensures ps[i] in qs && qs[i] in ps {
      var k := FirstCash(ps);
      if k < |ps| {
        assert qs[if i < k then i else if i == k then |ps| - 1 else i - 1] == ps[i];
        assert ps[if i < k then i else if i == |ps| - 1 then k else i + 1] == qs[i];
      }
    }
    AllIn(ps, qs);
    AllIn(qs, ps);
  }

  lemma AllIn(ps: seq<Payment>, qs: seq<Payment>)
    requires forall i | 0 <= i < |ps| :: ps[i] in qs
    ensures (forall i | 0 <= i < |qs| :: PaymentInRange(qs[i])) ==> forall i | 0 <= i < |ps| :: PaymentInRange(ps[i])
  {
    hide PaymentInRange;
  }

  /** The related document is read back if and only if it covers the document it is
      written over: a shorter one keeps the document's tail. */
  lemma RelatedSurvivesExactly(related: string, document: string)
    requires Fits(document, 14)
    ensures KeptRelated(related, document) == related
       <==> Fits(related, 14) && (related != "" ==> |related| >= |document|)
  {
    hide TrimSpace;
    if related == "" {
      NothingToTrim();
    } else {
      var over := Fitted(related, 14, false);
      CleanIsClean(document);
      var all := over + (if |over| < |document| then document[|over|..] else "");
      TrimmedWithin(all);
      TrimTwice(all);
      FittedPrintable(related, 14);
      RelatedPrintable(over, document);
      if Fits(related, 14) {
        CleanIsClean(related);
        if |related| < |document| {
          OverlaidTrims(related, document);
        } else {
          assert all == related;
        }
      }
    }
  }

  lemma NothingToTrim()
    ensures TrimSpace("") == ""
  {
  }

  lemma RelatedPrintable(over: string, document: string)
    requires (forall b | b in over :: ' ' <= b <= '~') && (forall b | b in document :: ' ' <= b <= '~')
    ensures var all := over + (if |over| < |document| then document[|over|..] else "");
            forall b | b in all :: ' ' <= b <= '~'
  {
    var rest := if |over| < |document| then document[|over|..] else "";
    forall b | b in over + rest ensures ' ' <= b <= '~' {
      assert b in over || (b in rest && b in document);
    }
  }

  lemma OverlaidTrims(s: string, over: string)
    requires TrimSpace(s) == s && s != "" && TrimSpace(over) == over && |s| < |over|
    ensures TrimSpace(s + over[|s|..]) == s + over[|s|..]
  {
    TrimmedBothEnds(s);
    TrimmedBothEnds(over);
    TrimLeftShortens(s[1..]);
    TrimRightShortens(over[..|over| - 1]);
    var both := s + over[|s|..];
    assert both[0] == s[0] && both[|both| - 1] == over[|over| - 1];
  }

  lemma TextsSurviveExactly(t: Transaction, currency: string)
    ensures var k := Kept(t, currency);
            (&& k.issued == t.issued && k.document == t.document && k.checkDigit == t.checkDigit && k.code == t.code
             && k.agent == t.agent && k.system == t.system && k.locator == t.locator && k.passenger == t.passenger
             && k.original == t.original && k.related == t.related) <==> TextsInRange(t)
  {
    hide KeptText, KeptWide, KeptNumber, KeptAmount, KeptTaxes, KeptCoupons, KeptPayments, KeptRelated, Fits, NumberFits, CashLast;
    TextSurvivesExactly(t.issued, 6);
    TextSurvivesExactly(t.document, 14);
    NumberSurvivesExactly(t.checkDigit, 1);
    TextSurvivesExactly(t.code, 4);
    WideSurvivesExactly(t.agent, 8);
    TextSurvivesExactly(t.system, 4);
    TextSurvivesExactly(t.locator, 13);
    TextSurvivesExactly(t.passenger, 49);
    TextSurvivesExactly(t.original, 14);
    NothingFits();
    if Fits(t.document, 14) {
      RelatedSurvivesExactly(t.related, t.document);
    }
  }

  lemma NothingFits()
    ensures Fits("", 14)
  {
  }

  lemma MoneySurvivesExactly(t: Transaction, currency: string)
    ensures (&& KeptText(currency, 4) == currency && KeptAmount(t.fare, 11) == t.fare && KeptAmount(t.total, 11) == t.total
             && -KeptAmount(-t.commission, 11) == t.commission && KeptNumber(t.commissionRate, 5) == t.commissionRate)
       <==> MoneyInRange(t, currency)
  {
    hide KeptText, AmountOf, Overpunched, KeptNumber, Fits, NumberFits, Pow10;
    TextSurvivesExactly(currency, 4);
    AmountSurvivesExactly(t.fare, 11);
    AmountSurvivesExactly(t.total, 11);
    AmountSurvivesExactly(-t.commission, 11);
    NumberSurvivesExactly(t.commissionRate, 5);
  }

  lemma ListsSurviveExactly(t: Transaction)
    ensures (&& KeptTaxes(t.taxes) == t.taxes && KeptCoupons(t.coupons) == t.coupons
             && KeptPayments(CashLast(t.payments)) == CashLast(t.payments))
       <==> ListsInRange(t)
  {
    hide KeptTaxes, KeptCoupons, KeptPayments, CashLast, TaxInRange, CouponInRange, PaymentInRange;
    TaxesSurviveExactly(t.taxes);
    CouponsSurviveExactly(t.coupons);
    PaymentsSurviveExactly(CashLast(t.payments));
    CashLastMembers(t.payments);
  }

  /** A transaction is read back whole if and only if every field fits its columns. */
  lemma FieldsSurviveExactly(t: Transaction, currency: string)
    ensures Kept(t, currency) == ReadBack(t, currency) <==> FieldsInRange(t, currency)
  {
    hide KeptText, KeptWide, KeptNumber, KeptAmount, KeptTaxes, KeptCoupons, KeptPayments, KeptRelated, CashLast,
         TextsInRange, MoneyInRange, ListsInRange;
    TextsSurviveExactly(t, currency);
    MoneySurvivesExactly(t, currency);
    ListsSurviveExactly(t);
  }

  // ---------------------------------------------------------------- columns of each record

  lemma TwoDigits(n: nat)
    requires n < 100
    ensures Padded(n, 2) == [DigitOf(n / 10), DigitOf(n % 10)]
  {
    if n >= 10 {
      PrintedSnoc(n);
    }
  }

  lemma Qualifiers()
    ensures Padded(6, 2) == "06" && Padded(24, 2) == "24" && Padded(30, 2) == "30" && Padded(39, 2) == "39"
    ensures Padded(45, 2) == "45" && Padded(46, 2) == "46" && Padded(63, 2) == "63" && Padded(64, 2) == "64"
    ensures Padded(65, 2) == "65" && Padded(84, 2) == "84"
    ensures Padded(1, 2) == "01" && Padded(2, 2) == "02" && Padded(3, 2) == "03"
    ensures Padded(93, 2) == "93" && Padded(94, 2) == "94" && Padded(95, 2) == "95" && Padded(99, 2) == "99"
  {
    hide Padded;
    forall n: nat | n < 100 ensures Padded(n, 2) == [DigitOf(n / 10), DigitOf(n % 10)] {
      TwoDigits(n);
    }
  }

  predicate Word(s: string) {
    s != "" && forall b | b in s :: '!' <= b <= '~'
  }

  lemma WordFits(s: string, w: nat)
    requires Word(s) && |s| <= w
    ensures Fits(s, w)
  {
    DigitsTrim(s);
  }

  /** The identifier is where a reader looks for it. */
  lemma BlankId(id: string, qualifier: nat)
    requires |id| == 3 && Word(id) && qualifier < 100 && |Padded(qualifier, 2)| == 2 && Word(Padded(qualifier, 2))
    ensures |Blank(id, qualifier)| == RECORD_LEN && IdOf(Blank(id, qualifier)) == id + Padded(qualifier, 2)
    ensures forall a: nat, b: nat | 14 <= a <= b <= RECORD_LEN :: Slice(Blank(id, qualifier), a, b) == Blanks(b - a + 1)
  {
    hide Padded, Fitted, Fits, TrimSpace;
    BlankReads(id, qualifier);
    var empty := Blanks(RECORD_LEN);
    EmptyIsBlank(1, 3);
    EmptyIsBlank(12, 13);
    WordFits(id, 3);
    WordFits(Padded(qualifier, 2), 2);
    var r := Put(empty, 1, 3, id, false);
    PutReads(empty, 1, 3, id);
    PutReads(r, 12, 13, Padded(qualifier, 2));
  }

  lemma EmptyIsBlank(a: nat, b: nat)
    requires 1 <= a <= b <= RECORD_LEN
    ensures BlankAt(Blanks(RECORD_LEN), a, b)
  {
  }

  /** What every record of a document carries. */
  ghost predicate DocRead(t: Transaction, rec: Record, id: string)
    requires |rec| == RECORD_LEN
  {
    var under := Fitted(t.document, 14, false);
    && IdOf(rec) == id && Get(rec, 14, 19) == KeptText(t.issued, 6) && Get(rec, 26, 39) == KeptText(t.document, 14)
    && AtoiOrZero(Get(rec, 40, 40)) == KeptNumber(t.checkDigit, 1)
    && Slice(rec, 26, 39) == under + Blanks(14 - |under|)
    && (forall a: nat, b: nat | 41 <= a <= b <= RECORD_LEN :: Slice(rec, a, b) == Blanks(b - a + 1))
  }

  lemma OneDigit(rec: Record, col: nat, n: int)
    requires |rec| == RECORD_LEN && 1 <= col <= RECORD_LEN && BlankAt(rec, col, col)
    ensures AtoiOrZero(Get(Put(rec, col, col, Itoa(n), false), col, col)) == KeptNumber(n, 1)
  {
    hide TrimSpace;
    PutKeeps(rec, col, col, Itoa(n));
    ItoaLength(n);
    assert Padded(n, 1) == Itoa(n);
  }

  lemma ItoaLength(n: int)
    ensures |Itoa(n)| >= 1 && (n < 0 ==> Itoa(n) == "-" + Itoa(-n))
  {
  }

  /** Exactly what lies in the columns afterwards. */
  lemma PutLies(rec: Record, start: nat, end: nat, s: string)
    requires 1 <= start <= end <= |rec| && BlankAt(rec, start, end)
    ensures var text := Fitted(s, end - start + 1, false);
            Slice(Put(rec, start, end, s, false), start, end) == text + Blanks(end - start + 1 - |text|)
  {
    var w := end - start + 1;
    var text := Fitted(s, w, false);
    assert Blanks(w)[|text|..] == Blanks(w - |text|);
  }

  /** Columns no later text touches read as they did. */
  lemma DocReads(t: Transaction, number: nat, id: string, qualifier: nat)
    requires |id| == 3 && Word(id) && qualifier < 100 && |Padded(qualifier, 2)| == 2 && Word(Padded(qualifier, 2))
    ensures DocRead(t, Doc(t, number, id, qualifier), id + Padded(qualifier, 2))
  {
    hide Padded, Fitted, Fits, TrimSpace, KeptText, KeptNumber;
    BlankId(id, qualifier);
    var r0 := Blank(id, qualifier);
    var r1 := Put(r0, 14, 19, t.issued, false);
    var r2 := Put(r1, 20, 25, Padded(number, 6), false);
    var r3 := Put(r2, 26, 39, t.document, false);
    PutKeeps(r0, 14, 19, t.issued);
    PutKeeps(r2, 26, 39, t.document);
    PutLies(r2, 26, 39, t.document);
    OneDigit(r3, 40, t.checkDigit);
  }

  /** Putting text changes no other columns. */
  ghost predicate Else(rec: Record, next: Record, start: nat, end: nat) {
    && |next| == |rec|
    && forall a: nat, b: nat | 1 <= a <= b <= |rec| && (b < start || end < a) :: Slice(next, a, b) == Slice(rec, a, b)
  }

  lemma TextStep(rec: Record, start: nat, end: nat, s: string)
    requires 1 <= start <= end <= |rec| && BlankAt(rec, start, end)
    ensures var next := Put(rec, start, end, s, false);
            Get(next, start, end) == KeptText(s, end - start + 1) && Else(rec, next, start, end)
  {
    PutKeeps(rec, start, end, s);
  }

  lemma WideStep(rec: Record, start: nat, end: nat, s: string)
    requires 1 <= start <= end <= |rec|
    ensures var next := Put(rec, start, end, s, true);
            Get(next, start, end) == KeptWide(s, end - start + 1) && Else(rec, next, start, end)
  {
    WidePutKeeps(rec, start, end, s);
  }

  lemma NumberStep(rec: Record, start: nat, end: nat, n: int)
    requires 1 <= start <= end <= |rec| && BlankAt(rec, start, end)
    ensures var w := end - start + 1;
            var next := Put(rec, start, end, Padded(n, w), false);
            AtoiOrZero(Get(next, start, end)) == KeptNumber(n, w) && Else(rec, next, start, end)
  {
    hide KeptText, Padded;
    PutKeeps(rec, start, end, Padded(n, end - start + 1));
  }

  lemma AmountStep(rec: Record, start: nat, end: nat, v: int)
    requires 1 <= start <= end <= |rec|
    ensures var next := PutAmount(rec, start, end, v);
            GetAmount(next, start, end) == KeptAmount(v, end - start + 1) && Else(rec, next, start, end)
  {
    AmountPutKeeps(rec, start, end, v);
  }

  lemma AnyStep(rec: Record, start: nat, end: nat, s: string, numeric: bool)
    requires 1 <= start <= end <= |rec|
    ensures Else(rec, Put(rec, start, end, s, numeric), start, end)
  {
  }

  lemma Bks24Reads(t: Transaction, number: nat)
    ensures var r := Bks24(t, number);
            && IdOf(r) == "BKS24" && Get(r, 14, 19) == KeptText(t.issued, 6) && Get(r, 26, 39) == KeptText(t.document, 14)
            && AtoiOrZero(Get(r, 40, 40)) == KeptNumber(t.checkDigit, 1)
            && Get(r, 48, 55) == KeptWide(t.agent, 8) && Get(r, 72, 75) == KeptText(t.code, 4)
            && Get(r, 86, 98) == KeptText(t.locator, 13)
  {
    hide Padded, KeptText, KeptWide, KeptNumber, TrimSpace, Doc, Put, Slice;
    Qualifiers();
    DocReads(t, number, "BKS", 24);
    var r0 := Doc(t, number, "BKS", 24);
    WideStep(r0, 48, 55, t.agent);
    var r1 := Put(r0, 48, 55, t.agent, true);
    TextStep(r1, 72, 75, t.code);
    var r2 := Put(r1, 72, 75, t.code, false);
    TextStep(r2, 86, 98, t.locator);
  }

  lemma NoAmount()
    ensures KeptAmount(0, 11) == 0
  {
    hide AmountOf, Overpunched;
    assert Absolute(0) < Pow10(11);
    AmountSurvivesExactly(0, 11);
  }

  /** A tax's columns, or blank ones. */
  lemma TaxStep(rec: Record, taxes: seq<Tax>, i: nat, col: nat)
    requires |rec| == RECORD_LEN && 14 <= col <= RECORD_LEN - 18 && BlankAt(rec, col, col + 7)
    ensures var next := WithTax(rec, taxes, i, col);
            TaxAt(next, col) == TaxOrNone(taxes, i) && Else(rec, next, col, col + 18)
  {
    hide KeptText, KeptAmount, TrimSpace, Put, PutAmount, Slice, GetAmount;
    if i < |taxes| {
      TextStep(rec, col, col + 7, taxes[i].code);
      var coded := Put(rec, col, col + 7, taxes[i].code, false);
      AmountStep(coded, col + 8, col + 18, taxes[i].amount);
    } else {
      AmountStep(rec, col + 8, col + 18, 0);
      BlankGets(rec, col, col + 7);
    }
  }

  lemma BlankGets(rec: Record, start: nat, end: nat)
    requires 1 <= start <= end <= |rec| && BlankAt(rec, start, end)
    ensures Get(rec, start, end) == ""
  {
    TrimLeftBlanks(end - start + 1);
  }

  lemma {:induction false} KeptTaxesConcat(xs: seq<Tax>, ys: seq<Tax>)
    ensures KeptTaxes(xs + ys) == KeptTaxes(xs) + KeptTaxes(ys)
    decreases |ys|
  {
    hide KeptTax;
    if ys == [] {
      assert xs + ys == xs;
    } else {
      assert (xs + ys)[..|xs| + |ys| - 1] == xs + ys[..|ys| - 1];
      KeptTaxesConcat(xs, ys[..|ys| - 1]);
    }
  }

  lemma KeptTaxOnly(x: Tax)
    ensures KeptTaxes([x]) == KeptTax(x) && KeptTaxes([]) == []
  {
    hide KeptTax;
    assert [x][..0] == [];
  }

  function TaxOrNone(taxes: seq<Tax>, i: nat): seq<Tax> {
    if i < |taxes| then KeptTax(taxes[i]) else []
  }

  lemma KeptTaxesSnoc(taxes: seq<Tax>, x: Tax)
    ensures KeptTaxes(taxes + [x]) == KeptTaxes(taxes) + KeptTax(x)
  {
    hide KeptTax, KeptTaxes;
    KeptTaxesConcat(taxes, [x]);
    KeptTaxOnly(x);
  }

  lemma {:induction false} UpToThreeTaxes(taxes: seq<Tax>)
    requires |taxes| <= 3
    ensures TaxOrNone(taxes, 0) + TaxOrNone(taxes, 1) + TaxOrNone(taxes, 2) == KeptTaxes(taxes)
    decreases |taxes|
  {
    hide KeptTax, KeptTaxes;
    if taxes == [] {
      KeptTaxOnly(Tax("", 0));
    } else {
      var init, x := taxes[..|taxes| - 1], taxes[|taxes| - 1];
      assert taxes == init + [x];
      UpToThreeTaxes(init);
      KeptTaxesSnoc(init, x);
      assert forall i: nat | i < |init| :: TaxOrNone(taxes, i) == TaxOrNone(init, i);
    }
  }

  /** The columns of three taxes. */
  lemma ThreeTaxes(rec: Record, taxes: seq<Tax>)
    requires |rec| == RECORD_LEN && |taxes| <= 3 && BlankAt(rec, 63, 70) && BlankAt(rec, 82, 89) && BlankAt(rec, 101, 108)
    ensures var r := WithTaxes(rec, taxes);
            Else(rec, r, 63, 119) && TaxAt(r, 63) + TaxAt(r, 82) + TaxAt(r, 101) == KeptTaxes(taxes)
  {
    hide KeptTax, KeptTaxes, TrimSpace, Slice, WithTax, AmountOf;
    TaxStep(rec, taxes, 0, 63);
    var r4 := WithTax(rec, taxes, 0, 63);
    TaxStep(r4, taxes, 1, 82);
    var r5 := WithTax(r4, taxes, 1, 82);
    TaxStep(r5, taxes, 2, 101);
    UpToThreeTaxes(taxes);
  }

  lemma SameTaxes(rec: Record, next: Record)
    requires |rec| == RECORD_LEN && Else(rec, next, 133, 136)
    ensures TaxAt(next, 63) == TaxAt(rec, 63) && TaxAt(next, 82) == TaxAt(rec, 82) && TaxAt(next, 101) == TaxAt(rec, 101)
  {
    hide TrimSpace, AmountOf, Slice;
  }

  lemma FareReads(t: Transaction, number: nat, first: bool)
    ensures var r := WithFare(t, number, first);
            && IdOf(r) == "BKS30" && BlankAt(r, 63, 70) && BlankAt(r, 82, 89) && BlankAt(r, 101, 108) && BlankAt(r, 133, 136)
            && GetAmount(r, 41, 51) == (if first then KeptAmount(t.fare, 11) else 0)
            && GetAmount(r, 120, 130) == (if first then KeptAmount(t.total, 11) else 0)
  {
    hide Padded, KeptText, KeptAmount, KeptNumber, TrimSpace, Doc, PutAmount, Slice, AmountOf, Fitted;
    Qualifiers();
    NoAmount();
    DocReads(t, number, "BKS", 30);
    var r0 := Doc(t, number, "BKS", 30);
    AmountStep(r0, 41, 51, if first then t.fare else 0);
    var r1 := PutAmount(r0, 41, 51, if first then t.fare else 0);
    AmountStep(r1, 120, 130, if first then t.total else 0);
    AnyAmountStep(PutAmount(r1, 120, 130, if first then t.total else 0), 52, 62, 0);
  }

  lemma Bks30Reads(t: Transaction, number: nat, currency: string, taxes: seq<Tax>, first: bool)
    requires |taxes| <= 3
    ensures var r := Bks30(t, number, currency, taxes, first);
            && IdOf(r) == "BKS30" && Get(r, 133, 136) == KeptText(currency, 4)
            && GetAmount(r, 41, 51) == (if first then KeptAmount(t.fare, 11) else 0)
            && GetAmount(r, 120, 130) == (if first then KeptAmount(t.total, 11) else 0)
            && TaxAt(r, 63) + TaxAt(r, 82) + TaxAt(r, 101) == KeptTaxes(taxes)
  {
    hide KeptText, KeptAmount, KeptTaxes, TrimSpace, WithFare, WithTaxes, Put, Slice, AmountOf, TaxAt;
    FareReads(t, number, first);
    var rec := WithFare(t, number, first);
    ThreeTaxes(rec, taxes);
    var taxed := WithTaxes(rec, taxes);
    TextStep(taxed, 133, 136, currency);
    SameTaxes(taxed, Put(taxed, 133, 136, currency, false));
  }

  lemma Bks39Reads(t: Transaction, number: nat, currency: string)
    ensures var r := Bks39(t, number, currency);
            && IdOf(r) == "BKS39" && AtoiOrZero(Get(r, 50, 54)) == KeptNumber(t.commissionRate, 5)
            && GetAmount(r, 55, 65) == KeptAmount(-t.commission, 11)
  {
    hide Padded, KeptText, KeptNumber, KeptAmount, TrimSpace, Doc, Put, PutAmount, Slice, AmountOf;
    Qualifiers();
    DocReads(t, number, "BKS", 39);
    var r0 := Doc(t, number, "BKS", 39);
    NumberStep(r0, 50, 54, t.commissionRate);
    var r1 := Put(r0, 50, 54, Padded(t.commissionRate, 5), false);
    AmountStep(r1, 55, 65, -t.commission);
    var r2 := PutAmount(r1, 55, 65, -t.commission);
    AnyStep(r2, 72, 76, "00000", false);
    var r3 := Put(r2, 72, 76, "00000", false);
    AnyAmountStep(r3, 77, 87, 0);
    var r4 := PutAmount(r3, 77, 87, 0);
    AnyStep(r4, 88, 92, Padded(t.commissionRate, 5), false);
    var r5 := Put(r4, 88, 92, Padded(t.commissionRate, 5), false);
    AnyAmountStep(r5, 93, 103, -t.commission);
    var r6 := PutAmount(r5, 93, 103, -t.commission);
    AnyAmountStep(r6, 104, 114, 0);
    var r7 := PutAmount(r6, 104, 114, 0);
    AnyStep(r7, 133, 136, currency, false);
  }

  /** What lies over the document's columns, and what shows beside it. */
  lemma OverlaidReads(rec: Record, related: string, document: string)
    requires |rec| == RECORD_LEN && related != ""
    requires var under := Fitted(document, 14, false); Slice(rec, 26, 39) == under + Blanks(14 - |under|)
    ensures Get(Put(rec, 26, 39, related, false), 26, 39) == KeptRelated(related, document)
  {
    hide TrimSpace, Fitted;
    var over, under := Fitted(related, 14, false), Fitted(document, 14, false);
    var before := under + Blanks(14 - |under|);
    if |over| < |under| {
      assert before[|over|..] == under[|over|..] + Blanks(14 - |under|);
      AddAssoc(over, under[|over|..], Blanks(14 - |under|));
      TrimOver(over + under[|over|..], 14 - |under|);
    } else {
      assert before[|over|..] == Blanks(14 - |over|);
      TrimOver(over, 14 - |over|);
      assert over + "" == over;
    }
  }

  lemma Bks45Reads(t: Transaction, number: nat)
    requires t.related != ""
    ensures IdOf(Bks45(t, number)) == "BKS45" && Get(Bks45(t, number), 26, 39) == KeptRelated(t.related, t.document)
  {
    hide Padded, TrimSpace, Doc, Put, Slice, Fitted, KeptText, KeptNumber, KeptRelated;
    Qualifiers();
    DocReads(t, number, "BKS", 45);
    AnyStep(Doc(t, number, "BKS", 45), 26, 39, t.related, false);
    OverlaidReads(Doc(t, number, "BKS", 45), t.related, t.document);
  }

  lemma Bks46Reads(t: Transaction, number: nat)
    ensures IdOf(Bks46(t, number)) == "BKS46" && Get(Bks46(t, number), 41, 54) == KeptText(t.original, 14)
  {
    hide Padded, KeptText, KeptNumber, TrimSpace, Doc, Put, Slice;
    Qualifiers();
    DocReads(t, number, "BKS", 46);
    TextStep(Doc(t, number, "BKS", 46), 41, 54, t.original);
  }

  lemma Bki63Reads(t: Transaction, number: nat, c: Coupon)
    ensures var r := Bki63(t, number, c);
            IdOf(r) == "BKI63" && Coupon(AtoiOrZero(Get(r, 41, 41)), Get(r, 67, 71)) == KeptCoupon(c)
  {
    hide Padded, KeptText, KeptNumber, TrimSpace, Doc, Put, Slice;
    Qualifiers();
    DocReads(t, number, "BKI", 63);
    var r0 := Doc(t, number, "BKI", 63);
    OneDigit(r0, 41, c.number);
    AnyStep(r0, 41, 41, Itoa(c.number), false);
    TextStep(Put(r0, 41, 41, Itoa(c.number), false), 67, 71, c.flight);
  }

  lemma BarsRead(t: Transaction, number: nat)
    ensures IdOf(Bar64(t, number)) == "BAR64"
    ensures IdOf(Bar65(t, number)) == "BAR65" && Get(Bar65(t, number), 41, 89) == KeptText(t.passenger, 49)
  {
    hide Padded, KeptText, KeptNumber, TrimSpace, Doc, Put, Slice;
    Qualifiers();
    DocReads(t, number, "BAR", 64);
    DocReads(t, number, "BAR", 65);
    AnyStep(Doc(t, number, "BAR", 64), 53, 53, "/", false);
    TextStep(Doc(t, number, "BAR", 65), 41, 89, t.passenger);
  }

  lemma Bkp84Reads(t: Transaction, number: nat, currency: string, p: Payment)
    ensures var r := Bkp84(t, number, currency, p);
            && IdOf(r) == "BKP84"
            && Payment(Get(r, 26, 35), GetAmount(r, 36, 46), Get(r, 47, 65), GetAmount(r, 98, 108)) == KeptPayment(p)
  {
    hide Padded, KeptText, KeptAmount, TrimSpace, Put, PutAmount, Slice, AmountOf;
    Qualifiers();
    BlankId("BKP", 84);
    var r0 := Blank("BKP", 84);
    AnyStep(r0, 14, 19, t.issued, false);
    var r1 := Put(r0, 14, 19, t.issued, false);
    AnyStep(r1, 20, 25, Padded(number, 6), false);
    var r2 := Put(r1, 20, 25, Padded(number, 6), false);
    TextStep(r2, 26, 35, p.kind);
    var r3 := Put(r2, 26, 35, p.kind, false);
    AmountStep(r3, 36, 46, p.amount);
    var r4 := PutAmount(r3, 36, 46, p.amount);
    TextStep(r4, 47, 65, p.account);
    var r5 := Put(r4, 47, 65, p.account, false);
    AmountStep(r5, 98, 108, p.remittance);
    var r6 := PutAmount(r5, 98, 108, p.remittance);
    AnyStep(r6, 133, 136, currency, false);
  }

  /** The count is read as it was or as something else, never as none. */
  lemma Bkt06Reads(t: Transaction, number: nat, count: nat)
    requires count >= 1
    ensures var r := Bkt06(t, number, count);
            IdOf(r) == "BKT06" && Get(r, 65, 68) == KeptText(t.system, 4) && AtoiOrZero(Get(r, 22, 24)) >= 1
    ensures AtoiOrZero(Get(Bkt06(t, number, count), 22, 24)) == count <==> count < Pow10(3)
  {
    hide Padded, KeptText, TrimSpace, Put, PutAmount, Slice, Pow10, AmountOf;
    Qualifiers();
    BlankId("BKT", 6);
    var r0 := Blank("BKT", 6);
    AnyStep(r0, 14, 19, Padded(number, 6), false);
    var r1 := Put(r0, 14, 19, Padded(number, 6), false);
    AnyStep(r1, 25, 27, t.document[..Min(3, |t.document|)], false);
    var r2 := Put(r1, 25, 27, t.document[..Min(3, |t.document|)], false);
    TextStep(r2, 65, 68, t.system);
    var r3 := Put(r2, 65, 68, t.system, false);
    AnyStep(r3, 22, 24, Padded(count, 3), false);
    if count < Pow10(3) {
      NumberReads(r3, 22, 24, count, false);
    } else {
      NumberCut(r3, 22, 24, count, false);
    }
  }

  predicate OfficeTextsInRange(o: Office) {
    Fits(o.agent, 8) && |o.agent| == 8 && Fits(o.period, 6) && Fits(o.currency, 4)
  }

  lemma Boh03Reads(o: Office)
    ensures var r := Boh03(o);
            && IdOf(r) == "BOH03" && Get(r, 14, 21) == KeptWide(o.agent, 8) && Get(r, 22, 27) == KeptText(o.period, 6)
            && Get(r, 28, 31) == KeptText(o.currency, 4)
  {
    hide Padded, KeptText, KeptWide, TrimSpace, Put, PutAmount, Slice;
    Qualifiers();
    BlankId("BOH", 3);
    var r0 := Blank("BOH", 3);
    WideStep(r0, 14, 21, o.agent);
    var r1 := Put(r0, 14, 21, o.agent, true);
    TextStep(r1, 22, 27, o.period);
    var r2 := Put(r1, 22, 27, o.period, false);
    TextStep(r2, 28, 31, o.currency);
  }

  /** Putting an amount changes no other columns either. */
  lemma AnyAmountStep(rec: Record, start: nat, end: nat, v: int)
    requires 1 <= start <= end <= |rec|
    ensures Else(rec, PutAmount(rec, start, end, v), start, end)
  {
  }

  /** The four sums of a total record read back when they fit their fifteen columns. */
  predicate SumsFit(tot: Totals) {
    && Absolute(tot.gross) < Pow10(15) && Absolute(tot.remittance) < Pow10(15)
    && Absolute(tot.commission) < Pow10(15) && Absolute(tot.taxes) < Pow10(15)
  }

  function SumsAt(rec: Record, start: nat): Totals
    requires |rec| == RECORD_LEN && 1 <= start <= RECORD_LEN - 59
  {
    Totals(GetAmount(rec, start, start + 14), GetAmount(rec, start + 15, start + 29),
           GetAmount(rec, start + 30, start + 44), GetAmount(rec, start + 45, start + 59))
  }

  lemma SumsStep(rec: Record, start: nat, tot: Totals)
    requires |rec| == RECORD_LEN && 14 <= start <= RECORD_LEN - 59
    ensures var r := WithSums(rec, start, tot);
            Else(rec, r, start, start + 59) && (SumsFit(tot) ==> SumsAt(r, start) == tot)
  {
    hide PutAmount, Slice, Pow10, AmountOf;
    AnyAmountStep(rec, start, start + 14, tot.gross);
    var r1 := PutAmount(rec, start, start + 14, tot.gross);
    AnyAmountStep(r1, start + 15, start + 29, tot.remittance);
    var r2 := PutAmount(r1, start + 15, start + 29, tot.remittance);
    AnyAmountStep(r2, start + 30, start + 44, tot.commission);
    var r3 := PutAmount(r2, start + 30, start + 44, tot.commission);
    AnyAmountStep(r3, start + 45, start + 59, tot.taxes);
    if SumsFit(tot) {
      AmountReads(rec, start, start + 14, tot.gross);
      AmountReads(r1, start + 15, start + 29, tot.remittance);
      AmountReads(r2, start + 30, start + 44, tot.commission);
      AmountReads(r3, start + 45, start + 59, tot.taxes);
    }
  }

  /** Which currency a total record is in. */
  function CurrencyAt(rec: Record): string
    requires |rec| == RECORD_LEN
  {
    Get(rec, 133, 136)
  }

  lemma CurrencyStep(rec: Record, currency: string)
    requires |rec| == RECORD_LEN && BlankAt(rec, 133, 136)
    ensures var r := Put(rec, 133, 136, currency, false);
            Else(rec, r, 133, 136) && (Fits(currency, 4) ==> CurrencyAt(r) == currency)
  {
    hide Fits, KeptText;
    TextStep(rec, 133, 136, currency);
    TextSurvivesExactly(currency, 4);
  }

  lemma Bot93Reads(o: Office, key: (string, string))
    ensures IdOf(Bot93(o, key)) == "BOT93" && (Fits(key.1, 4) ==> CurrencyAt(Bot93(o, key)) == key.1)
    ensures var tot := SumOf(o, |o.transactions|, key.1, Some(key.0)); SumsFit(tot) ==> SumsAt(Bot93(o, key), 28) == tot
  {
    hide Padded, Fits, TrimSpace, Put, PutAmount, Slice, SumOf, SumsFit, AmountOf, WithSums;
    Qualifiers();
    BlankId("BOT", 93);
    var tot, r0 := SumOf(o, |o.transactions|, key.1, Some(key.0)), Blank("BOT", 93);
    AnyStep(r0, 14, 21, o.agent, true);
    var r1 := Put(r0, 14, 21, o.agent, true);
    AnyStep(r1, 22, 27, o.period, false);
    var r2 := Put(r1, 22, 27, o.period, false);
    SumsStep(r2, 28, tot);
    var r3 := WithSums(r2, 28, tot);
    AnyStep(r3, 88, 91, key.0, false);
    var r4 := Put(r3, 88, 91, key.0, false);
    AnyAmountStep(r4, 92, 106, 0);
    CurrencyStep(PutAmount(r4, 92, 106, 0), key.1);
  }

  lemma Bot94Reads(o: Office, currency: string)
    ensures IdOf(Bot94(o, currency)) == "BOT94" && (Fits(currency, 4) ==> CurrencyAt(Bot94(o, currency)) == currency)
    ensures var tot := SumOf(o, |o.transactions|, currency, None); SumsFit(tot) ==> SumsAt(Bot94(o, currency), 28) == tot
  {
    hide Padded, Fits, TrimSpace, Put, PutAmount, Slice, SumOf, SumsFit, AmountOf, WithSums;
    Qualifiers();
    BlankId("BOT", 94);
    var tot, r0 := SumOf(o, |o.transactions|, currency, None), Blank("BOT", 94);
    AnyStep(r0, 14, 21, o.agent, true);
    var r1 := Put(r0, 14, 21, o.agent, true);
    AnyStep(r1, 22, 27, o.period, false);
    var r2 := Put(r1, 22, 27, o.period, false);
    SumsStep(r2, 28, tot);
    var r3 := WithSums(r2, 28, tot);
    AnyAmountStep(r3, 88, 102, 0);
    CurrencyStep(PutAmount(r3, 88, 102, 0), currency);
  }

  /** The cycle and file totals differ only in where the sums start. */
  lemma FootingReads(id: string, qualifier: nat, name: string, nameEnd: nat, f: File, currency: string)
    requires |id| == 3 && Word(id) && qualifier < 100 && |Padded(qualifier, 2)| == 2 && Word(Padded(qualifier, 2))
    requires 14 <= nameEnd <= 17
    ensures var r := Footing(id, qualifier, name, nameEnd, f, currency);
            && IdOf(r) == id + Padded(qualifier, 2) && (Fits(currency, 4) ==> CurrencyAt(r) == currency)
            && (SumsFit(CycleSum(f.offices, currency)) ==> SumsAt(r, nameEnd + 6) == CycleSum(f.offices, currency))
  {
    hide Padded, Fits, TrimSpace, Put, PutAmount, Slice, CycleSum, SumsFit, AmountOf, WithSums;
    BlankId(id, qualifier);
    var tot, r0 := CycleSum(f.offices, currency), Blank(id, qualifier);
    AnyStep(r0, 14, 16, name, false);
    var r1 := Put(r0, 14, 16, name, false);
    AnyStep(r1, 17, 17, "1", false);
    var r2 := if nameEnd == 17 then Put(r1, 17, 17, "1", false) else r1;
    AnyStep(r2, nameEnd + 1, nameEnd + 5, Padded(|f.offices|, 5), false);
    var r3 := Put(r2, nameEnd + 1, nameEnd + 5, Padded(|f.offices|, 5), false);
    SumsStep(r3, nameEnd + 6, tot);
    var r4 := WithSums(r3, nameEnd + 6, tot);
    AnyAmountStep(r4, nameEnd + 66, nameEnd + 80, 0);
    CurrencyStep(PutAmount(r4, nameEnd + 66, nameEnd + 80, 0), currency);
  }

  predicate HeaderInRange(f: File) {
    Fits(f.plan, 3) && Fits(f.airline, 3) && NumberFits(f.sequence, 6) && Fits(f.week, 3)
  }

  lemma HeadersRead(f: File)
    ensures IdOf(Bfh01(f)) == "BFH01" && Get(Bfh01(f), 14, 16) == KeptText(f.plan, 3)
    ensures Get(Bfh01(f), 17, 19) == KeptText(f.airline, 3) && AtoiOrZero(Get(Bfh01(f), 39, 44)) == KeptNumber(f.sequence, 6)
    ensures IdOf(Bch02(f)) == "BCH02" && Get(Bch02(f), 14, 16) == KeptText(f.week, 3)
  {
    hide Padded, KeptText, KeptNumber, TrimSpace, Put, Slice;
    Qualifiers();
    BlankId("BFH", 1);
    BlankId("BCH", 2);
    var r0 := Blank("BFH", 1);
    TextStep(r0, 14, 16, f.plan);
    var r1 := Put(r0, 14, 16, f.plan, false);
    TextStep(r1, 17, 19, f.airline);
    var r2 := Put(r1, 17, 19, f.airline, false);
    AnyStep(r2, 20, 22, "230", false);
    var r3 := Put(r2, 20, 22, "230", false);
    NumberStep(r3, 39, 44, f.sequence);
    TextStep(Blank("BCH", 2), 14, 16, f.week);
  }
}
