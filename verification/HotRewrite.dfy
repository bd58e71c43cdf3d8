/** Writing again what was read: the same records when cash is paid once. */
module HotRewrite {
  import opened Wrappers
  import opened HotRecord
  import opened HotFile
  import opened HotColumns
  import opened HotRoundTrip
  import opened HotExact
  import opened HotText

  // ---------------------------------------------------------------- payments

  /** No more than one payment in cash. */
  predicate CashOnce(ps: seq<Payment>) {
    forall i, j | 0 <= i < j < |ps| :: ps[i].kind == CASH ==> ps[j].kind != CASH
  }

  /** Everything remitted with the one cash payment, which is last. */
  predicate Settled(ps: seq<Payment>, commission: int) {
    && ps != [] && ps[|ps| - 1].kind == CASH && ps[|ps| - 1].remittance == ps[|ps| - 1].amount - commission
    && forall i | 0 <= i < |ps| - 1 :: ps[i].kind != CASH && ps[i].remittance == 0
  }

  lemma {:induction false} FirstCashAt(ps: seq<Payment>, i: nat)
    requires i < |ps| && ps[i].kind == CASH && forall k | 0 <= k < i :: ps[k].kind != CASH
    ensures FirstCash(ps) == i
    decreases i
  {
    if i > 0 {
      FirstCashAt(ps[1..], i - 1);
    }
  }

  lemma {:induction false} LastCashAt(ps: seq<Payment>, i: nat)
    requires i < |ps| && ps[i].kind == CASH && forall k | i < k < |ps| :: ps[k].kind != CASH
    ensures LastCash(ps) == Some(i)
    decreases |ps|
  {
    if i < |ps| - 1 {
      LastCashAt(ps[..|ps| - 1], i);
    }
  }

  lemma {:induction false} LastCashNone(ps: seq<Payment>)
    ensures LastCash(ps).None? <==> forall k | 0 <= k < |ps| :: ps[k].kind != CASH
    decreases |ps|
  {
    if ps != [] {
      LastCashNone(ps[..|ps| - 1]);
    }
  }

  lemma {:induction false} FirstCashNone(ps: seq<Payment>)
    ensures FirstCash(ps) == |ps| <==> forall k | 0 <= k < |ps| :: ps[k].kind != CASH
    decreases |ps|
  {
    if ps != [] {
      FirstCashNone(ps[1..]);
      assert forall k | 1 <= k < |ps| :: ps[k] == ps[1..][k - 1];
    }
  }

  lemma SettledStays(ps: seq<Payment>, commission: int)
    requires Settled(ps, commission)
    ensures Remitted(ps, commission) == ps && CashLast(ps) == ps
  {
    hide LastCash, FirstCash;
    var zero, i := Unremitted(ps), |ps| - 1;
    LastCashAt(zero, i);
    FirstCashAt(ps, i);
    assert zero[i := zero[i].(remittance := zero[i].amount - commission)] == ps;
  }

  lemma {:induction false} KindsDecide(xs: seq<Payment>, ys: seq<Payment>)
    requires |xs| == |ys| && forall k | 0 <= k < |xs| :: xs[k].kind == ys[k].kind
    ensures FirstCash(xs) == FirstCash(ys) && LastCash(xs) == LastCash(ys)
    decreases |xs|
  {
    if xs != [] {
      KindsDecide(xs[1..], ys[1..]);
      KindsDecide(xs[..|xs| - 1], ys[..|ys| - 1]);
    }
  }

  /** What the first cash payment is of; nothing when there is none. */
  function FirstCashAmount(ps: seq<Payment>): int {
    var i := FirstCash(ps);
    if i < |ps| then ps[i].amount else 0
  }

  function LastCashAmount(ps: seq<Payment>): int {
    match LastCash(ps)
    case Some(i) => ps[i].amount
    case None => 0
  }

  /** Which payments there are after remitting, and what stands on them. */
  lemma RemittedShape(ps: seq<Payment>, commission: int)
    ensures var r := Remitted(ps, commission);
            && LastCashAmount(r) == LastCashAmount(ps) && FirstCash(r) < |r| && FirstCashAmount(r) == FirstCashAmount(ps)
            && r[LastCash(r).value].remittance == LastCashAmount(ps) - commission
            && (forall k | 0 <= k < |r| && k != LastCash(r).value :: r[k].remittance == 0)
            && (CashOnce(ps) ==> CashOnce(r))
  {
    hide FirstCash, LastCash;
    var zero, r := Unremitted(ps), Remitted(ps, commission);
    KindsDecide(ps, zero);
    match LastCash(zero) {
      case Some(i) =>
        KindsDecide(ps, r);
        FirstCashNone(r);
      case None =>
        LastCashNone(zero);
        FirstCashNone(zero);
        FirstCashAt(r, |zero|);
        LastCashAt(r, |zero|);
    }
  }

  /** With cash paid once, what is read back is settled. */
  lemma SettledByRemitting(ps: seq<Payment>, commission: int)
    requires CashOnce(ps)
    ensures Settled(CashLast(Remitted(ps, commission)), commission)
  {
    hide FirstCash, LastCash, Remitted;
    RemittedShape(ps, commission);
    var r := Remitted(ps, commission);
    var i := FirstCash(r);
    LastCashAt(r, i);
  }

  // ---------------------------------------------------------------- transactions

  /** Written again, a transaction counts as much as before if and only if the first and
      the last cash payment are of the same amount: the remittance is on the last, and the
      first is written last. */
  lemma TotalsSurviveRewritingExactly(t: Transaction, currency: string)
    ensures var again := TotalsOf(ReadBack(Computed(t), currency));
            && again.remittance == FirstCashAmount(t.payments) - CommissionDue(t)
            && TotalsOf(t).remittance == LastCashAmount(t.payments) - CommissionDue(t)
            && (again == TotalsOf(t) <==> FirstCashAmount(t.payments) == LastCashAmount(t.payments))
  {
    hide FirstCash, LastCash, Remitted, RoundDiv;
    var c, ps := CommissionDue(t), t.payments;
    var r := Remitted(ps, c);
    RemittedShape(ps, c);
    RemittedShape(CashLast(r), c);
    LastCashAt(CashLast(r), |r| - 1);
    DueTwice(t, currency);
  }

  /** What the handbook derives is derived once. */
  lemma DueTwice(t: Transaction, currency: string)
    ensures var again := ReadBack(Computed(t), currency);
            TotalDue(again) == TotalDue(t) && CommissionDue(again) == CommissionDue(t)
  {
    hide RoundDiv, Remitted, CashLast;
  }

  lemma ComputedTwice(t: Transaction, currency: string)
    requires CashOnce(t.payments)
    ensures Computed(ReadBack(Computed(t), currency)) == ReadBack(Computed(t), currency)
  {
    hide TotalDue, CommissionDue, Remitted, CashLast, Settled;
    DueTwice(t, currency);
    SettledByRemitting(t.payments, CommissionDue(t));
    SettledStays(CashLast(Remitted(t.payments, CommissionDue(t))), CommissionDue(t));
  }

  /** Nothing but the payments depends on the payments, and nothing on the currency kept. */
  lemma {:induction false} TaxesAgain(t: Transaction, u: Transaction, number: nat, currency: string, taxes: seq<Tax>, first: bool)
    requires u == t.(currency := u.currency, payments := u.payments)
    ensures Bks30s(u, number, currency, taxes, first) == Bks30s(t, number, currency, taxes, first)
    decreases |taxes|, first
  {
    hide Put, PutAmount, WithTax, Blank;
    if |taxes| > 3 {
      TaxesAgain(t, u, number, currency, taxes[3..], false);
    }
  }

  lemma {:induction false} CouponsAgain(t: Transaction, u: Transaction, number: nat, coupons: seq<Coupon>)
    requires u == t.(currency := u.currency, payments := u.payments)
    ensures Bki63s(u, number, coupons) == Bki63s(t, number, coupons)
    decreases |coupons|
  {
    hide Put, Blank;
    if coupons != [] {
      CouponsAgain(t, u, number, coupons[..|coupons| - 1]);
    }
  }

  lemma {:induction false} PaymentsAgain(t: Transaction, u: Transaction, number: nat, currency: string, ps: seq<Payment>)
    requires u == t.(currency := u.currency, payments := u.payments)
    ensures Bkp84s(u, number, currency, ps) == Bkp84s(t, number, currency, ps)
    decreases |ps|
  {
    hide Put, PutAmount, Blank;
    if ps != [] {
      PaymentsAgain(t, u, number, currency, ps[..|ps| - 1]);
    }
  }

  lemma SinglesAgain(t: Transaction, u: Transaction, number: nat, currency: string)
    requires u == t.(currency := u.currency, payments := u.payments)
    ensures Bks24(u, number) == Bks24(t, number) && Bks39(u, number, currency) == Bks39(t, number, currency)
    ensures Bks45(u, number) == Bks45(t, number) && Bks46(u, number) == Bks46(t, number)
    ensures Bar64(u, number) == Bar64(t, number) && Bar65(u, number) == Bar65(t, number)
    ensures forall count: nat :: Bkt06(u, number, count) == Bkt06(t, number, count)
  {
    hide Put, PutAmount, Blank;
  }

  lemma RecordsAgain(t: Transaction, u: Transaction, number: nat, currency: string)
    requires u == t.(currency := u.currency, payments := u.payments) && CashLast(u.payments) == CashLast(t.payments)
    ensures TransactionRecords(u, number, currency) == TransactionRecords(t, number, currency)
  {
    hide Bkt06, Bks24, Bks30s, Bks39, Bks45, Bks46, Bki63s, Bar64, Bar65, Bkp84s, CashLast;
    SinglesAgain(t, u, number, currency);
    TaxesAgain(t, u, number, currency, t.taxes, true);
    CouponsAgain(t, u, number, t.coupons);
    PaymentsAgain(t, u, number, currency, CashLast(t.payments));
  }

  lemma OneAmount(ps: seq<Payment>)
    requires CashOnce(ps)
    ensures FirstCashAmount(ps) == LastCashAmount(ps)
  {
    hide FirstCash, LastCash;
    FirstCashNone(ps);
    LastCashNone(ps);
    if FirstCash(ps) < |ps| {
      LastCashAt(ps, FirstCash(ps));
    }
  }

  /** A transaction read and written again, in the currency it was read in. */
  lemma TransactionAgain(t: Transaction, currency: string, number: nat)
    requires CashOnce(t.payments)
    ensures var again := ReadBack(Computed(t), currency);
            && TotalsOf(again) == TotalsOf(t)
            && TransactionRecords(Computed(again), number, currency) == TransactionRecords(Computed(t), number, currency)
  {
    hide TransactionRecords, TotalsOf, TotalDue, CommissionDue, Remitted, CashLast, FirstCashAmount, LastCashAmount;
    ComputedTwice(t, currency);
    OneAmount(t.payments);
    TotalsSurviveRewritingExactly(t, currency);
    SettledByRemitting(t.payments, CommissionDue(t));
    SettledStays(CashLast(Remitted(t.payments, CommissionDue(t))), CommissionDue(t));
    RecordsAgain(Computed(t), ReadBack(Computed(t), currency), number, currency);
  }

  // ---------------------------------------------------------------- offices and files

  predicate OfficeCashOnce(o: Office) {
    forall i | 0 <= i < |o.transactions| :: CashOnce(o.transactions[i].payments)
  }

  /** The office as a reader of its records has it. */
  function Again(o: Office): (p: Office)
    ensures |p.transactions| == |o.transactions|
  {
    ReadOffice(o, |o.transactions|)
  }

  lemma AgainAt(o: Office, i: nat)
    requires i < |o.transactions|
    ensures var t, p := o.transactions[i], Again(o);
            p.transactions[i] == ReadBack(Computed(t), CurrencyOf(t, o)) && p.transactions[i].code == t.code
            && CurrencyOf(p.transactions[i], p) == CurrencyOf(t, o)
  {
    hide TotalDue, CommissionDue, Remitted, CashLast;
  }

  lemma {:induction false} SumsAgain(o: Office, n: nat, currency: string, code: Option<string>)
    requires n <= |o.transactions| && OfficeCashOnce(o)
    ensures SumOf(Again(o), n, currency, code) == SumOf(o, n, currency, code)
    decreases n
  {
    hide Again, CurrencyOf, TotalsOf, ReadBack, Computed, Plus, CashOnce, TransactionRecords;
    if n > 0 {
      var t := o.transactions[n - 1];
      AgainAt(o, n - 1);
      TransactionAgain(t, CurrencyOf(t, o), 0);
      SumsAgain(o, n - 1, currency, code);
    }
  }

  lemma {:induction false} KeysAgain(o: Office, n: nat)
    requires n <= |o.transactions|
    ensures Codes(Again(o), n) == Codes(o, n) && Currencies(Again(o), n) == Currencies(o, n)
    decreases n
  {
    hide Again, CurrencyOf, ReadBack, Computed;
    if n > 0 {
      AgainAt(o, n - 1);
      KeysAgain(o, n - 1);
    }
  }

  lemma {:induction false} DetailsAgain(o: Office, before: nat, n: nat)
    requires n <= |o.transactions| && OfficeCashOnce(o)
    ensures OfficeDetails(Again(o), before, n) == OfficeDetails(o, before, n)
    decreases n
  {
    hide Again, CurrencyOf, TotalsOf, ReadBack, Computed, CashOnce, TransactionRecords;
    if n > 0 {
      var t := o.transactions[n - 1];
      AgainAt(o, n - 1);
      TransactionAgain(t, CurrencyOf(t, o), before + n);
      DetailsAgain(o, before, n - 1);
    }
  }

  lemma {:induction false} SubtotalsAgain(o: Office, keys: seq<(string, string)>)
    requires OfficeCashOnce(o)
    ensures Bot93s(Again(o), keys) == Bot93s(o, keys)
    decreases |keys|
  {
    hide SumOf, Put, PutAmount, WithSums, Blank, OfficeCashOnce;
    if keys != [] {
      var key := keys[|keys| - 1];
      SubtotalsAgain(o, keys[..|keys| - 1]);
      SumsAgain(o, |o.transactions|, key.1, Some(key.0));
    }
  }

  lemma {:induction false} TotalsAgain(o: Office, currencies: seq<string>)
    requires OfficeCashOnce(o)
    ensures Bot94s(Again(o), currencies) == Bot94s(o, currencies)
    decreases |currencies|
  {
    hide SumOf, Put, PutAmount, WithSums, Blank, OfficeCashOnce;
    if currencies != [] {
      var currency := currencies[|currencies| - 1];
      TotalsAgain(o, currencies[..|currencies| - 1]);
      SumsAgain(o, |o.transactions|, currency, None);
    }
  }

  lemma OfficeAgain(o: Office, before: nat)
    requires OfficeCashOnce(o)
    ensures OfficeRecords(Again(o), before) == OfficeRecords(o, before)
  {
    hide OfficeDetails, Bot93s, Bot94s, Codes, Currencies, Put, OfficeCashOnce, ReadTransactions;
    KeysAgain(o, |o.transactions|);
    DetailsAgain(o, before, |o.transactions|);
    SubtotalsAgain(o, Codes(o, |o.transactions|));
    TotalsAgain(o, Currencies(o, |o.transactions|));
  }

  lemma {:induction false} OfficesAgain(offices: seq<Office>, currency: string)
    requires forall i | 0 <= i < |offices| :: OfficeCashOnce(offices[i])
    ensures var again := ReadOffices(offices);
            && Count(again) == Count(offices) && OfficesRecords(again) == OfficesRecords(offices)
            && CycleSum(again, currency) == CycleSum(offices, currency) && CycleCurrencies(again) == CycleCurrencies(offices)
    decreases |offices|
  {
    hide OfficeRecords, OfficeCashOnce, SumOf, Currencies, Merged, Plus, ReadOffice;
    if offices != [] {
      var init, o := offices[..|offices| - 1], offices[|offices| - 1];
      OfficesAgain(init, currency);
      assert ReadOffices(offices)[..|init|] == ReadOffices(init);
      assert ReadOffices(offices)[|init|] == Again(o);
      OfficeAgain(o, Count(init));
      SumsAgain(o, |o.transactions|, currency, None);
      KeysAgain(o, |o.transactions|);
    }
  }

  lemma {:induction false} FootingsAgain(f: File, currencies: seq<string>)
    requires forall i | 0 <= i < |f.offices| :: OfficeCashOnce(f.offices[i])
    ensures Bct95s(ReadFile(f), currencies) == Bct95s(f, currencies) && Bft99s(ReadFile(f), currencies) == Bft99s(f, currencies)
    decreases |currencies|
  {
    hide CycleSum, Put, PutAmount, WithSums, Blank, OfficeCashOnce, ReadOffice;
    if currencies != [] {
      FootingsAgain(f, currencies[..|currencies| - 1]);
      OfficesAgain(f.offices, currencies[|currencies| - 1]);
    }
  }

  lemma RecordsStay(f: File)
    requires forall i | 0 <= i < |f.offices| :: OfficeCashOnce(f.offices[i])
    ensures FileRecords(ReadFile(f)) == FileRecords(f)
  {
    hide OfficesRecords, Bct95s, Bft99s, CycleSum, CycleCurrencies, OfficeCashOnce, Put, ReadOffices;
    OfficesAgain(f.offices, "");
    FootingsAgain(f, FootingCurrencies(f));
  }

  /** Where every field fits and each transaction is paid in cash once at most, writing
      what was read gives the same text, character for character. */
  lemma RewritingIsStable(f: File)
    requires FileInRange(f) && forall i | 0 <= i < |f.offices| :: OfficeCashOnce(f.offices[i])
    ensures var parsed := ParsedText(TextOfFile(f));
            parsed.Read? && TextOfFile(parsed.reader.file) == TextOfFile(f)
  {
    hide FileInRange, FileRecords, OfficeCashOnce, ReadFile, ParsedText, AllRecords, Written, TextOf;
    RecordsStay(f);
    TextReadsBackExactly(f);
  }
}
