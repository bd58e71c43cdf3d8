/** The totals a settlement file carries foot: a reader's own sums equal the office totals,
    which the subtotals by transaction code and the cycle totals add up to. */
module HotTotals {
  import opened Wrappers
  import opened Sequences
  import opened HotRecord
  import opened HotFile
  import opened HotColumns
  import opened HotRoundTrip
  import opened HotExact
  import opened HotText

  lemma PlusAssoc(a: Totals, b: Totals, c: Totals)
    ensures Plus(Plus(a, b), c) == Plus(a, Plus(b, c)) == Plus(Plus(a, c), b)
    ensures Plus(a, NO_TOTALS) == a == Plus(NO_TOTALS, a)
  {
  }

  // ---------------------------------------------------------------- one transaction

  lemma {:induction false} RemittanceConcat(xs: seq<Payment>, ys: seq<Payment>)
    ensures RemittanceSum(xs + ys) == RemittanceSum(xs) + RemittanceSum(ys)
    decreases |ys|
  {
    if ys == [] {
      assert xs + ys == xs;
    } else {
      assert (xs + ys)[..|xs| + |ys| - 1] == xs + ys[..|ys| - 1];
      RemittanceConcat(xs, ys[..|ys| - 1]);
    }
  }

  lemma RemittanceOne(p: Payment)
    ensures RemittanceSum([p]) == p.remittance
  {
    assert [p][..0] == [];
  }

  /** Moving the cash payment moves no money. */
  lemma CashLastSum(ps: seq<Payment>)
    ensures RemittanceSum(CashLast(ps)) == RemittanceSum(ps)
  {
    hide RemittanceSum, FirstCash;
    var i := FirstCash(ps);
    if i < |ps| {
      assert ps == ps[..i] + ([ps[i]] + ps[i + 1..]);
      RemittanceConcat(ps[..i], [ps[i]] + ps[i + 1..]);
      RemittanceConcat([ps[i]], ps[i + 1..]);
      RemittanceConcat(ps[..i] + ps[i + 1..], [ps[i]]);
      RemittanceConcat(ps[..i], ps[i + 1..]);
    }
  }

  lemma {:induction false} NothingRemitted(ps: seq<Payment>)
    requires forall k | 0 <= k < |ps| :: ps[k].remittance == 0
    ensures RemittanceSum(ps) == 0
    decreases |ps|
  {
    if ps != [] {
      NothingRemitted(ps[..|ps| - 1]);
    }
  }

  lemma RemittedAt(zero: seq<Payment>, i: nat, p: Payment)
    requires i < |zero| && forall k | 0 <= k < |zero| :: zero[k].remittance == 0
    ensures RemittanceSum(zero[i := p]) == p.remittance
  {
    hide RemittanceSum;
    UpdateAmong(zero, i, p);
    RemittanceConcat(zero[..i], [p] + zero[i + 1..]);
    RemittanceConcat([p], zero[i + 1..]);
    RemittanceOne(p);
    NothingRemitted(zero[..i]);
    NothingRemitted(zero[i + 1..]);
  }

  lemma RemittedAdded(zero: seq<Payment>, p: Payment)
    requires p.kind == CASH && forall k | 0 <= k < |zero| :: zero[k].remittance == 0
    ensures RemittanceSum(zero + [p]) == p.remittance && LastCash(zero + [p]) == Some(|zero|)
  {
    hide RemittanceSum;
    RemittanceConcat(zero, [p]);
    RemittanceOne(p);
    NothingRemitted(zero);
  }

  /** All that is remitted stands on the last cash payment. */
  lemma RemittedSum(ps: seq<Payment>, commission: int)
    ensures var r := Remitted(ps, commission); RemittanceSum(r) == r[LastCash(r).value].remittance
  {
    hide RemittanceSum, LastCash;
    var zero := Unremitted(ps);
    match LastCash(zero) {
      case Some(i) =>
        LastCashKept(zero, i, zero[i].amount - commission);
        RemittedAt(zero, i, zero[i].(remittance := zero[i].amount - commission));
      case None =>
        RemittedAdded(zero, Payment(CASH, 0, "", 0 - commission));
    }
  }

  /** A transaction adds to the totals what a reader of it would add. */
  lemma TransactionTotals(t: Transaction, currency: string)
    ensures var b := ReadBack(Computed(t), currency);
            TotalsOf(t) == Totals(b.total, RemittanceSum(b.payments), -b.commission, TaxSum(b.taxes))
  {
    hide RemittanceSum, CashLast, Remitted, LastCash, TaxSum;
    CashLastSum(Computed(t).payments);
    RemittedSum(t.payments, CommissionDue(t));
  }

  // ---------------------------------------------------------------- an office

  /** The totals of an office's first n transactions, whatever their currency. */
  function WholeSum(o: Office, n: nat): Totals
    requires n <= |o.transactions|
  {
    if n == 0 then NO_TOTALS else Plus(WholeSum(o, n - 1), TotalsOf(o.transactions[n - 1]))
  }

  lemma {:induction false} WholeSumIsRead(o: Office, n: nat)
    requires n <= |o.transactions|
    ensures WholeSum(o, n) == OfficeSum(ReadTransactions(o, n))
    decreases n
  {
    hide TotalsOf, Computed, ReadBack, RemittanceSum, TaxSum;
    if n > 0 {
      var t := o.transactions[n - 1];
      TransactionTotals(t, CurrencyOf(t, o));
      WholeSumIsRead(o, n - 1);
      assert ReadTransactions(o, n)[..n - 1] == ReadTransactions(o, n - 1);
    }
  }

  /** The office totals of several currencies together. */
  function OverCurrencies(o: Office, n: nat, currencies: seq<string>): Totals
    requires n <= |o.transactions|
  {
    if currencies == [] then NO_TOTALS
    else Plus(OverCurrencies(o, n, currencies[..|currencies| - 1]), SumOf(o, n, currencies[|currencies| - 1], None))
  }

  /** The subtotals of several codes together. */
  function OverCodes(o: Office, n: nat, currency: string, keys: seq<(string, string)>): Totals
    requires n <= |o.transactions|
  {
    if keys == [] then NO_TOTALS
    else
      var rest, key := OverCodes(o, n, currency, keys[..|keys| - 1]), keys[|keys| - 1];
      if key.1 == currency then Plus(rest, SumOf(o, n, currency, Some(key.0))) else rest
  }

  lemma {:induction false} OverNothing(o: Office, currency: string, currencies: seq<string>, keys: seq<(string, string)>)
    ensures OverCurrencies(o, 0, currencies) == NO_TOTALS && OverCodes(o, 0, currency, keys) == NO_TOTALS
    decreases |currencies| + |keys|
  {
    if currencies != [] {
      OverNothing(o, currency, currencies[..|currencies| - 1], []);
    }
    if keys != [] {
      OverNothing(o, currency, [], keys[..|keys| - 1]);
    }
  }

  /** One transaction more counts once, under its currency. */
  lemma {:induction false} OneMoreCurrency(o: Office, n: nat, currencies: seq<string>)
    requires 0 < n <= |o.transactions| && Distinct(currencies)
    ensures var t, before := o.transactions[n - 1], OverCurrencies(o, n - 1, currencies);
            OverCurrencies(o, n, currencies) == (if CurrencyOf(t, o) in currencies then Plus(before, TotalsOf(t)) else before)
    decreases |currencies|
  {
    hide TotalsOf, CurrencyOf;
    if currencies != [] {
      var init, last := currencies[..|currencies| - 1], currencies[|currencies| - 1];
      OneMoreCurrency(o, n, init);
      var t, before := o.transactions[n - 1], OverCurrencies(o, n - 1, init);
      PlusAssoc(before, TotalsOf(t), SumOf(o, n - 1, last, None));
      assert currencies == init + [last];
    }
  }

  lemma OneMoreInCode(o: Office, n: nat, key: (string, string), rest: Totals)
    requires 0 < n <= |o.transactions|
    ensures var t, before := o.transactions[n - 1], SumOf(o, n - 1, key.1, Some(key.0));
            Plus(rest, SumOf(o, n, key.1, Some(key.0)))
            == (if (t.code, CurrencyOf(t, o)) == key then Plus(Plus(rest, before), TotalsOf(t)) else Plus(rest, before))
  {
    hide TotalsOf, CurrencyOf;
  }

  /** And once under its code, among those of its currency. */
  lemma {:induction false} OneMoreCode(o: Office, n: nat, currency: string, keys: seq<(string, string)>)
    requires 0 < n <= |o.transactions| && Distinct(keys)
    ensures var t, before := o.transactions[n - 1], OverCodes(o, n - 1, currency, keys);
            OverCodes(o, n, currency, keys)
            == (if CurrencyOf(t, o) == currency && (t.code, currency) in keys then Plus(before, TotalsOf(t)) else before)
    decreases |keys|
  {
    hide TotalsOf, CurrencyOf, SumOf, Plus;
    if keys != [] {
      var init, last := keys[..|keys| - 1], keys[|keys| - 1];
      OneMoreCode(o, n, currency, init);
      var t, before := o.transactions[n - 1], OverCodes(o, n - 1, currency, init);
      PlusAssoc(before, TotalsOf(t), SumOf(o, n - 1, last.1, Some(last.0)));
      OneMoreInCode(o, n, last, OverCodes(o, n, currency, init));
      InSnoc(init, last, (t.code, currency));
      assert keys == init + [last];
    }
  }

  lemma InSnoc<T>(xs: seq<T>, x: T, y: T)
    ensures y in xs + [x] <==> y in xs || y == x
  {
  }

  lemma {:induction false} KeysDistinct(o: Office, n: nat)
    requires n <= |o.transactions|
    ensures Distinct(Currencies(o, n)) && Distinct(Codes(o, n))
    ensures forall i | 0 <= i < n :: CurrencyOf(o.transactions[i], o) in Currencies(o, n)
    ensures forall i | 0 <= i < n :: (o.transactions[i].code, CurrencyOf(o.transactions[i], o)) in Codes(o, n)
    decreases n
  {
    hide CurrencyOf;
    if n > 0 {
      KeysDistinct(o, n - 1);
    }
  }

  /** What no transaction is in comes to nothing. */
  lemma {:induction false} UnusedIsNothing(o: Office, n: nat, currency: string, code: Option<string>)
    requires n <= |o.transactions|
    ensures currency !in Currencies(o, n) ==> SumOf(o, n, currency, code) == NO_TOTALS
    ensures code.Some? && (code.value, currency) !in Codes(o, n) ==> SumOf(o, n, currency, code) == NO_TOTALS
    decreases n
  {
    hide CurrencyOf, TotalsOf;
    if n > 0 {
      UnusedIsNothing(o, n - 1, currency, code);
    }
  }

  /** The office totals of all currencies make up everything sold. */
  lemma {:induction false} CurrenciesMakeTheWhole(o: Office, n: nat)
    requires n <= |o.transactions|
    ensures OverCurrencies(o, n, Currencies(o, n)) == WholeSum(o, n)
    decreases n
  {
    hide CurrencyOf, TotalsOf, SumOf, Plus;
    if n > 0 {
      var before, c := Currencies(o, n - 1), CurrencyOf(o.transactions[n - 1], o);
      CurrenciesMakeTheWhole(o, n - 1);
      KeysDistinct(o, n);
      OneMoreCurrency(o, n, Currencies(o, n));
      if c !in before {
        UnusedIsNothing(o, n - 1, c, None);
        assert (before + [c])[..|before|] == before;
        PlusAssoc(OverCurrencies(o, n - 1, before), NO_TOTALS, NO_TOTALS);
      }
    }
  }

  lemma NothingSummed(o: Office, currency: string)
    ensures SumOf(o, 0, currency, None) == NO_TOTALS
  {
  }

  lemma OneMoreSum(o: Office, n: nat, currency: string)
    requires 0 < n <= |o.transactions|
    ensures var t, before := o.transactions[n - 1], SumOf(o, n - 1, currency, None);
            SumOf(o, n, currency, None) == (if CurrencyOf(t, o) == currency then Plus(before, TotalsOf(t)) else before)
  {
    hide TotalsOf, CurrencyOf;
  }

  lemma OverCodesSnoc(o: Office, n: nat, currency: string, keys: seq<(string, string)>, key: (string, string))
    requires n <= |o.transactions| && SumOf(o, n, key.1, Some(key.0)) == NO_TOTALS
    ensures OverCodes(o, n, currency, keys + [key]) == OverCodes(o, n, currency, keys)
  {
    hide SumOf, Plus;
    PlusAssoc(OverCodes(o, n, currency, keys), NO_TOTALS, NO_TOTALS);
    var all := keys + [key];
    assert all[..|all| - 1] == keys && all[|all| - 1] == key;
  }

  /** The subtotals by code of a currency make up its office total. */
  lemma {:induction false} CodesMakeTheTotal(o: Office, n: nat, currency: string)
    requires n <= |o.transactions|
    ensures OverCodes(o, n, currency, Codes(o, n)) == SumOf(o, n, currency, None)
    decreases n
  {
    hide CurrencyOf, TotalsOf, SumOf, Plus, OverCodes;
    if n == 0 {
      NothingSummed(o, currency);
      OverNothing(o, currency, [], Codes(o, 0));
    } else {
      OneMoreSum(o, n, currency);
      var t, before := o.transactions[n - 1], Codes(o, n - 1);
      var key := (t.code, CurrencyOf(t, o));
      CodesMakeTheTotal(o, n - 1, currency);
      KeysDistinct(o, n);
      OneMoreCode(o, n, currency, Codes(o, n));
      if key !in before {
        UnusedIsNothing(o, n - 1, key.1, Some(t.code));
        OverCodesSnoc(o, n - 1, currency, before, key);
      }
    }
  }

  // ---------------------------------------------------------------- the records

  /** The sums on these records of one currency, or of all of them. */
  function SumsOn(recs: seq<Record>, currency: Option<string>): Totals
    requires forall i | 0 <= i < |recs| :: |recs[i]| == RECORD_LEN
  {
    if recs == [] then NO_TOTALS
    else
      var rest, rec := SumsOn(recs[..|recs| - 1], currency), recs[|recs| - 1];
      if currency.None? || CurrencyAt(rec) == currency.value then Plus(rest, SumsAt(rec, 28)) else rest
  }

  /** Currencies and totals of an office as wide as their columns. */
  predicate TotalsInRange(o: Office) {
    var n := |o.transactions|;
    && (forall c | c in Currencies(o, n) :: Fits(c, 4) && SumsFit(SumOf(o, n, c, None)))
    && (forall key | key in Codes(o, n) :: Fits(key.1, 4) && SumsFit(SumOf(o, n, key.1, Some(key.0))))
  }

  lemma {:induction false} Bot94sCarry(o: Office, currencies: seq<string>)
    requires TotalsInRange(o) && forall c | c in currencies :: c in Currencies(o, |o.transactions|)
    ensures SumsOn(Bot94s(o, currencies), None) == OverCurrencies(o, |o.transactions|, currencies)
    decreases |currencies|
  {
    hide Bot94, SumOf, SumsFit, Fits, SumsAt, CurrencyAt, Currencies, Codes, Plus;
    if currencies != [] {
      var init, c := currencies[..|currencies| - 1], currencies[|currencies| - 1];
      Bot94sCarry(o, init);
      Bot94Reads(o, c);
      assert c in currencies;
      assert (Bot94s(o, init) + [Bot94(o, c)])[..|Bot94s(o, init)|] == Bot94s(o, init);
    }
  }

  lemma {:induction false} Bot94sCarryOne(o: Office, currencies: seq<string>, currency: string)
    requires TotalsInRange(o) && Distinct(currencies) && forall c | c in currencies :: c in Currencies(o, |o.transactions|)
    ensures SumsOn(Bot94s(o, currencies), Some(currency))
         == if currency in currencies then SumOf(o, |o.transactions|, currency, None) else NO_TOTALS
    decreases |currencies|
  {
    hide Bot94, SumOf, SumsFit, Fits, SumsAt, CurrencyAt, Currencies, Codes;
    if currencies != [] {
      var init, c := currencies[..|currencies| - 1], currencies[|currencies| - 1];
      Bot94sCarryOne(o, init, currency);
      Bot94Reads(o, c);
      assert c in currencies;
      assert currencies == init + [c];
      assert (Bot94s(o, init) + [Bot94(o, c)])[..|Bot94s(o, init)|] == Bot94s(o, init);
    }
  }

  lemma {:induction false} Bot93sCarry(o: Office, currency: string, keys: seq<(string, string)>)
    requires TotalsInRange(o) && forall key | key in keys :: key in Codes(o, |o.transactions|)
    ensures SumsOn(Bot93s(o, keys), Some(currency)) == OverCodes(o, |o.transactions|, currency, keys)
    decreases |keys|
  {
    hide Bot93, SumOf, SumsFit, Fits, SumsAt, CurrencyAt, Currencies, Codes, Plus;
    if keys != [] {
      var init, key := keys[..|keys| - 1], keys[|keys| - 1];
      Bot93sCarry(o, currency, init);
      Bot93Reads(o, key);
      assert key in keys;
      assert (Bot93s(o, init) + [Bot93(o, key)])[..|Bot93s(o, init)|] == Bot93s(o, init);
    }
  }

  /** The office totals written add up to what a reader sums over the transactions it read. */
  lemma OfficeTotalsFoot(o: Office)
    requires TotalsInRange(o)
    ensures var n := |o.transactions|;
            SumsOn(Bot94s(o, Currencies(o, n)), None) == OfficeSum(ReadOffice(o, n).transactions)
  {
    hide TotalsInRange, Bot94s, Currencies, OfficeSum, ReadTransactions, SumsOn;
    var n := |o.transactions|;
    Bot94sCarry(o, Currencies(o, n));
    CurrenciesMakeTheWhole(o, n);
    WholeSumIsRead(o, n);
  }

  /** What is read of a written file sums up, office by office, to its written totals. */
  lemma WhatIsReadFoots(f: File, i: nat)
    requires FileInRange(f) && i < |f.offices| && TotalsInRange(f.offices[i])
    ensures var parsed, o := ParsedText(TextOfFile(f)), f.offices[i];
            && parsed.Read? && |parsed.reader.file.offices| == |f.offices|
            && OfficeSum(parsed.reader.file.offices[i].transactions) == SumsOn(Bot94s(o, Currencies(o, |o.transactions|)), None)
  {
    hide FileInRange, TotalsInRange, ParsedText, TextOfFile, ReadOffice, SumsOn, OfficeSum, Bot94s, Currencies;
    TextReadsBackExactly(f);
    OfficeTotalsFoot(f.offices[i]);
  }

  /** The subtotals written in a currency add up to the office total written in it. */
  lemma SubtotalsFoot(o: Office, currency: string)
    requires TotalsInRange(o) && currency in Currencies(o, |o.transactions|)
    ensures var n := |o.transactions|;
            SumsOn(Bot93s(o, Codes(o, n)), Some(currency)) == SumsAt(Bot94(o, currency), 28)
  {
    hide Bot93s, Bot94, Currencies, Codes, SumOf, SumsOn, SumsAt, SumsFit, Fits;
    var n := |o.transactions|;
    Bot93sCarry(o, currency, Codes(o, n));
    CodesMakeTheTotal(o, n, currency);
    Bot94Reads(o, currency);
  }

  /** The office totals written in a currency, over all offices. */
  function OfficesOn(offices: seq<Office>, currency: string): Totals {
    if offices == [] then NO_TOTALS
    else
      var o := offices[|offices| - 1];
      Plus(OfficesOn(offices[..|offices| - 1], currency), SumsOn(Bot94s(o, Currencies(o, |o.transactions|)), Some(currency)))
  }

  /** The cycle total and the file total written in a currency are the office totals
      written in it, over all offices. */
  lemma CycleTotalsFoot(f: File, currency: string)
    requires (forall o | o in f.offices :: TotalsInRange(o)) && SumsFit(CycleSum(f.offices, currency))
    ensures SumsAt(Footing("BCT", 95, f.week, 17, f, currency), 23) == OfficesOn(f.offices, currency)
    ensures SumsAt(Footing("BFT", 99, f.plan, 16, f, currency), 22) == OfficesOn(f.offices, currency)
  {
    hide TotalsInRange, SumsFit, Footing, Padded, SumsAt, CycleSum, OfficesOn;
    Qualifiers();
    CycleSumIsWritten(f.offices, currency);
    FootingReads("BCT", 95, f.week, 17, f, currency);
    FootingReads("BFT", 99, f.plan, 16, f, currency);
  }

  lemma {:induction false} CycleSumIsWritten(offices: seq<Office>, currency: string)
    requires forall o | o in offices :: TotalsInRange(o)
    ensures CycleSum(offices, currency) == OfficesOn(offices, currency)
    decreases |offices|
  {
    hide TotalsInRange, SumOf, Currencies, SumsOn, Bot94s, Plus;
    if offices != [] {
      var o := offices[|offices| - 1];
      var n := |o.transactions|;
      CycleSumIsWritten(offices[..|offices| - 1], currency);
      KeysDistinct(o, n);
      Bot94sCarryOne(o, Currencies(o, n), currency);
      UnusedIsNothing(o, n, currency, None);
    }
  }
}
