/** The loops that compute, write and read a settlement file, against what they stand for. */
module HotProgram {
  import opened Wrappers
  import opened Sequences
  import opened Decimal
  import opened HotRecord
  import opened HotFile
  import opened HotExact
  import opened HotTotals
  import opened HotText

  // ---------------------------------------------------------------- computing

  lemma TaxSumNext(taxes: seq<Tax>, i: nat)
    requires i < |taxes|
    ensures TaxSum(taxes[..i + 1]) == TaxSum(taxes[..i]) + taxes[i].amount
  {
    assert taxes[..i + 1][..i] == taxes[..i];
  }

  lemma LastCashNext(ps: seq<Payment>, i: nat)
    requires i < |ps|
    ensures LastCash(ps[..i + 1]) == (if ps[i].kind == CASH then Some(i) else LastCash(ps[..i]))
  {
    assert ps[..i + 1][..i] == ps[..i];
  }

  /** Where the remittance goes, by where the last cash payment is. */
  lemma RemittedAtCash(ps: seq<Payment>, commission: int, cash: int)
    requires LastCash(Unremitted(ps)) == if cash < 0 then None else Some(cash)
    ensures var zero, r := Unremitted(ps), Remitted(ps, commission);
            if cash < 0 then r == zero + [Payment(CASH, 0, "", 0 - commission)] && LastCash(r) == Some(|ps|)
            else r == zero[cash := zero[cash].(remittance := zero[cash].amount - commission)] && LastCash(r) == Some(cash)
  {
    hide LastCash, Unremitted;
    var zero := Unremitted(ps);
    if cash < 0 {
      RemittedAdded(zero, Payment(CASH, 0, "", 0 - commission));
    } else {
      LastCashKept(zero, cash, zero[cash].amount - commission);
    }
  }

  /** The remittance goes on the last cash payment, which is added when there is none. */
  method Remit(payments: seq<Payment>, commission: int) returns (ps: seq<Payment>, cash: nat)
    ensures ps == Remitted(payments, commission) && LastCash(ps) == Some(cash)
  {
    hide LastCash, Remitted;
    ps := payments;
    var last := -1;
    ghost var zero := Unremitted(payments);
    NoCashYet(zero);
    for i := 0 to |ps|
      invariant |ps| == |zero| && ps[..i] == zero[..i] && ps[i..] == payments[i..]
      invariant -1 <= last < i && LastCash(zero[..i]) == if last < 0 then None else Some(last)
    {
      LastCashNext(zero, i);
      assert ps[i] == ps[i..][0] == payments[i..][0] == payments[i];
      ps := ps[i := ps[i].(remittance := 0)];
      if ps[i].kind == CASH {
        last := i;
      }
    }
    assert ps == ps[..|ps|] == zero == zero[..|zero|];
    RemittedAtCash(payments, commission, last);
    if last < 0 {
      ps := ps + [Payment(CASH, 0, "", 0)];
      last := |ps| - 1;
    }
    ps := ps[last := ps[last].(remittance := ps[last].amount - commission)];
    cash := last;
  }

  lemma NoCashYet(ps: seq<Payment>)
    ensures LastCash(ps[..0]) == None
  {
  }

  /** Fills in what the handbook derives, and gives the transaction's totals. */
  method Compute(t: Transaction) returns (computed: Transaction, tot: Totals)
    ensures computed == Computed(t) && tot == TotalsOf(t)
  {
    hide LastCash, Remitted;
    var taxes := 0;
    for i := 0 to |t.taxes|
      invariant taxes == TaxSum(t.taxes[..i])
    {
      TaxSumNext(t.taxes, i);
      taxes := taxes + t.taxes[i].amount;
    }
    assert t.taxes[..|t.taxes|] == t.taxes;
    var total, commission := t.total, t.commission;
    if total == 0 {
      total := t.fare + taxes;
    }
    if commission == 0 && t.commissionRate != 0 {
      commission := RoundDiv(t.fare * t.commissionRate, 10000);
    }
    var ps, cash := Remit(t.payments, commission);
    computed := t.(total := total, commission := commission, payments := ps);
    tot := Totals(total, ps[cash].remittance, -commission, taxes);
  }

  // ---------------------------------------------------------------- writing

  /** The payments without the first cash one, which goes to the end. */
  method OrderPayments(ps: seq<Payment>) returns (pays: seq<Payment>)
    ensures pays == CashLast(ps)
  {
    pays := [];
    var cash: Option<Payment> := None;
    ghost var first := FirstCash(ps);
    for i := 0 to |ps|
      invariant cash == if first < i then Some(ps[first]) else None
      invariant pays == if first < i then ps[..first] + ps[first + 1..i] else ps[..i]
    {
      FirstCashIsFirst(ps);
      if ps[i].kind == CASH && cash == None {
        cash := Some(ps[i]);
        assert ps[..i] + ps[i + 1..i + 1] == ps[..i];
      } else {
        assert ps[..i + 1] == ps[..i] + [ps[i]];
        pays := pays + [ps[i]];
      }
    }
    assert ps[..|ps|] == ps;
    if cash.Some? {
      pays := pays + [cash.value];
    }
  }

  lemma {:induction false} FirstCashIsFirst(ps: seq<Payment>)
    ensures forall k | 0 <= k < FirstCash(ps) :: ps[k].kind != CASH
    decreases |ps|
  {
    if ps != [] && ps[0].kind != CASH {
      FirstCashIsFirst(ps[1..]);
      forall k | 0 <= k < FirstCash(ps) ensures ps[k].kind != CASH {
        if k > 0 {
          assert ps[k] == ps[1..][k - 1];
        }
      }
    }
  }

  lemma Bki63Next(t: Transaction, number: nat, coupons: seq<Coupon>, i: nat)
    requires i < |coupons|
    ensures Bki63s(t, number, coupons[..i + 1]) == Bki63s(t, number, coupons[..i]) + [Bki63(t, number, coupons[i])]
  {
    hide Bki63;
    assert coupons[..i + 1][..i] == coupons[..i];
  }

  lemma Bkp84Next(t: Transaction, number: nat, currency: string, ps: seq<Payment>, i: nat)
    requires i < |ps|
    ensures Bkp84s(t, number, currency, ps[..i + 1]) == Bkp84s(t, number, currency, ps[..i]) + [Bkp84(t, number, currency, ps[i])]
  {
    hide Bkp84;
    assert ps[..i + 1][..i] == ps[..i];
  }

  /** Three taxes a record, and one record even without taxes. */
  method LayOutTaxes(t: Transaction, number: nat, currency: string) returns (out: seq<Record>)
    ensures out == Bks30s(t, number, currency, t.taxes, true)
  {
    hide Bks30;
    out := [];
    var taxes, first := t.taxes, true;
    while first || taxes != []
      invariant out + Bks30s(t, number, currency, taxes, first) == Bks30s(t, number, currency, t.taxes, true)
      decreases |taxes|, first
    {
      ghost var rest := if |taxes| > 3 then taxes[3..] else [];
      AddAssoc(out, [Bks30(t, number, currency, taxes, first)], Bks30s(t, number, currency, rest, false));
      out := out + [Bks30(t, number, currency, taxes, first)];
      taxes := if |taxes| > 3 then taxes[3..] else [];
      first := false;
    }
  }

  /** The header is written last, when the records are counted. */
  method LayOut(t: Transaction, number: nat, currency: string) returns (out: seq<Record>)
    ensures out == TransactionRecords(t, number, currency)
  {
    hide Bkt06, Bks24, Bks30s, Bks39, Bks45, Bks46, Bki63, Bar64, Bar65, Bkp84, CashLast;
    var taxes := LayOutTaxes(t, number, currency);
    out := [Bks24(t, number)] + taxes + [Bks39(t, number, currency)];
    if t.related != "" {
      out := out + [Bks45(t, number)];
    }
    if t.original != "" {
      out := out + [Bks46(t, number)];
    }
    ghost var before := out;
    for i := 0 to |t.coupons|
      invariant out == before + Bki63s(t, number, t.coupons[..i])
    {
      Bki63Next(t, number, t.coupons, i);
      out := out + [Bki63(t, number, t.coupons[i])];
    }
    assert t.coupons[..|t.coupons|] == t.coupons;
    out := out + [Bar64(t, number), Bar65(t, number)];
    before := out;
    var pays := OrderPayments(t.payments);
    for i := 0 to |pays|
      invariant out == before + Bkp84s(t, number, currency, pays[..i])
    {
      Bkp84Next(t, number, currency, pays, i);
      out := out + [Bkp84(t, number, currency, pays[i])];
    }
    assert pays[..|pays|] == pays;
    assert out == Details(t, number, currency);
    out := [Bkt06(t, number, 1 + |out|)] + out;
  }

  /** Adds to the totals kept under a key, which is noted when it is new. */
  method Tally<K(==)>(totals: map<K, Totals>, keys: seq<K>, key: K, tot: Totals) returns (next: map<K, Totals>, noted: seq<K>)
    requires forall k :: k in keys <==> k in totals
    ensures noted == if key in keys then keys else keys + [key]
    ensures forall k :: k in noted <==> k in next
    ensures next == totals[key := Plus(if key in totals then totals[key] else NO_TOTALS, tot)]
  {
    next, noted := totals, keys;
    if key !in next {
      next, noted := next[key := NO_TOTALS], noted + [key];
    }
    next := next[key := Plus(next[key], tot)];
  }

  lemma WrittenSnoc(recs: seq<Record>, rec: Record)
    requires AllRecords(recs) && |rec| >= RECORD_LEN
    ensures AllRecords(recs + [rec]) && Written(recs + [rec]) == Written(recs) + [Stamped(rec, |recs| + 1)]
  {
    hide Stamped;
  }

  lemma {:induction false} TextSnoc(recs: seq<Record>, rec: Record)
    ensures TextOf(recs + [rec]) == TextOf(recs) + rec + "\n"
    decreases |recs|
  {
    if recs == [] {
      assert [] + [rec] == [rec] && [rec][1..] == [];
    } else {
      TextSnoc(recs[1..], rec);
      assert (recs + [rec])[1..] == recs[1..] + [rec];
    }
  }

  /** These records, and no others, have gone out: each with the number of its place. */
  ghost predicate Emitted(out: string, n: nat, done: seq<Record>) {
    AllRecords(done) && n == |done| && out == TextOf(Written(done))
  }

  lemma NothingEmitted()
    ensures Emitted("", 0, [])
  {
  }

  lemma EmittedNext(out: string, n: nat, done: seq<Record>, rec: Record)
    requires Emitted(out, n, done) && |rec| >= RECORD_LEN
    ensures Emitted(out + Stamped(rec, n + 1) + "\n", n + 1, done + [rec])
  {
    hide Stamped;
    WrittenSnoc(done, rec);
    TextSnoc(Written(done), Stamped(rec, n + 1));
  }

  method EmitAll(out: string, n: nat, recs: seq<Record>, ghost done: seq<Record>) returns (next: string, m: nat)
    requires Emitted(out, n, done) && AllRecords(recs)
    ensures Emitted(next, m, done + recs)
  {
    hide Stamped, Emitted;
    next, m := out, n;
    assert done + recs[..0] == done;
    for i := 0 to |recs|
      invariant Emitted(next, m, done + recs[..i])
    {
      EmittedNext(next, m, done + recs[..i], recs[i]);
      assert done + recs[..i + 1] == done + recs[..i] + [recs[i]];
      m := m + 1;
      next := next + Stamped(recs[i], m) + "\n";
    }
    assert recs[..|recs|] == recs;
  }

  // ---------------------------------------------------------------- running totals

  /** The totals of an office's first n transactions, kept by currency and by code. */
  ghost predicate OfficeTallied(o: Office, n: nat, totals: map<string, Totals>, currencies: seq<string>,
                                byCode: map<(string, string), Totals>, codes: seq<(string, string)>)
    requires n <= |o.transactions|
  {
    && currencies == Currencies(o, n) && (forall c :: c in currencies <==> c in totals)
    && (forall c | c in totals :: totals[c] == SumOf(o, n, c, None))
    && codes == Codes(o, n) && (forall key :: key in codes <==> key in byCode)
    && (forall key | key in byCode :: byCode[key] == SumOf(o, n, key.1, Some(key.0)))
  }

  /** The cycle's totals over these offices and the next one's first n transactions. */
  ghost predicate CycleTallied(offices: seq<Office>, o: Office, n: nat, totals: map<string, Totals>, currencies: seq<string>)
    requires n <= |o.transactions|
  {
    && currencies == Merged(CycleCurrencies(offices), Currencies(o, n)) && (forall c :: c in currencies <==> c in totals)
    && (forall c | c in totals :: totals[c] == Plus(CycleSum(offices, c), SumOf(o, n, c, None)))
  }

  lemma {:induction false} MergedHas(seen: seq<string>, more: seq<string>)
    ensures forall x :: x in Merged(seen, more) <==> x in seen || x in more
    decreases |more|
  {
    if more != [] {
      MergedHas(seen, more[..|more| - 1]);
      assert more == more[..|more| - 1] + [more[|more| - 1]];
    }
  }

  lemma MergedNext(seen: seq<string>, o: Office, n: nat)
    requires 0 < n <= |o.transactions|
    ensures var m, c := Merged(seen, Currencies(o, n - 1)), CurrencyOf(o.transactions[n - 1], o);
            Merged(seen, Currencies(o, n)) == if c in m then m else m + [c]
  {
    hide CurrencyOf;
    var before, c := Currencies(o, n - 1), CurrencyOf(o.transactions[n - 1], o);
    MergedHas(seen, before);
    if c !in before {
      assert (before + [c])[..|before|] == before;
    }
  }

  lemma {:induction false} CycleUnused(offices: seq<Office>, currency: string)
    ensures currency !in CycleCurrencies(offices) ==> CycleSum(offices, currency) == NO_TOTALS
    decreases |offices|
  {
    hide SumOf, Currencies, Merged, Plus;
    if offices != [] {
      var o := offices[|offices| - 1];
      PlusAssoc(NO_TOTALS, NO_TOTALS, NO_TOTALS);
      CycleUnused(offices[..|offices| - 1], currency);
      MergedHas(CycleCurrencies(offices[..|offices| - 1]), Currencies(o, |o.transactions|));
      UnusedIsNothing(o, |o.transactions|, currency, None);
    }
  }

  lemma OfficeTalliedNext(o: Office, n: nat, totals: map<string, Totals>, currencies: seq<string>,
                          byCode: map<(string, string), Totals>, codes: seq<(string, string)>)
    requires n < |o.transactions| && OfficeTallied(o, n, totals, currencies, byCode, codes)
    ensures var t := o.transactions[n];
            var c, key, tot := CurrencyOf(t, o), (t.code, CurrencyOf(t, o)), TotalsOf(t);
            OfficeTallied(o, n + 1, totals[c := Plus(if c in totals then totals[c] else NO_TOTALS, tot)],
                          if c in currencies then currencies else currencies + [c],
                          byCode[key := Plus(if key in byCode then byCode[key] else NO_TOTALS, tot)],
                          if key in codes then codes else codes + [key])
  {
    hide CurrencyOf, TotalsOf, Plus;
    var t := o.transactions[n];
    UnusedIsNothing(o, n, CurrencyOf(t, o), None);
    UnusedIsNothing(o, n, CurrencyOf(t, o), Some(t.code));
  }

  lemma CycleTalliedNext(offices: seq<Office>, o: Office, n: nat, totals: map<string, Totals>, currencies: seq<string>)
    requires n < |o.transactions| && CycleTallied(offices, o, n, totals, currencies)
    ensures var c, tot := CurrencyOf(o.transactions[n], o), TotalsOf(o.transactions[n]);
            CycleTallied(offices, o, n + 1, totals[c := Plus(if c in totals then totals[c] else NO_TOTALS, tot)],
                         if c in currencies then currencies else currencies + [c])
  {
    hide CurrencyOf, TotalsOf, Merged, Currencies, CycleSum, CycleCurrencies, Plus;
    var c, tot := CurrencyOf(o.transactions[n], o), TotalsOf(o.transactions[n]);
    MergedNext(CycleCurrencies(offices), o, n + 1);
    MergedHas(CycleCurrencies(offices), Currencies(o, n));
    CycleUnused(offices, c);
    UnusedIsNothing(o, n, c, None);
    PlusAssoc(CycleSum(offices, c), SumOf(o, n, c, None), tot);
    PlusAssoc(NO_TOTALS, NO_TOTALS, NO_TOTALS);
    OneMoreSums(o, n);
  }

  lemma OneMoreSums(o: Office, n: nat)
    requires n < |o.transactions|
    ensures forall c :: SumOf(o, n + 1, c, None) == if CurrencyOf(o.transactions[n], o) == c then Plus(SumOf(o, n, c, None), TotalsOf(o.transactions[n])) else SumOf(o, n, c, None)
  {
    hide CurrencyOf, TotalsOf, Plus;
  }

  // ---------------------------------------------------------------- a whole file

  lemma Bot93Next(o: Office, keys: seq<(string, string)>, i: nat)
    requires i < |keys|
    ensures Bot93s(o, keys[..i + 1]) == Bot93s(o, keys[..i]) + [Bot93(o, keys[i])]
  {
    hide Bot93;
    assert keys[..i + 1][..i] == keys[..i];
  }

  lemma Bot94Next(o: Office, currencies: seq<string>, i: nat)
    requires i < |currencies|
    ensures Bot94s(o, currencies[..i + 1]) == Bot94s(o, currencies[..i]) + [Bot94(o, currencies[i])]
  {
    hide Bot94;
    assert currencies[..i + 1][..i] == currencies[..i];
  }

  /** The subtotals and the totals of an office. */
  method TotalRecords(o: Office, totals: map<string, Totals>, currencies: seq<string>,
                      byCode: map<(string, string), Totals>, codes: seq<(string, string)>)
    returns (recs: seq<Record>)
    requires OfficeTallied(o, |o.transactions|, totals, currencies, byCode, codes)
    ensures recs == Bot93s(o, Codes(o, |o.transactions|)) + Bot94s(o, Currencies(o, |o.transactions|))
  {
    hide SubtotalRecord, TotalRecord, SumOf, Codes, Currencies;
    recs := [];
    for i := 0 to |codes|
      invariant recs == Bot93s(o, codes[..i])
    {
      Bot93Next(o, codes, i);
      assert codes[i] in codes;
      recs := recs + [SubtotalRecord(o, codes[i], byCode[codes[i]])];
    }
    assert codes[..|codes|] == codes;
    ghost var before := recs;
    for i := 0 to |currencies|
      invariant recs == before + Bot94s(o, currencies[..i])
    {
      Bot94Next(o, currencies, i);
      assert currencies[i] in currencies;
      recs := recs + [TotalRecord(o, currencies[i], totals[currencies[i]])];
    }
    assert currencies[..|currencies|] == currencies;
  }

  /** An office: its header, its transactions, and the totals run up over them. */
  method WriteOffice(o: Office, number: nat, out: string, n: nat, ghost done: seq<Record>,
                     cycle: map<string, Totals>, cycleCurrencies: seq<string>, ghost offices: seq<Office>)
    returns (next: string, m: nat, nextCycle: map<string, Totals>, nextCurrencies: seq<string>)
    requires Emitted(out, n, done) && CycleTallied(offices, o, 0, cycle, cycleCurrencies)
    ensures Emitted(next, m, done + OfficeRecords(o, number))
    ensures CycleTallied(offices, o, |o.transactions|, nextCycle, nextCurrencies)
  {
    hide Emitted, Boh03, TransactionRecords, CycleTallied, OfficeTallied, TotalsOf, Computed, CurrencyOf, AllRecords, Plus;
    var rec, count := Boh03(o), |o.transactions|;
    OneRecord(rec);
    next, m := EmitAll(out, n, [rec], done);
    ghost var now := done + [rec];
    nextCycle, nextCurrencies := cycle, cycleCurrencies;
    var totals: map<string, Totals>, currencies: seq<string> := map[], [];
    var byCode: map<(string, string), Totals>, codes: seq<(string, string)> := map[], [];
    NothingTallied(o);
    for i := 0 to count
      invariant now == done + [rec] + OfficeDetails(o, number, i) && Emitted(next, m, now)
      invariant OfficeTallied(o, i, totals, currencies, byCode, codes)
      invariant CycleTallied(offices, o, i, nextCycle, nextCurrencies)
    {
      var t := o.transactions[i];
      var currency := CurrencyOf(t, o);
      var computed, tot := Compute(t);
      var recs := LayOut(computed, number + i + 1, currency);
      TransactionFull(computed, number + i + 1, currency);
      next, m := EmitAll(next, m, recs, now);
      AddAssoc(done + [rec], OfficeDetails(o, number, i), recs);
      now := now + recs;
      Keyed(offices, o, i, nextCycle, nextCurrencies, totals, currencies, byCode, codes);
      OfficeTalliedNext(o, i, totals, currencies, byCode, codes);
      CycleTalliedNext(offices, o, i, nextCycle, nextCurrencies);
      byCode, codes := Tally(byCode, codes, (t.code, currency), tot);
      totals, currencies := Tally(totals, currencies, currency, tot);
      nextCycle, nextCurrencies := Tally(nextCycle, nextCurrencies, currency, tot);
    }
    var recs := TotalRecords(o, totals, currencies, byCode, codes);
    TotalsFull(o);
    next, m := EmitAll(next, m, recs, now);
    OfficeInParts(done, rec, OfficeDetails(o, number, count), Bot93s(o, Codes(o, count)), Bot94s(o, Currencies(o, count)));
  }

  lemma TotalsFull(o: Office)
    ensures AllRecords(Bot93s(o, Codes(o, |o.transactions|)) + Bot94s(o, Currencies(o, |o.transactions|)))
  {
    hide Bot93s, Bot94s;
  }

  lemma OfficeInParts(done: seq<Record>, rec: Record, details: seq<Record>, subtotals: seq<Record>, totals: seq<Record>)
    ensures done + [rec] + details + (subtotals + totals) == done + ([rec] + details + subtotals + totals)
  {
  }

  lemma OneRecord(rec: Record)
    requires |rec| >= RECORD_LEN
    ensures AllRecords([rec])
  {
  }

  lemma NothingTallied(o: Office)
    ensures OfficeTallied(o, 0, map[], [], map[], [])
  {
  }

  /** Every key noted has its totals. */
  lemma Keyed(offices: seq<Office>, o: Office, n: nat, cycle: map<string, Totals>, cycleCurrencies: seq<string>,
              totals: map<string, Totals>, currencies: seq<string>, byCode: map<(string, string), Totals>, codes: seq<(string, string)>)
    requires n <= |o.transactions| && OfficeTallied(o, n, totals, currencies, byCode, codes)
    requires CycleTallied(offices, o, n, cycle, cycleCurrencies)
    ensures (forall c :: c in currencies <==> c in totals) && (forall key :: key in codes <==> key in byCode)
    ensures forall c :: c in cycleCurrencies <==> c in cycle
  {
  }

  /** The cycle's totals over whole offices. */
  ghost predicate Tallied(offices: seq<Office>, totals: map<string, Totals>, currencies: seq<string>) {
    && currencies == CycleCurrencies(offices) && (forall c :: c in currencies <==> c in totals)
    && forall c | c in totals :: totals[c] == CycleSum(offices, c)
  }

  lemma OfficeOpened(offices: seq<Office>, o: Office, totals: map<string, Totals>, currencies: seq<string>)
    requires Tallied(offices, totals, currencies)
    ensures CycleTallied(offices, o, 0, totals, currencies)
  {
    hide CycleSum, CycleCurrencies;
  }

  lemma OfficeClosed(offices: seq<Office>, o: Office, totals: map<string, Totals>, currencies: seq<string>)
    requires CycleTallied(offices, o, |o.transactions|, totals, currencies)
    ensures Tallied(offices + [o], totals, currencies)
  {
    hide SumOf, Merged, Currencies, Plus;
    assert (offices + [o])[..|offices|] == offices;
  }

  lemma OfficesNext(offices: seq<Office>, i: nat)
    requires i < |offices|
    ensures offices[..i + 1] == offices[..i] + [offices[i]]
    ensures OfficesRecords(offices[..i + 1]) == OfficesRecords(offices[..i]) + OfficeRecords(offices[i], Count(offices[..i]))
    ensures Count(offices[..i + 1]) == Count(offices[..i]) + |offices[i].transactions|
  {
    hide OfficeRecords;
    assert offices[..i + 1][..i] == offices[..i];
  }

  lemma FootingsNext(f: File, currencies: seq<string>, i: nat)
    requires i < |currencies|
    ensures Bct95s(f, currencies[..i + 1]) == Bct95s(f, currencies[..i]) + [Footing("BCT", 95, f.week, 17, f, currencies[i])]
    ensures Bft99s(f, currencies[..i + 1]) == Bft99s(f, currencies[..i]) + [Footing("BFT", 99, f.plan, 16, f, currencies[i])]
  {
    hide Footing;
    assert currencies[..i + 1][..i] == currencies[..i];
  }

  /** The cycle totals and then the file totals. */
  method Footings(f: File, cycle: map<string, Totals>, currencies: seq<string>) returns (recs: seq<Record>)
    requires forall c | c in currencies :: c in cycle && cycle[c] == CycleSum(f.offices, c)
    ensures recs == Bct95s(f, currencies) + Bft99s(f, currencies)
  {
    hide FootingRecord, CycleSum;
    recs := [];
    for i := 0 to |currencies|
      invariant recs == Bct95s(f, currencies[..i])
    {
      FootingsNext(f, currencies, i);
      assert currencies[i] in currencies;
      recs := recs + [FootingRecord("BCT", 95, f.week, 17, f, currencies[i], cycle[currencies[i]])];
    }
    assert currencies[..|currencies|] == currencies;
    ghost var before := recs;
    for i := 0 to |currencies|
      invariant recs == before + Bft99s(f, currencies[..i])
    {
      FootingsNext(f, currencies, i);
      assert currencies[i] in currencies;
      recs := recs + [FootingRecord("BFT", 99, f.plan, 16, f, currencies[i], cycle[currencies[i]])];
    }
  }

  lemma FootingsFull(f: File)
    ensures AllRecords([Bfh01(f), Bch02(f)]) && AllRecords(Bct95s(f, FootingCurrencies(f)) + Bft99s(f, FootingCurrencies(f)))
  {
    hide Bfh01, Bch02, Bct95s, Bft99s, Printable, FootingCurrencies;
    FootingsPrintable(f, FootingCurrencies(f));
  }

  /** Writes the file: every record numbered, every total run up in one pass. */
  method Write(f: File) returns (out: string)
    ensures out == TextOfFile(f)
  {
    hide Emitted, Bfh01, Bch02, OfficeRecords, OfficesRecords, Tallied, CycleTallied, Bct95s, Bft99s, AllRecords, CycleSum, Count;
    FootingsFull(f);
    NothingEmitted();
    ghost var heads := [Bfh01(f), Bch02(f)];
    var n: nat;
    out, n := EmitAll("", 0, [Bfh01(f), Bch02(f)], []);
    ghost var now := heads;
    assert [] + heads == heads;
    var cycle: map<string, Totals>, currencies: seq<string>, number: nat := map[], [], 0;
    NoOffices(f);
    for i := 0 to |f.offices|
      invariant now == heads + OfficesRecords(f.offices[..i]) && Emitted(out, n, now)
      invariant number == Count(f.offices[..i]) && Tallied(f.offices[..i], cycle, currencies)
    {
      var o := f.offices[i];
      OfficesNext(f.offices, i);
      OfficeOpened(f.offices[..i], o, cycle, currencies);
      out, n, cycle, currencies := WriteOffice(o, number, out, n, now, cycle, currencies, f.offices[..i]);
      OfficeClosed(f.offices[..i], o, cycle, currencies);
      AddAssoc(heads, OfficesRecords(f.offices[..i]), OfficeRecords(o, number));
      now := now + OfficeRecords(o, number);
      number := number + |o.transactions|;
    }
    assert f.offices[..|f.offices|] == f.offices;
    TalliedTotals(f.offices, cycle, currencies);
    if currencies == [] {
      currencies, cycle := [""], map["" := NO_TOTALS];
    }
    var recs := Footings(f, cycle, currencies);
    out, n := EmitAll(out, n, recs, now);
    AddAssoc(now, Bct95s(f, currencies), Bft99s(f, currencies));
    AllEmitted(out, n, FileRecords(f));
  }

  lemma NoOffices(f: File)
    ensures OfficesRecords(f.offices[..0]) == [] && Count(f.offices[..0]) == 0 && Tallied(f.offices[..0], map[], [])
  {
  }

  lemma TalliedTotals(offices: seq<Office>, totals: map<string, Totals>, currencies: seq<string>)
    requires Tallied(offices, totals, currencies)
    ensures currencies == CycleCurrencies(offices) && forall c | c in currencies :: c in totals && totals[c] == CycleSum(offices, c)
    ensures currencies == [] ==> CycleSum(offices, "") == NO_TOTALS
  {
    CycleUnused(offices, "");
  }

  lemma AllEmitted(out: string, n: nat, done: seq<Record>)
    requires Emitted(out, n, done)
    ensures AllRecords(done) && out == TextOf(Written(done))
  {
  }

  // ---------------------------------------------------------------- reading

  /** Closes the transaction in progress, if there is one. */
  method Finish(r: Reader) returns (result: Result)
    requires r.tx.Some? ==> r.file.offices != []
    ensures result == Finished(r)
  {
    if r.tx.None? {
      return Read(r);
    }
    if r.stated != 0 && r.count != r.stated {
      return Failed(BadCount);
    }
    var all := r.file.offices;
    var o := all[|all| - 1];
    all := all[|all| - 1 := o.(transactions := o.transactions + [r.tx.value])];
    return Read(r.(file := r.file.(offices := all), tx := None));
  }

  /** Up to three taxes from their columns. */
  method ReadAmounts(t: Transaction, rec: Record) returns (next: Transaction)
    requires |rec| >= RECORD_LEN
    ensures next == WithDetail(t, "BKS30", rec)
  {
    hide Get, GetAmount;
    next := t;
    var fare, total := GetAmount(rec, 41, 51), GetAmount(rec, 120, 130);
    if fare != 0 {
      next := next.(fare := fare);
    }
    if total != 0 {
      next := next.(total := total);
    }
    var cols := [63, 82, 101];
    ghost var taxes := [TaxAt(rec, 63), TaxAt(rec, 82), TaxAt(rec, 101)];
    ghost var start := next;
    for i := 0 to 3
      invariant next == start.(taxes := t.taxes + (if i > 0 then taxes[0] else []) + (if i > 1 then taxes[1] else []) + (if i > 2 then taxes[2] else []))
    {
      var col: nat := cols[i];
      var code := Get(rec, col, col + 7);
      if code != "" {
        next := next.(taxes := next.taxes + [Tax(code, GetAmount(rec, col + 8, col + 18))]);
      }
    }
    next := next.(currency := Get(rec, 133, 136));
  }

  /** One record after the other, by its identifier. */
  method ReadRecord(r: Reader, rec: Record) returns (result: Result)
    requires |rec| >= RECORD_LEN && (r.tx.Some? ==> r.file.offices != [])
    ensures result == Applied(r, rec)
    ensures result.Read? && result.reader.tx.Some? ==> result.reader.file.offices != []
  {
    hide Get, GetAmount, TrimBlanks, IsDetail;
    var id := IdOf(rec);
    var next := r;
    if r.tx.Some? && IsDetail(id) {
      next := next.(count := r.count + 1);
    }
    match id {
      case "BFH01" =>
        next := next.(file := next.file.(plan := Get(rec, 14, 16), airline := Get(rec, 17, 19), sequence := AtoiOrZero(Get(rec, 39, 44))));
      case "BCH02" =>
        next := next.(file := next.file.(week := Get(rec, 14, 16)));
      case "BOH03" =>
        result := Finish(next);
        if result.Failed? {
          return;
        }
        next := result.reader;
        next := next.(file := next.file.(offices :=
          next.file.offices + [Office(Get(rec, 14, 21), Get(rec, 22, 27), Get(rec, 28, 31), [])]));
      case "BKT06" =>
        result := Finish(next);
        if result.Failed? {
          return;
        }
        next := result.reader;
        if next.file.offices == [] {
          return Failed(NoOffice);
        }
        next := next.(tx := Some(NEW.(system := Get(rec, 65, 68))), stated := AtoiOrZero(Get(rec, 22, 24)), count := 1);
      case "BKS24" =>
        if next.tx.None? {
          return Failed(NoTransaction);
        }
        next := next.(tx := Some(next.tx.value.(issued := Get(rec, 14, 19), document := Get(rec, 26, 39),
          checkDigit := AtoiOrZero(Get(rec, 40, 40)), agent := Get(rec, 48, 55), code := Get(rec, 72, 75), locator := Get(rec, 86, 98))));
      case "BKS30" =>
        if next.tx.Some? {
          var t := ReadAmounts(next.tx.value, rec);
          next := next.(tx := Some(t));
        }
      case "BKS39" =>
        if next.tx.Some? {
          next := next.(tx := Some(next.tx.value.(commissionRate := AtoiOrZero(Get(rec, 50, 54)), commission := -GetAmount(rec, 55, 65))));
        }
      case "BKS45" =>
        if next.tx.Some? {
          next := next.(tx := Some(next.tx.value.(related := Get(rec, 26, 39))));
        }
      case "BKS46" =>
        if next.tx.Some? {
          next := next.(tx := Some(next.tx.value.(original := Get(rec, 41, 54))));
        }
      case "BKI63" =>
        if next.tx.Some? {
          next := next.(tx := Some(next.tx.value.(coupons := next.tx.value.coupons + [Coupon(AtoiOrZero(Get(rec, 41, 41)), Get(rec, 67, 71))])));
        }
      case "BAR64" =>
      case "BAR65" =>
        if next.tx.Some? {
          next := next.(tx := Some(next.tx.value.(passenger := Get(rec, 41, 89))));
        }
      case "BKP84" =>
        if next.tx.Some? {
          var p := Payment(Get(rec, 26, 35), GetAmount(rec, 36, 46), Get(rec, 47, 65), GetAmount(rec, 98, 108));
          next := next.(tx := Some(next.tx.value.(payments := next.tx.value.payments + [p])));
        }
      case "BOT93" | "BOT94" | "BCT95" | "BFT99" =>
        result := Finish(next);
        return;
      case _ =>
        next := next.(fragments := next.fragments + [TrimBlanks(rec)]);
    }
    result := Read(next);
  }

  lemma {:induction false} RecordsOfPrefix(lines: seq<string>, i: nat)
    requires i <= |lines|
    ensures RecordsOf(lines[..i]) <= RecordsOf(lines)
    decreases |lines|
  {
    if i < |lines| {
      RecordsOfPrefix(lines[..|lines| - 1], i);
      assert lines[..|lines| - 1][..i] == lines[..i];
    } else {
      assert lines[..i] == lines;
    }
  }

  lemma {:induction false} FailureStays(some: seq<Record>, recs: seq<Record>)
    requires AllRecords(recs) && some <= recs && ReadFrom(some).Failed?
    ensures ReadFrom(recs) == ReadFrom(some)
    decreases |recs|
  {
    hide Applied;
    if |some| < |recs| {
      FailureStays(some, recs[..|recs| - 1]);
    } else {
      assert some == recs;
    }
  }

  /** What is wrong with the first lines is wrong with all of them. */
  lemma FailedEarly(lines: seq<string>, i: nat, e: ReadError)
    requires i <= |lines| && ReadFrom(RecordsOf(lines[..i])) == Failed(e)
    ensures Parsed(RecordsOf(lines)) == Failed(e)
  {
    hide ReadFrom, RecordsOf;
    RecordsOfPrefix(lines, i);
    FailureStays(RecordsOf(lines[..i]), RecordsOf(lines));
  }

  lemma LineRead(lines: seq<string>, i: nat, r: Reader)
    requires i < |lines| && ReadFrom(RecordsOf(lines[..i])) == Read(r)
    ensures var line, n := WithoutReturns(lines[i]), |RecordsOf(lines[..i])| + 1;
            var rec := line + Blanks(RECORD_LEN - |line|);
            && RecordsOf(lines[..i + 1]) == (if line == "" then RecordsOf(lines[..i]) else RecordsOf(lines[..i]) + [rec])
            && |rec| >= RECORD_LEN
            && (line != "" ==> ReadFrom(RecordsOf(lines[..i + 1])) ==
                               (if AtoiOrZero(Get(rec, 4, 11)) != n then Failed(BadSequence) else Applied(r, rec)))
  {
    hide Applied, WithoutReturns, Get;
    assert lines[..i + 1][..i] == lines[..i];
  }

  /** Reads a file: every record in its place, every transaction as long as it says. */
  method Parse(text: string) returns (result: Result)
    ensures result == ParsedText(text)
  {
    hide ReadFrom, RecordsOf, Lines, Applied, Get, WithoutReturns, Finished;
    var lines := Lines(text);
    var r, n := START, 0;
    NothingRead(lines);
    for i := 0 to |lines|
      invariant n == |RecordsOf(lines[..i])| && ReadFrom(RecordsOf(lines[..i])) == Read(r)
      invariant r.tx.Some? ==> r.file.offices != []
    {
      LineRead(lines, i, r);
      var line := WithoutReturns(lines[i]);
      if line != "" {
        n := n + 1;
        line := line + Blanks(RECORD_LEN - |line|);
        if AtoiOrZero(Get(line, 4, 11)) != n {
          FailedEarly(lines, i + 1, BadSequence);
          return Failed(BadSequence);
        }
        result := ReadRecord(r, line);
        if result.Failed? {
          FailedEarly(lines, i + 1, result.error);
          return;
        }
        r := result.reader;
      }
    }
    assert lines[..|lines|] == lines;
    result := Finish(r);
    if result.Read? && n == 0 {
      result := Failed(EmptyFile);
    }
  }

  lemma NothingRead(lines: seq<string>)
    ensures RecordsOf(lines[..0]) == [] && ReadFrom([]) == Read(START)
  {
  }

  lemma RemittanceNext(ps: seq<Payment>, i: nat)
    requires i < |ps|
    ensures RemittanceSum(ps[..i + 1]) == RemittanceSum(ps[..i]) + ps[i].remittance
  {
    assert ps[..i + 1][..i] == ps[..i];
  }

  /** A reader's own totals of an office. */
  method OfficeTotals(o: Office) returns (tot: Totals)
    ensures tot == OfficeSum(o.transactions)
  {
    hide TaxSum, RemittanceSum;
    tot := NO_TOTALS;
    for i := 0 to |o.transactions|
      invariant tot == OfficeSum(o.transactions[..i])
    {
      var t := o.transactions[i];
      var taxes, remitted := 0, 0;
      SumsOfNothing(t);
      for k := 0 to |t.taxes|
        invariant taxes == TaxSum(t.taxes[..k])
      {
        TaxSumNext(t.taxes, k);
        taxes := taxes + t.taxes[k].amount;
      }
      for k := 0 to |t.payments|
        invariant remitted == RemittanceSum(t.payments[..k])
      {
        RemittanceNext(t.payments, k);
        remitted := remitted + t.payments[k].remittance;
      }
      assert t.taxes[..|t.taxes|] == t.taxes && t.payments[..|t.payments|] == t.payments;
      assert o.transactions[..i + 1][..i] == o.transactions[..i];
      tot := Plus(tot, Totals(t.total, remitted, -t.commission, taxes));
    }
    assert o.transactions[..|o.transactions|] == o.transactions;
  }

  lemma SumsOfNothing(t: Transaction)
    ensures TaxSum(t.taxes[..0]) == 0 && RemittanceSum(t.payments[..0]) == 0
  {
  }
}
