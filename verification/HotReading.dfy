/** Reading the records of one transaction, one after the other. */
module HotReading {
  import opened Wrappers
  import opened Sequences
  import opened HotRecord
  import opened HotFile
  import opened HotColumns

  // ---------------------------------------------------------------- reading lists of records

  lemma {:induction false} AppliedConcat(r: Reader, xs: seq<Record>, ys: seq<Record>)
    requires AllRecords(xs) && AllRecords(ys)
    ensures AllRecords(xs + ys)
    ensures AppliedAll(r, xs + ys)
         == match AppliedAll(r, xs) case Failed(e) => Failed(e) case Read(mid) => AppliedAll(mid, ys)
    decreases |ys|
  {
    hide Applied;
    if ys == [] {
      assert xs + ys == xs;
    } else {
      assert (xs + ys)[..|xs| + |ys| - 1] == xs + ys[..|ys| - 1];
      AppliedConcat(r, xs, ys[..|ys| - 1]);
    }
  }

  lemma NothingApplied(r: Reader)
    ensures AppliedAll(r, []) == Read(r)
  {
  }

  lemma AppliedOne(r: Reader, rec: Record)
    requires |rec| >= RECORD_LEN
    ensures AppliedAll(r, [rec]) == Applied(r, rec)
  {
    hide Applied;
    assert [rec][..0] == [];
    assert AppliedAll(r, [rec][..0]) == Read(r);
  }

  /** Two stretches one after the other. */
  lemma AppliedThen(r: Reader, xs: seq<Record>, mid: Reader, ys: seq<Record>, end: Reader)
    requires AllRecords(xs) && AllRecords(ys)
    requires AppliedAll(r, xs) == Read(mid) && AppliedAll(mid, ys) == Read(end)
    ensures AllRecords(xs + ys) && AppliedAll(r, xs + ys) == Read(end)
  {
    AppliedConcat(r, xs, ys);
  }

  /** What a known detail record does. */
  lemma DetailApplied(r: Reader, x: Transaction, rec: Record, id: string)
    requires |rec| >= RECORD_LEN && IdOf(rec) == id && IsKnownDetail(id) && r.tx == Some(x)
    ensures Applied(r, rec) == Read(r.(count := r.count + 1, tx := Some(WithDetail(x, id, rec))))
  {
    hide WithDetail, IdOf, Finished;
  }

  /** The reader some details later. */
  function Later(r: Reader, x: Transaction, n: nat): Reader {
    r.(count := r.count + n, tx := Some(x))
  }

  /** One detail record, from a reader to the next. */
  lemma OneDetail(r: Reader, x: Transaction, rec: Record, id: string, y: Transaction)
    requires |rec| >= RECORD_LEN && IdOf(rec) == id && IsKnownDetail(id) && r.tx == Some(x) && WithDetail(x, id, rec) == y
    ensures AllRecords([rec]) && AppliedAll(r, [rec]) == Read(Later(r, y, 1))
  {
    hide WithDetail, IdOf, Applied;
    DetailApplied(r, x, rec, id);
    AppliedOne(r, rec);
  }

  // ---------------------------------------------------------------- one transaction

  lemma {:induction false} Bks30sApplied(r: Reader, x: Transaction, t: Transaction, number: nat, currency: string, taxes: seq<Tax>, first: bool)
    requires r.tx == Some(x) && (if first then x.fare == 0 && x.total == 0 else x.currency == KeptText(currency, 4))
    ensures var recs := Bks30s(t, number, currency, taxes, first);
            var y := x.(fare := if first then KeptAmount(t.fare, 11) else x.fare,
                        total := if first then KeptAmount(t.total, 11) else x.total,
                        taxes := x.taxes + KeptTaxes(taxes), currency := KeptText(currency, 4));
            AllRecords(recs) && AppliedAll(r, recs) == Read(Later(r, y, |recs|))
    decreases |taxes|, first
  {
    hide KeptText, KeptAmount, KeptTaxes, Bks30, Applied, IdOf, Get, GetAmount, TaxAt;
    if !first && taxes == [] {
      NothingKept();
      assert x.taxes + [] == x.taxes;
    } else {
      var now := if |taxes| > 3 then taxes[..3] else taxes;
      var rec := Bks30(t, number, currency, taxes, first);
      Bks30Same(t, number, currency, taxes, first);
      Bks30Reads(t, number, currency, now, first);
      DetailApplied(r, x, rec, "BKS30");
      AppliedOne(r, rec);
      var y := x.(fare := if first then KeptAmount(t.fare, 11) else x.fare,
                  total := if first then KeptAmount(t.total, 11) else x.total,
                  taxes := x.taxes + KeptTaxes(now), currency := KeptText(currency, 4));
      TaxesAdded(x, rec, KeptTaxes(now));
      assert WithDetail(x, "BKS30", rec) == y;
      if |taxes| > 3 {
        var mid := Later(r, y, 1);
        Bks30sApplied(mid, y, t, number, currency, taxes[3..], false);
        KeptTaxesConcat(taxes[..3], taxes[3..]);
        AddAssoc(x.taxes, KeptTaxes(taxes[..3]), KeptTaxes(taxes[3..]));
        assert taxes[..3] + taxes[3..] == taxes;
        var rest := Bks30s(t, number, currency, taxes[3..], false);
        var z := y.(taxes := y.taxes + KeptTaxes(taxes[3..]));
        AppliedThen(r, [rec], mid, rest, Later(mid, z, |rest|));
      }
    }
  }

  lemma NothingKept()
    ensures KeptTaxes([]) == []
  {
  }

  lemma TaxesAdded(x: Transaction, rec: Record, taxes: seq<Tax>)
    requires |rec| == RECORD_LEN && TaxAt(rec, 63) + TaxAt(rec, 82) + TaxAt(rec, 101) == taxes
    ensures x.taxes + TaxAt(rec, 63) + TaxAt(rec, 82) + TaxAt(rec, 101) == x.taxes + taxes
  {
    hide TaxAt;
    var a, b, c := TaxAt(rec, 63), TaxAt(rec, 82), TaxAt(rec, 101);
    assert x.taxes + a + b + c == x.taxes + (a + b + c);
  }

  /** Only the first three of the taxes left go on a record. */
  lemma Bks30Same(t: Transaction, number: nat, currency: string, taxes: seq<Tax>, first: bool)
    ensures Bks30(t, number, currency, taxes, first)
         == Bks30(t, number, currency, if |taxes| > 3 then taxes[..3] else taxes, first)
  {
    hide Put, PutAmount, WithFare;
  }

  lemma CouponAdded(r: Reader, x: Transaction, t: Transaction, number: nat, c: Coupon)
    requires r.tx == Some(x)
    ensures var rec := Bki63(t, number, c);
            AllRecords([rec]) && AppliedAll(r, [rec]) == Read(Later(r, x.(coupons := x.coupons + [KeptCoupon(c)]), 1))
  {
    hide KeptCoupon, Bki63, IdOf, Get, AppliedAll;
    Bki63Reads(t, number, c);
    OneDetail(r, x, Bki63(t, number, c), "BKI63", x.(coupons := x.coupons + [KeptCoupon(c)]));
  }

  lemma {:induction false} Bki63sApplied(r: Reader, x: Transaction, t: Transaction, number: nat, coupons: seq<Coupon>)
    requires r.tx == Some(x)
    ensures var recs := Bki63s(t, number, coupons);
            AllRecords(recs) && AppliedAll(r, recs) == Read(Later(r, x.(coupons := x.coupons + KeptCoupons(coupons)), |recs|))
    decreases |coupons|
  {
    hide KeptCoupon, Bki63, AppliedAll;
    if coupons == [] {
      NothingApplied(r);
      assert x.coupons + KeptCoupons(coupons) == x.coupons;
    } else {
      var init, c := coupons[..|coupons| - 1], coupons[|coupons| - 1];
      Bki63sApplied(r, x, t, number, init);
      var y, recs := x.(coupons := x.coupons + KeptCoupons(init)), Bki63s(t, number, init);
      CouponAdded(Later(r, y, |recs|), y, t, number, c);
      AddAssoc(x.coupons, KeptCoupons(init), [KeptCoupon(c)]);
      assert KeptCoupons(init) + [KeptCoupon(c)] == KeptCoupons(coupons);
      AppliedThen(r, recs, Later(r, y, |recs|), [Bki63(t, number, c)],
                  Later(r, x.(coupons := x.coupons + KeptCoupons(coupons)), |recs| + 1));
    }
  }

  lemma PaymentAdded(r: Reader, x: Transaction, t: Transaction, number: nat, currency: string, p: Payment)
    requires r.tx == Some(x)
    ensures var rec := Bkp84(t, number, currency, p);
            AllRecords([rec]) && AppliedAll(r, [rec]) == Read(Later(r, x.(payments := x.payments + [KeptPayment(p)]), 1))
  {
    hide KeptPayment, Bkp84, IdOf, Get, GetAmount, AppliedAll;
    Bkp84Reads(t, number, currency, p);
    OneDetail(r, x, Bkp84(t, number, currency, p), "BKP84", x.(payments := x.payments + [KeptPayment(p)]));
  }

  lemma {:induction false} Bkp84sApplied(r: Reader, x: Transaction, t: Transaction, number: nat, currency: string, ps: seq<Payment>)
    requires r.tx == Some(x)
    ensures var recs := Bkp84s(t, number, currency, ps);
            AllRecords(recs) && AppliedAll(r, recs) == Read(Later(r, x.(payments := x.payments + KeptPayments(ps)), |recs|))
    decreases |ps|
  {
    hide KeptPayment, Bkp84, AppliedAll;
    if ps == [] {
      NothingApplied(r);
      assert x.payments + KeptPayments(ps) == x.payments;
    } else {
      var init, p := ps[..|ps| - 1], ps[|ps| - 1];
      Bkp84sApplied(r, x, t, number, currency, init);
      var y, recs := x.(payments := x.payments + KeptPayments(init)), Bkp84s(t, number, currency, init);
      PaymentAdded(Later(r, y, |recs|), y, t, number, currency, p);
      AddAssoc(x.payments, KeptPayments(init), [KeptPayment(p)]);
      assert KeptPayments(init) + [KeptPayment(p)] == KeptPayments(ps);
      AppliedThen(r, recs, Later(r, y, |recs|), [Bkp84(t, number, currency, p)],
                  Later(r, x.(payments := x.payments + KeptPayments(ps)), |recs| + 1));
    }
  }

  /** A transaction as its header starts it. */
  function Started(t: Transaction): Transaction {
    NEW.(system := KeptText(t.system, 4))
  }

  /** A transaction read as far as its commission. */
  function Priced(t: Transaction, currency: string): Transaction {
    Kept(t, currency).(related := "", original := "", coupons := [], passenger := "", payments := [])
  }

  /** Document, taxes, commission. */
  lemma MoneyApplied(r: Reader, t: Transaction, number: nat, currency: string)
    requires r.tx == Some(Started(t))
    ensures var recs := [Bks24(t, number)] + Bks30s(t, number, currency, t.taxes, true) + [Bks39(t, number, currency)];
            AllRecords(recs) && AppliedAll(r, recs) == Read(Later(r, Priced(t, currency), |recs|))
  {
    hide KeptText, KeptWide, KeptNumber, KeptAmount, KeptTaxes, KeptCoupons, KeptPayments, KeptRelated, CashLast,
         Bks24, Bks30s, Bks39, IdOf, Get, GetAmount, Details, AppliedAll;
    var k, x0 := Kept(t, currency), Started(t);
    var x1 := x0.(issued := k.issued, document := k.document, checkDigit := k.checkDigit, agent := k.agent, code := k.code,
                  locator := k.locator);
    Bks24Reads(t, number);
    OneDetail(r, x0, Bks24(t, number), "BKS24", x1);
    var r1 := Later(r, x1, 1);
    Bks30sApplied(r1, x1, t, number, currency, t.taxes, true);
    var taxRecs := Bks30s(t, number, currency, t.taxes, true);
    assert x1.taxes + k.taxes == k.taxes;
    var x2 := x1.(fare := k.fare, total := k.total, taxes := k.taxes, currency := k.currency);
    var r2 := Later(r1, x2, |taxRecs|);
    AppliedThen(r, [Bks24(t, number)], r1, taxRecs, r2);
    Bks39Reads(t, number, currency);
    OneDetail(r2, x2, Bks39(t, number, currency), "BKS39", Priced(t, currency));
    AppliedThen(r, [Bks24(t, number)] + taxRecs, r2, [Bks39(t, number, currency)], Later(r2, Priced(t, currency), 1));
  }

  lemma RelatedApplied(r: Reader, x: Transaction, t: Transaction, number: nat)
    requires r.tx == Some(x) && x.related == "" && x.original == ""
    ensures var recs := (if t.related != "" then [Bks45(t, number)] else []) + (if t.original != "" then [Bks46(t, number)] else []);
            var y := x.(related := KeptRelated(t.related, t.document),
                        original := if t.original == "" then "" else KeptText(t.original, 14));
            AllRecords(recs) && AppliedAll(r, recs) == Read(Later(r, y, |recs|))
  {
    hide Bks45, Bks46, IdOf, Get, AppliedAll, KeptText, KeptRelated;
    var xs := if t.related != "" then [Bks45(t, number)] else [];
    var ys := if t.original != "" then [Bks46(t, number)] else [];
    var y := x.(related := KeptRelated(t.related, t.document));
    var z := y.(original := if t.original == "" then "" else KeptText(t.original, 14));
    var mid := Later(r, y, |xs|);
    NothingApplied(r);
    NothingRelated(t.document);
    if t.related != "" {
      Bks45Reads(t, number);
      OneDetail(r, x, Bks45(t, number), "BKS45", y);
    }
    NothingApplied(mid);
    if t.original != "" {
      Bks46Reads(t, number);
      OneDetail(mid, y, Bks46(t, number), "BKS46", z);
    }
    AppliedThen(r, xs, mid, ys, Later(mid, z, |ys|));
  }

  lemma NothingRelated(document: string)
    ensures KeptRelated("", document) == ""
  {
  }

  lemma PeopleApplied(r: Reader, x: Transaction, t: Transaction, number: nat)
    requires r.tx == Some(x) && x.coupons == []
    ensures var recs := Bki63s(t, number, t.coupons) + [Bar64(t, number), Bar65(t, number)];
            var y := x.(coupons := KeptCoupons(t.coupons), passenger := KeptText(t.passenger, 49));
            AllRecords(recs) && AppliedAll(r, recs) == Read(Later(r, y, |recs|))
  {
    hide KeptText, KeptCoupons, Bki63s, Bar64, Bar65, IdOf, Get, AppliedAll;
    Bki63sApplied(r, x, t, number, t.coupons);
    assert x.coupons + KeptCoupons(t.coupons) == KeptCoupons(t.coupons);
    var recs, y := Bki63s(t, number, t.coupons), x.(coupons := KeptCoupons(t.coupons));
    var z := y.(passenger := KeptText(t.passenger, 49));
    var mid := Later(r, y, |recs|);
    BarsRead(t, number);
    OneDetail(mid, y, Bar64(t, number), "BAR64", y);
    var next := Later(mid, y, 1);
    OneDetail(next, y, Bar65(t, number), "BAR65", z);
    AppliedThen(mid, [Bar64(t, number)], next, [Bar65(t, number)], Later(next, z, 1));
    assert [Bar64(t, number)] + [Bar65(t, number)] == [Bar64(t, number), Bar65(t, number)];
    AppliedThen(r, recs, mid, [Bar64(t, number), Bar65(t, number)], Later(mid, z, 2));
  }

  /** All the details of a transaction, whatever they hold. */
  lemma DetailsApplied(r: Reader, t: Transaction, number: nat, currency: string)
    requires r.tx == Some(Started(t))
    ensures var recs := Details(t, number, currency);
            AllRecords(recs) && AppliedAll(r, recs) == Read(Later(r, Kept(t, currency), |recs|))
  {
    hide KeptText, KeptWide, KeptNumber, KeptAmount, KeptTaxes, KeptCoupons, KeptPayments, KeptRelated, CashLast,
         Bks24, Bks30s, Bks39, Bks45, Bks46, Bki63s, Bar64, Bar65, Bkp84s, AppliedAll, Started;
    var k := Kept(t, currency);
    var money := [Bks24(t, number)] + Bks30s(t, number, currency, t.taxes, true) + [Bks39(t, number, currency)];
    var related, original := if t.related != "" then [Bks45(t, number)] else [], if t.original != "" then [Bks46(t, number)] else [];
    var coupons, bars := Bki63s(t, number, t.coupons), [Bar64(t, number), Bar65(t, number)];
    var pays := Bkp84s(t, number, currency, CashLast(t.payments));
    MoneyApplied(r, t, number, currency);
    var x1 := Priced(t, currency);
    var r1 := Later(r, x1, |money|);
    RelatedApplied(r1, x1, t, number);
    var x2 := x1.(related := k.related, original := k.original);
    var r2 := Later(r1, x2, |related + original|);
    AppliedThen(r, money, r1, related + original, r2);
    PeopleApplied(r2, x2, t, number);
    var x3 := x2.(coupons := k.coupons, passenger := k.passenger);
    var r3 := Later(r2, x3, |coupons + bars|);
    AppliedThen(r, money + (related + original), r2, coupons + bars, r3);
    Bkp84sApplied(r3, x3, t, number, currency, CashLast(t.payments));
    assert x3.payments + k.payments == k.payments;
    AppliedThen(r, money + (related + original) + (coupons + bars), r3, pays, Later(r3, k, |pays|));
    SixParts(money, related, original, coupons, bars, pays);
  }

  lemma SixParts<T>(a: seq<T>, b: seq<T>, c: seq<T>, d: seq<T>, e: seq<T>, f: seq<T>)
    ensures a + (b + c) + (d + e) + f == a + b + c + d + e + f
  {
  }
}
