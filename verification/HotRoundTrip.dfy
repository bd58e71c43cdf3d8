/** Any written settlement file whose transactions can be counted parses, to what its
    columns keep of it. */
module HotRoundTrip {
  import opened Wrappers
  import opened Text
  import opened Decimal
  import opened HotRecord
  import opened HotFile
  import opened HotColumns
  import opened HotReading

  // ---------------------------------------------------------------- a transaction in a file

  lemma {:induction false} Bks30sLength(t: Transaction, a: nat, b: nat, currency: string, taxes: seq<Tax>, first: bool)
    ensures |Bks30s(t, a, currency, taxes, first)| == |Bks30s(t, b, currency, taxes, first)|
    decreases |taxes|, first
  {
    hide Bks30;
    if |taxes| > 3 {
      Bks30sLength(t, a, b, currency, taxes[3..], false);
    }
  }

  lemma {:induction false} Bki63sLength(t: Transaction, number: nat, coupons: seq<Coupon>)
    ensures |Bki63s(t, number, coupons)| == |coupons|
    decreases |coupons|
  {
    hide Bki63;
    if coupons != [] {
      Bki63sLength(t, number, coupons[..|coupons| - 1]);
    }
  }

  lemma {:induction false} Bkp84sLength(t: Transaction, number: nat, currency: string, ps: seq<Payment>)
    ensures |Bkp84s(t, number, currency, ps)| == |ps|
    decreases |ps|
  {
    hide Bkp84;
    if ps != [] {
      Bkp84sLength(t, number, currency, ps[..|ps| - 1]);
    }
  }

  lemma DetailsLength(t: Transaction, a: nat, b: nat, currency: string)
    ensures |Details(t, a, currency)| == |Details(t, b, currency)|
  {
    hide Bks24, Bks30s, Bks39, Bks45, Bks46, Bki63s, Bar64, Bar65, Bkp84s, CashLast;
    Bks30sLength(t, a, b, currency, t.taxes, true);
    Bki63sLength(t, a, t.coupons);
    Bki63sLength(t, b, t.coupons);
    Bkp84sLength(t, a, currency, CashLast(t.payments));
    Bkp84sLength(t, b, currency, CashLast(t.payments));
  }

  /** A reader that has come to this file, once it files what it has in hand. */
  ghost predicate FilesAs(r: Reader, f: File) {
    var done := Finished(r);
    done.Read? && done.reader.file == f && done.reader.tx == None && done.reader.fragments == []
  }

  function Added(f: File, t: Transaction): File
    requires f.offices != []
  {
    var o := f.offices[|f.offices| - 1];
    f.(offices := f.offices[|f.offices| - 1 := o.(transactions := o.transactions + [t])])
  }

  lemma HeaderApplied(r: Reader, done: Reader, t: Transaction, number: nat, count: nat) returns (stated: int)
    requires Finished(r) == Read(done) && done.file.offices != [] && count >= 1
    ensures stated >= 1 && (stated == count <==> count < Pow10(3))
    ensures Applied(r, Bkt06(t, number, count)) == Read(done.(tx := Some(Started(t)), stated := stated, count := 1))
  {
    hide Bkt06, IdOf, Finished, Pow10, Get, KeptText;
    Bkt06Reads(t, number, count);
    stated := AtoiOrZero(Get(Bkt06(t, number, count), 22, 24));
  }

  /** One transaction more is filed, with what its columns keep, if its header can count
      its records; otherwise whatever files it next fails. */
  lemma TransactionAppliedExactly(r: Reader, f: File, t: Transaction, number: nat, currency: string) returns (next: Reader)
    requires FilesAs(r, f) && f.offices != []
    ensures AllRecords(TransactionRecords(t, number, currency))
    ensures AppliedAll(r, TransactionRecords(t, number, currency)) == Read(next)
    ensures if Countable(t, currency) then FilesAs(next, Added(f, Kept(t, currency))) else Finished(next) == Failed(BadCount)
  {
    hide Bkt06, Details, Applied, AppliedAll, Pow10, Kept, Started;
    var details := Details(t, number, currency);
    DetailsLength(t, number, 0, currency);
    var done := Finished(r).reader;
    var head := Bkt06(t, number, 1 + |details|);
    var stated := HeaderApplied(r, done, t, number, 1 + |details|);
    AppliedOne(r, head);
    var mid := done.(tx := Some(Started(t)), stated := stated, count := 1);
    DetailsApplied(mid, t, number, currency);
    next := Later(mid, Kept(t, currency), |details|);
    AppliedThen(r, [head], mid, details, next);
  }

  // ---------------------------------------------------------------- an office

  /** Every one of the first n transactions can be counted. */
  predicate OfficeCountable(o: Office, n: nat)
    requires n <= |o.transactions|
  {
    forall i | 0 <= i < n :: Countable(Computed(o.transactions[i]), CurrencyOf(o.transactions[i], o))
  }

  /** What should be read of an office's first n transactions: all of them, computed, in
      their currencies. */
  function ReadTransactions(o: Office, n: nat): (r: seq<Transaction>)
    requires n <= |o.transactions|
    ensures |r| == n
  {
    seq(n, i requires 0 <= i < n => ReadBack(Computed(o.transactions[i]), CurrencyOf(o.transactions[i], o)))
  }

  function ReadOffice(o: Office, n: nat): Office
    requires n <= |o.transactions|
  {
    o.(transactions := ReadTransactions(o, n))
  }

  /** What a reader makes of them, whatever they hold. */
  function KeptTransactions(o: Office, n: nat): (r: seq<Transaction>)
    requires n <= |o.transactions|
    ensures |r| == n
  {
    seq(n, i requires 0 <= i < n => Kept(Computed(o.transactions[i]), CurrencyOf(o.transactions[i], o)))
  }

  function KeptOffice(o: Office, n: nat): Office
    requires n <= |o.transactions|
  {
    Office(KeptWide(o.agent, 8), KeptText(o.period, 6), KeptText(o.currency, 4), KeptTransactions(o, n))
  }

  function WithOffice(f: File, o: Office): File {
    f.(offices := f.offices + [o])
  }

  lemma AddedToLast(f: File, o: Office, n: nat)
    requires 0 < n <= |o.transactions|
    ensures var t := o.transactions[n - 1];
            Added(WithOffice(f, KeptOffice(o, n - 1)), Kept(Computed(t), CurrencyOf(t, o))) == WithOffice(f, KeptOffice(o, n))
  {
    hide Kept, Computed, KeptWide, KeptText;
    var t := o.transactions[n - 1];
    assert KeptTransactions(o, n) == KeptTransactions(o, n - 1) + [Kept(Computed(t), CurrencyOf(t, o))];
  }

  lemma {:induction false} OfficeDetailsApplied(r: Reader, f: File, o: Office, number: nat, n: nat) returns (next: Reader)
    requires n <= |o.transactions| && OfficeCountable(o, n) && FilesAs(r, WithOffice(f, KeptOffice(o, 0)))
    ensures AllRecords(OfficeDetails(o, number, n)) && AppliedAll(r, OfficeDetails(o, number, n)) == Read(next)
    ensures FilesAs(next, WithOffice(f, KeptOffice(o, n)))
    decreases n
  {
    hide FilesAs, TransactionRecords, Countable, Computed, Kept, KeptWide, KeptText, AppliedAll, CurrencyOf;
    if n == 0 {
      next := r;
      NothingApplied(r);
    } else {
      var mid := OfficeDetailsApplied(r, f, o, number, n - 1);
      var t := o.transactions[n - 1];
      var some := WithOffice(f, KeptOffice(o, n - 1));
      next := TransactionAppliedExactly(mid, some, Computed(t), number + n, CurrencyOf(t, o));
      AppliedThen(r, OfficeDetails(o, number, n - 1), mid, TransactionRecords(Computed(t), number + n, CurrencyOf(t, o)), next);
      AddedToLast(f, o, n);
    }
  }

  lemma TotalsAreNoDetails(id: string)
    requires id in ["BOT93", "BOT94", "BCT95", "BFT99"]
    ensures !IsDetail(id) && !IsKnownDetail(id) && id !in ["BFH01", "BCH02", "BOH03", "BKT06"]
  {
    assert id[..2] == "BO" || id[..2] == "BC" || id[..2] == "BF";
    assert id[..3] == "BOT" || id[..3] == "BCT" || id[..3] == "BFT";
  }

  /** A total record only closes the transaction in progress. */
  lemma TotalApplied(r: Reader, f: File, rec: Record)
    requires |rec| >= RECORD_LEN && IdOf(rec) in ["BOT93", "BOT94", "BCT95", "BFT99"] && FilesAs(r, f)
    ensures Applied(r, rec).Read? && FilesAs(Applied(r, rec).reader, f)
  {
    hide IdOf, IsDetail, IsKnownDetail;
    TotalsAreNoDetails(IdOf(rec));
  }

  /** Any run of total records. */
  lemma {:induction false} TotalsApplied(r: Reader, f: File, recs: seq<Record>) returns (next: Reader)
    requires AllRecords(recs) && FilesAs(r, f)
    requires forall i | 0 <= i < |recs| :: IdOf(recs[i]) in ["BOT93", "BOT94", "BCT95", "BFT99"]
    ensures AppliedAll(r, recs) == Read(next) && FilesAs(next, f)
    decreases |recs|
  {
    hide FilesAs, IdOf, Applied;
    if recs == [] {
      next := r;
    } else {
      var mid := TotalsApplied(r, f, recs[..|recs| - 1]);
      TotalApplied(mid, f, recs[|recs| - 1]);
      next := Applied(mid, recs[|recs| - 1]).reader;
    }
  }

  predicate AllTotals(recs: seq<Record>) {
    AllRecords(recs) && forall i | 0 <= i < |recs| :: IdOf(recs[i]) in ["BOT93", "BOT94", "BCT95", "BFT99"]
  }

  lemma AllTotalsSnoc(recs: seq<Record>, rec: Record)
    requires AllTotals(recs) && |rec| >= RECORD_LEN && IdOf(rec) in ["BOT93", "BOT94", "BCT95", "BFT99"]
    ensures AllTotals(recs + [rec])
  {
    hide IdOf;
  }

  lemma {:induction false} Bot93sAreTotals(o: Office, keys: seq<(string, string)>)
    ensures AllTotals(Bot93s(o, keys))
    decreases |keys|
  {
    hide AllTotals, Bot93, IdOf, SumsFit, SumOf, SumsAt;
    if keys == [] {
      NoTotals();
    } else {
      Bot93sAreTotals(o, keys[..|keys| - 1]);
      Bot93Reads(o, keys[|keys| - 1]);
      AllTotalsSnoc(Bot93s(o, keys[..|keys| - 1]), Bot93(o, keys[|keys| - 1]));
    }
  }

  lemma NoTotals()
    ensures AllTotals([])
  {
  }

  lemma {:induction false} Bot94sAreTotals(o: Office, currencies: seq<string>)
    ensures AllTotals(Bot94s(o, currencies))
    decreases |currencies|
  {
    hide AllTotals, Bot94, IdOf, SumsFit, SumOf, SumsAt;
    if currencies == [] {
      NoTotals();
    } else {
      Bot94sAreTotals(o, currencies[..|currencies| - 1]);
      Bot94Reads(o, currencies[|currencies| - 1]);
      AllTotalsSnoc(Bot94s(o, currencies[..|currencies| - 1]), Bot94(o, currencies[|currencies| - 1]));
    }
  }

  lemma FootingIsTotal(f: File, currency: string)
    ensures IdOf(Footing("BCT", 95, f.week, 17, f, currency)) == "BCT95" && IdOf(Footing("BFT", 99, f.plan, 16, f, currency)) == "BFT99"
  {
    hide Footing, IdOf, Padded, SumsAt, SumsFit, CurrencyAt, CycleSum, Fits;
    Qualifiers();
    assert "BCT" + "95" == "BCT95" && "BFT" + "99" == "BFT99";
    FootingReads("BCT", 95, f.week, 17, f, currency);
    FootingReads("BFT", 99, f.plan, 16, f, currency);
  }

  lemma {:induction false} FootingsAreTotals(f: File, currencies: seq<string>)
    ensures AllTotals(Bct95s(f, currencies)) && AllTotals(Bft99s(f, currencies))
    decreases |currencies|
  {
    hide AllTotals, Footing, IdOf;
    if currencies == [] {
      NoTotals();
    } else {
      var c := currencies[|currencies| - 1];
      FootingsAreTotals(f, currencies[..|currencies| - 1]);
      FootingIsTotal(f, c);
      AllTotalsSnoc(Bct95s(f, currencies[..|currencies| - 1]), Footing("BCT", 95, f.week, 17, f, c));
      AllTotalsSnoc(Bft99s(f, currencies[..|currencies| - 1]), Footing("BFT", 99, f.plan, 16, f, c));
    }
  }

  lemma OfficeHeaderApplied(r: Reader, f: File, o: Office)
    requires FilesAs(r, f)
    ensures Applied(r, Boh03(o)).Read? && FilesAs(Applied(r, Boh03(o)).reader, WithOffice(f, KeptOffice(o, 0)))
  {
    hide Boh03, IdOf, Get, KeptWide, KeptText;
    Boh03Reads(o);
    assert KeptTransactions(o, 0) == [];
  }

  /** A whole office. */
  lemma OfficeApplied(r: Reader, f: File, o: Office, number: nat) returns (next: Reader)
    requires FilesAs(r, f) && OfficeCountable(o, |o.transactions|)
    ensures AllRecords(OfficeRecords(o, number)) && AppliedAll(r, OfficeRecords(o, number)) == Read(next)
    ensures FilesAs(next, WithOffice(f, KeptOffice(o, |o.transactions|)))
  {
    hide FilesAs, Boh03, Applied, AppliedAll, OfficeDetails, Bot93s, Bot94s, OfficeCountable, KeptOffice, IdOf;
    var n := |o.transactions|;
    OfficeHeaderApplied(r, f, o);
    AppliedOne(r, Boh03(o));
    var r1 := Applied(r, Boh03(o)).reader;
    var r2 := OfficeDetailsApplied(r1, f, o, number, n);
    AppliedThen(r, [Boh03(o)], r1, OfficeDetails(o, number, n), r2);
    Bot93sAreTotals(o, Codes(o, n));
    var r3 := TotalsApplied(r2, WithOffice(f, KeptOffice(o, n)), Bot93s(o, Codes(o, n)));
    AppliedThen(r, [Boh03(o)] + OfficeDetails(o, number, n), r2, Bot93s(o, Codes(o, n)), r3);
    Bot94sAreTotals(o, Currencies(o, n));
    next := TotalsApplied(r3, WithOffice(f, KeptOffice(o, n)), Bot94s(o, Currencies(o, n)));
    AppliedThen(r, [Boh03(o)] + OfficeDetails(o, number, n) + Bot93s(o, Codes(o, n)), r3, Bot94s(o, Currencies(o, n)), next);
  }

  // ---------------------------------------------------------------- the file

  function ReadOffices(offices: seq<Office>): (r: seq<Office>)
    ensures |r| == |offices| && forall i | 0 <= i < |r| :: r[i] == ReadOffice(offices[i], |offices[i].transactions|)
  {
    seq(|offices|, i requires 0 <= i < |offices| => ReadOffice(offices[i], |offices[i].transactions|))
  }

  /** What should be read of a file: all of it, every transaction computed, in its currency. */
  function ReadFile(f: File): File {
    f.(offices := ReadOffices(f.offices))
  }

  function KeptOffices(offices: seq<Office>): (r: seq<Office>)
    ensures |r| == |offices| && forall i | 0 <= i < |r| :: r[i] == KeptOffice(offices[i], |offices[i].transactions|)
  {
    seq(|offices|, i requires 0 <= i < |offices| => KeptOffice(offices[i], |offices[i].transactions|))
  }

  function KeptHeader(f: File): File {
    File(KeptText(f.plan, 3), KeptText(f.airline, 3), KeptNumber(f.sequence, 6), KeptText(f.week, 3), [])
  }

  /** What a reader makes of a file, whatever it holds. */
  function KeptFile(f: File): File {
    KeptHeader(f).(offices := KeptOffices(f.offices))
  }

  predicate AllCountable(offices: seq<Office>) {
    forall i | 0 <= i < |offices| :: OfficeCountable(offices[i], |offices[i].transactions|)
  }

  lemma {:induction false} OfficesApplied(r: Reader, f: File, offices: seq<Office>) returns (next: Reader)
    requires FilesAs(r, f.(offices := [])) && AllCountable(offices)
    ensures AllRecords(OfficesRecords(offices)) && AppliedAll(r, OfficesRecords(offices)) == Read(next)
    ensures FilesAs(next, f.(offices := KeptOffices(offices)))
    decreases |offices|
  {
    hide FilesAs, AppliedAll, OfficeRecords, OfficeCountable, KeptOffice;
    if offices == [] {
      next := r;
      NothingApplied(r);
      assert KeptOffices([]) == [];
    } else {
      var init, o := offices[..|offices| - 1], offices[|offices| - 1];
      var mid := OfficesApplied(r, f, init);
      var some := f.(offices := KeptOffices(init));
      next := OfficeApplied(mid, some, o, Count(init));
      AppliedThen(r, OfficesRecords(init), mid, OfficeRecords(o, Count(init)), next);
      assert KeptOffices(offices) == KeptOffices(init) + [KeptOffice(o, |o.transactions|)];
    }
  }

  lemma HeadersApplied(f: File) returns (next: Reader)
    ensures AllRecords([Bfh01(f), Bch02(f)]) && AppliedAll(START, [Bfh01(f), Bch02(f)]) == Read(next)
    ensures FilesAs(next, KeptHeader(f))
  {
    hide Bfh01, Bch02, IdOf, Get, AppliedAll, KeptText, KeptNumber;
    HeadersRead(f);
    AppliedOne(START, Bfh01(f));
    var k := KeptHeader(f);
    var named := START.(file := START.file.(plan := k.plan, airline := k.airline, sequence := k.sequence));
    AppliedOne(named, Bch02(f));
    next := named.(file := k);
    AppliedThen(START, [Bfh01(f)], named, [Bch02(f)], next);
    assert [Bfh01(f)] + [Bch02(f)] == [Bfh01(f), Bch02(f)];
  }

  lemma FileApplied(f: File) returns (next: Reader)
    requires AllCountable(f.offices)
    ensures AllRecords(FileRecords(f)) && AppliedAll(START, FileRecords(f)) == Read(next) && FilesAs(next, KeptFile(f))
  {
    hide FilesAs, AppliedAll, OfficesRecords, AllCountable, Bct95s, Bft99s, Bfh01, Bch02, FootingCurrencies, KeptOffices, KeptHeader, IdOf;
    var currencies, heads := FootingCurrencies(f), [Bfh01(f), Bch02(f)];
    var r0 := HeadersApplied(f);
    NoOfficesYet(f);
    var r1 := OfficesApplied(r0, KeptHeader(f), f.offices);
    AppliedThen(START, heads, r0, OfficesRecords(f.offices), r1);
    FootingsAreTotals(f, currencies);
    var r2 := TotalsApplied(r1, KeptFile(f), Bct95s(f, currencies));
    AppliedThen(START, heads + OfficesRecords(f.offices), r1, Bct95s(f, currencies), r2);
    next := TotalsApplied(r2, KeptFile(f), Bft99s(f, currencies));
    AppliedThen(START, heads + OfficesRecords(f.offices) + Bct95s(f, currencies), r2, Bft99s(f, currencies), next);
  }

  lemma NoOfficesYet(f: File)
    ensures KeptHeader(f).(offices := []) == KeptHeader(f)
  {
  }

  // ---------------------------------------------------------------- record numbers

  lemma StampKeeps(rec: Record, n: nat)
    requires |rec| >= RECORD_LEN
    ensures IdOf(Stamped(rec, n)) == IdOf(rec)
    ensures forall a: nat, b: nat | 12 <= a <= b <= RECORD_LEN :: Get(Stamped(rec, n), a, b) == Get(rec, a, b)
    ensures forall a: nat, b: nat | 12 <= a <= b <= RECORD_LEN :: GetAmount(Stamped(rec, n), a, b) == GetAmount(rec, a, b)
  {
    hide Put, TrimSpace, AmountOf, Padded, Slice;
    AnyStep(rec, 4, 11, Padded(n, 8), true);
  }

  lemma StampKeepsDetail(t: Transaction, id: string, rec: Record, n: nat)
    requires |rec| >= RECORD_LEN
    ensures WithDetail(t, id, Stamped(rec, n)) == WithDetail(t, id, rec)
  {
    hide Stamped, Get, GetAmount, IdOf;
    StampKeeps(rec, n);
  }

  /** The number on a record changes nothing else a reader looks at. */
  lemma StampApplied(r: Reader, rec: Record, n: nat)
    requires |rec| >= RECORD_LEN
    ensures Applied(r, Stamped(rec, n)) == Applied(r, rec)
         || (Applied(r, rec).Read? && Applied(r, rec).reader.fragments == r.fragments + [TrimBlanks(rec)])
  {
    hide Stamped, Get, GetAmount, IdOf, Finished, WithDetail, TrimBlanks, IsDetail, IsKnownDetail;
    StampKeeps(rec, n);
    if r.tx.Some? {
      StampKeepsDetail(r.tx.value, IdOf(rec), rec, n);
    }
  }

  lemma NumberRead(rec: Record, n: nat)
    requires |rec| >= RECORD_LEN && n < Pow10(8)
    ensures AtoiOrZero(Get(Stamped(rec, n), 4, 11)) == n
  {
    hide Pow10, Put, Get;
    NumberReads(rec, 4, 11, n, true);
  }

  /** With every record carrying its position, the file reads as its records apply. */
  lemma {:induction false} WrittenReads(recs: seq<Record>, n: nat)
    requires AllRecords(recs) && n <= |recs| && |recs| < Pow10(8)
    requires AppliedAll(START, recs[..n]).Read? && AppliedAll(START, recs[..n]).reader.fragments == []
    ensures ReadFrom(Written(recs)[..n]) == AppliedAll(START, recs[..n])
    decreases n
  {
    hide Applied, Stamped, Pow10;
    if n > 0 {
      var some, wrote := recs[..n], Written(recs)[..n];
      assert some[..n - 1] == recs[..n - 1] && some[n - 1] == recs[n - 1];
      assert wrote[..n - 1] == Written(recs)[..n - 1] && wrote[n - 1] == Stamped(recs[n - 1], n);
      var before := AppliedAll(START, recs[..n - 1]).reader;
      OneMoreFragment(before, recs[n - 1]);
      WrittenReads(recs, n - 1);
      NumberRead(recs[n - 1], n);
      StampApplied(before, recs[n - 1], n);
    }
  }

  lemma OneMoreFragment(r: Reader, rec: Record)
    requires |rec| >= RECORD_LEN
    ensures Applied(r, rec).Read? ==> r.fragments <= Applied(r, rec).reader.fragments
  {
  }

  lemma WholeReads(recs: seq<Record>)
    requires AllRecords(recs) && |recs| < Pow10(8)
    requires AppliedAll(START, recs).Read? && AppliedAll(START, recs).reader.fragments == []
    ensures AllRecords(Written(recs)) && ReadFrom(Written(recs)) == AppliedAll(START, recs)
  {
    hide Applied, AppliedAll, ReadFrom, Stamped, Pow10;
    assert recs[..|recs|] == recs && Written(recs)[..|recs|] == Written(recs);
    WrittenReads(recs, |recs|);
  }

  /** Written with their numbers, the records parse as this file and nothing else. */
  ghost predicate ReadsAs(recs: seq<Record>, f: File) {
    && AllRecords(recs)
    && var parsed := Parsed(Written(recs));
       parsed.Read? && parsed.reader.file == f && parsed.reader.fragments == []
  }

  /** Every transaction counts within three digits and the file's records within eight. */
  predicate FileCountable(f: File) {
    AllCountable(f.offices) && |FileRecords(f)| < Pow10(8)
  }

  /** Parse accepts every file that can be counted and returns what its columns keep. */
  lemma WrittenFileReads(f: File)
    requires FileCountable(f)
    ensures ReadsAs(FileRecords(f), KeptFile(f))
  {
    hide FileRecords, AllCountable, AppliedAll, ReadFrom, KeptFile, Pow10, Stamped, FilesAs, Parsed, Put, AllRecords;
    var end := FileApplied(f);
    var recs := FileRecords(f);
    FileNotEmpty(f);
    FilesKeepFragments(end);
    WholeReads(recs);
    ParsedFrom(Written(recs), end, KeptFile(f));
  }

  lemma FilesKeepFragments(r: Reader)
    ensures forall f | FilesAs(r, f) :: r.fragments == []
  {
  }

  lemma ParsedFrom(recs: seq<Record>, end: Reader, f: File)
    requires AllRecords(recs) && recs != [] && ReadFrom(recs) == Read(end) && FilesAs(end, f)
    ensures var parsed := Parsed(recs);
            parsed.Read? && parsed.reader.file == f && parsed.reader.fragments == []
  {
    hide ReadFrom;
  }

  lemma FileNotEmpty(f: File)
    ensures FileRecords(f) != []
  {
  }
}
