/** Exactly when a written settlement file is accepted, and exactly when it is read back
    whole. */
module HotExact {
  import opened Wrappers
  import opened Decimal
  import opened HotRecord
  import opened HotFile
  import opened HotColumns
  import opened HotReading
  import opened HotRoundTrip

  // ---------------------------------------------------------------- a file that cannot be counted

  /** Reading has failed, or will as soon as the transaction in progress is filed. */
  ghost predicate Stuck(res: Result) {
    match res
    case Failed(_) => true
    case Read(r) => Finished(r).Failed?
  }

  /** A record that files the transaction in progress. */
  predicate Files(rec: Record)
    requires |rec| >= RECORD_LEN
  {
    IdOf(rec) in ["BOH03", "BKT06", "BOT93", "BOT94", "BCT95", "BFT99"]
  }

  lemma FilingFails(r: Reader, rec: Record)
    requires |rec| >= RECORD_LEN && Files(rec) && Finished(r).Failed?
    ensures Applied(r, rec).Failed?
  {
    hide IdOf, IsDetail, Finished;
    FilingIsNoDetail(IdOf(rec));
  }

  lemma FilingIsNoDetail(id: string)
    requires id in ["BOH03", "BKT06", "BOT93", "BOT94", "BCT95", "BFT99"]
    ensures !IsDetail(id)
  {
    assert id == "BKT06" || id[..2] == "BO" || id[..2] == "BC" || id[..2] == "BF";
    assert id == "BKT06" || id[..3] == "BOH" || id[..3] == "BOT" || id[..3] == "BCT" || id[..3] == "BFT";
  }

  lemma {:induction false} FailsFromTheFirst(r: Reader, recs: seq<Record>)
    requires AllRecords(recs) && recs != [] && Applied(r, recs[0]).Failed?
    ensures AppliedAll(r, recs).Failed?
    decreases |recs|
  {
    hide Applied;
    if |recs| > 1 {
      FailsFromTheFirst(r, recs[..|recs| - 1]);
    } else {
      assert recs[..0] == [];
    }
  }

  /** Stuck, a reader fails at the next record that files. */
  lemma StuckFails(r: Reader, xs: seq<Record>, ys: seq<Record>)
    requires AllRecords(xs) && AllRecords(ys) && Stuck(AppliedAll(r, xs)) && ys != [] && Files(ys[0])
    ensures AllRecords(xs + ys) && AppliedAll(r, xs + ys).Failed?
  {
    hide AppliedAll, Applied, Files;
    AppliedConcat(r, xs, ys);
    var res := AppliedAll(r, xs);
    if res.Read? {
      FilingFails(res.reader, ys[0]);
      FailsFromTheFirst(res.reader, ys);
    }
  }

  lemma FailedStays(r: Reader, xs: seq<Record>, ys: seq<Record>)
    requires AllRecords(xs) && AllRecords(ys) && AppliedAll(r, xs).Failed?
    ensures AllRecords(xs + ys) && AppliedAll(r, xs + ys).Failed?
  {
    hide AppliedAll;
    AppliedConcat(r, xs, ys);
  }

  lemma HeadFiles(t: Transaction, number: nat, currency: string)
    ensures var recs := TransactionRecords(t, number, currency); recs != [] && |recs[0]| >= RECORD_LEN && Files(recs[0])
  {
    hide Bkt06, Details;
    Bkt06Reads(t, number, 1 + |Details(t, number, currency)|);
  }

  lemma TransactionFull(t: Transaction, number: nat, currency: string)
    ensures AllRecords(TransactionRecords(t, number, currency))
  {
    hide TransactionRecords;
    var f := START.file.(offices := [Office("", "", "", [])]);
    var next := TransactionAppliedExactly(START.(file := f), f, t, number, currency);
  }

  lemma {:induction false} DetailsFull(o: Office, number: nat, n: nat)
    requires n <= |o.transactions|
    ensures AllRecords(OfficeDetails(o, number, n))
    decreases n
  {
    hide TransactionRecords, Computed;
    if n > 0 {
      DetailsFull(o, number, n - 1);
      TransactionFull(Computed(o.transactions[n - 1]), number + n, CurrencyOf(o.transactions[n - 1], o));
    }
  }

  /** The first transaction that cannot be counted stops the reader. */
  lemma {:induction false} UncountedDetailsStick(r: Reader, f: File, o: Office, number: nat, n: nat)
    requires n <= |o.transactions| && !OfficeCountable(o, n) && FilesAs(r, WithOffice(f, KeptOffice(o, 0)))
    ensures AllRecords(OfficeDetails(o, number, n)) && Stuck(AppliedAll(r, OfficeDetails(o, number, n)))
    decreases n
  {
    hide FilesAs, TransactionRecords, Countable, Computed, Kept, KeptWide, KeptText, AppliedAll, CurrencyOf, Files;
    var t := o.transactions[n - 1];
    var recs := TransactionRecords(Computed(t), number + n, CurrencyOf(t, o));
    DetailsFull(o, number, n - 1);
    TransactionFull(Computed(t), number + n, CurrencyOf(t, o));
    if OfficeCountable(o, n - 1) {
      var mid := OfficeDetailsApplied(r, f, o, number, n - 1);
      var next := TransactionAppliedExactly(mid, WithOffice(f, KeptOffice(o, n - 1)), Computed(t), number + n, CurrencyOf(t, o));
      AppliedThen(r, OfficeDetails(o, number, n - 1), mid, recs, next);
    } else {
      UncountedDetailsStick(r, f, o, number, n - 1);
      HeadFiles(Computed(t), number + n, CurrencyOf(t, o));
      StuckFails(r, OfficeDetails(o, number, n - 1), recs);
    }
  }

  lemma {:induction false} SomeCodes(o: Office, n: nat)
    requires 0 < n <= |o.transactions|
    ensures Codes(o, n) != []
    decreases n
  {
  }

  lemma SubtotalsFile(o: Office, keys: seq<(string, string)>)
    requires keys != []
    ensures var recs := Bot93s(o, keys); recs != [] && AllRecords(recs) && Files(recs[0])
  {
    hide AllTotals, Bot93s;
    Bot93sAreTotals(o, keys);
    TotalsAreMany(o, keys);
    TotalFiles(Bot93s(o, keys));
  }

  lemma {:induction false} TotalsAreMany(o: Office, keys: seq<(string, string)>)
    ensures |Bot93s(o, keys)| == |keys|
    decreases |keys|
  {
    hide Bot93;
    if keys != [] {
      TotalsAreMany(o, keys[..|keys| - 1]);
    }
  }

  lemma TotalFiles(recs: seq<Record>)
    requires AllTotals(recs) && recs != []
    ensures AllRecords(recs) && Files(recs[0])
  {
    hide IdOf;
  }

  lemma UncountedOfficeFails(r: Reader, f: File, o: Office, number: nat)
    requires FilesAs(r, f) && !OfficeCountable(o, |o.transactions|)
    ensures AllRecords(OfficeRecords(o, number)) && AppliedAll(r, OfficeRecords(o, number)).Failed?
  {
    hide FilesAs, Boh03, Applied, AppliedAll, OfficeDetails, Bot93s, Bot94s, OfficeCountable, KeptOffice, IdOf, Files, AllTotals, Stuck;
    var n := |o.transactions|;
    var details, subtotals, totals := OfficeDetails(o, number, n), Bot93s(o, Codes(o, n)), Bot94s(o, Currencies(o, n));
    SomeTransaction(o);
    SomeCodes(o, n);
    OfficeHeaderApplied(r, f, o);
    AppliedOne(r, Boh03(o));
    UncountedDetailsStick(Applied(r, Boh03(o)).reader, f, o, number, n);
    AppliedConcat(r, [Boh03(o)], details);
    SubtotalsFile(o, Codes(o, n));
    StuckFails(r, [Boh03(o)] + details, subtotals);
    TotalsHold(o);
    FailedStays(r, [Boh03(o)] + details + subtotals, totals);
  }

  lemma SomeTransaction(o: Office)
    requires !OfficeCountable(o, |o.transactions|)
    ensures |o.transactions| > 0
  {
  }

  lemma TotalsHold(o: Office)
    ensures AllRecords(Bot94s(o, Currencies(o, |o.transactions|)))
  {
    hide Bot94s;
  }

  lemma {:induction false} UncountedOfficesFail(r: Reader, f: File, offices: seq<Office>)
    requires FilesAs(r, f.(offices := [])) && !AllCountable(offices)
    ensures AllRecords(OfficesRecords(offices)) && AppliedAll(r, OfficesRecords(offices)).Failed?
    decreases |offices|
  {
    hide FilesAs, AppliedAll, OfficeRecords, OfficeCountable, KeptOffice;
    var init, o := offices[..|offices| - 1], offices[|offices| - 1];
    if AllCountable(init) {
      var mid := OfficesApplied(r, f, init);
      UncountedOfficeFails(mid, f.(offices := KeptOffices(init)), o, Count(init));
      AppliedConcat(r, OfficesRecords(init), OfficeRecords(o, Count(init)));
    } else {
      UncountedOfficesFail(r, f, init);
      OfficeFull(o, Count(init));
      FailedStays(r, OfficesRecords(init), OfficeRecords(o, Count(init)));
    }
  }

  lemma OfficeFull(o: Office, number: nat)
    ensures AllRecords(OfficeRecords(o, number))
  {
    hide OfficeDetails, Bot93s, Bot94s, Codes, Currencies;
    DetailsFull(o, number, |o.transactions|);
  }

  lemma UncountedFails(f: File)
    requires !AllCountable(f.offices)
    ensures AllRecords(FileRecords(f)) && AppliedAll(START, FileRecords(f)).Failed?
  {
    hide FilesAs, AppliedAll, OfficesRecords, AllCountable, Bct95s, Bft99s, Bfh01, Bch02, FootingCurrencies, KeptHeader, AllTotals;
    var currencies, heads := FootingCurrencies(f), [Bfh01(f), Bch02(f)];
    var r0 := HeadersApplied(f);
    NoOfficesYet(f);
    UncountedOfficesFail(r0, KeptHeader(f), f.offices);
    AppliedConcat(START, heads, OfficesRecords(f.offices));
    FootingsHold(f, currencies);
    FailedStays(START, heads + OfficesRecords(f.offices), Bct95s(f, currencies));
    FailedStays(START, heads + OfficesRecords(f.offices) + Bct95s(f, currencies), Bft99s(f, currencies));
  }

  lemma FootingsHold(f: File, currencies: seq<string>)
    ensures AllRecords(Bct95s(f, currencies)) && AllRecords(Bft99s(f, currencies))
  {
    hide Bct95s, Bft99s;
    FootingsAreTotals(f, currencies);
  }

  // ---------------------------------------------------------------- accepted exactly

  /** The same but for what is kept of unknown records. */
  predicate Alike(a: Reader, b: Reader) {
    a.(fragments := b.fragments) == b
  }

  lemma AppliedAlike(a: Reader, b: Reader, rec: Record, n: nat)
    requires |rec| >= RECORD_LEN && Alike(a, b)
    ensures Applied(a, Stamped(rec, n)).Read? == Applied(b, rec).Read?
    ensures Applied(b, rec).Read? ==> Alike(Applied(a, Stamped(rec, n)).reader, Applied(b, rec).reader)
  {
    hide Stamped, Get, GetAmount, IdOf, WithDetail, TrimBlanks, IsDetail, IsKnownDetail, Finished;
    StampKeeps(rec, n);
    FinishedAlike(a, b);
    FinishedAlike(a.(count := a.count + 1), b.(count := b.count + 1));
    if a.tx.Some? {
      StampKeepsDetail(a.tx.value, IdOf(rec), rec, n);
    }
  }

  lemma AlikeItself(r: Reader)
    ensures Alike(r, r)
  {
  }

  lemma FinishedAlike(a: Reader, b: Reader)
    requires Alike(a, b)
    ensures match Finished(b) case Failed(e) => Finished(a) == Failed(e)
                              case Read(r) => Finished(a).Read? && Alike(Finished(a).reader, r)
  {
  }

  /** The position an eight-digit number cannot hold is not read. */
  lemma PositionRead(rec: Record, n: nat)
    requires |rec| >= RECORD_LEN && AtoiOrZero(Get(Stamped(rec, n), 4, 11)) == n
    ensures n < Pow10(8)
  {
    hide Pow10, Put, Get;
    if n >= Pow10(8) {
      NumberCut(rec, 4, 11, n, true);
    }
  }

  lemma {:induction false} WrittenAccepted(recs: seq<Record>, n: nat)
    requires AllRecords(recs) && n <= |recs| && ReadFrom(Written(recs)[..n]).Read?
    ensures AppliedAll(START, recs[..n]).Read? && (n > 0 ==> n < Pow10(8))
    ensures Alike(ReadFrom(Written(recs)[..n]).reader, AppliedAll(START, recs[..n]).reader)
    decreases n
  {
    hide Applied, Stamped, Pow10, Alike, Get;
    if n == 0 {
      AlikeItself(START);
    } else {
      var some, wrote := recs[..n], Written(recs)[..n];
      assert some[..n - 1] == recs[..n - 1] && some[n - 1] == recs[n - 1];
      assert wrote[..n - 1] == Written(recs)[..n - 1] && wrote[n - 1] == Stamped(recs[n - 1], n);
      WrittenAccepted(recs, n - 1);
      AppliedAlike(ReadFrom(wrote[..n - 1]).reader, AppliedAll(START, some[..n - 1]).reader, recs[n - 1], n);
      PositionRead(recs[n - 1], n);
    }
  }

  lemma ParsedIsRead(recs: seq<Record>)
    requires AllRecords(recs) && Parsed(recs).Read?
    ensures ReadFrom(recs).Read?
  {
    hide ReadFrom, Finished;
  }

  lemma {:induction false} FileFull(f: File)
    ensures AllRecords(FileRecords(f)) && FileRecords(f) != []
  {
    hide FileRecords, AllCountable;
    FileNotEmpty(f);
    if AllCountable(f.offices) {
      var next := FileApplied(f);
    } else {
      UncountedFails(f);
    }
  }

  /** Whether what was written is accepted. */
  ghost predicate Accepted(recs: seq<Record>) {
    AllRecords(recs) && Parsed(Written(recs)).Read?
  }

  /** A written file is accepted if and only if its transactions count within three digits
      each and its records within eight. */
  lemma AcceptedExactly(f: File)
    ensures Accepted(FileRecords(f)) <==> FileCountable(f)
  {
    hide FileRecords, AllCountable, AppliedAll, ReadFrom, Parsed, Pow10, KeptFile, Stamped, AllRecords;
    FileFull(f);
    var recs := FileRecords(f);
    if FileCountable(f) {
      WrittenFileReads(f);
    } else if Accepted(recs) {
      AcceptedIsRead(recs);
      if !AllCountable(f.offices) {
        UncountedFails(f);
      }
    }
  }

  lemma AcceptedIsRead(recs: seq<Record>)
    requires Accepted(recs) && recs != []
    ensures AppliedAll(START, recs).Read? && |recs| < Pow10(8)
  {
    hide AppliedAll, ReadFrom, Parsed, Pow10, Stamped;
    ParsedIsRead(Written(recs));
    assert Written(recs)[..|recs|] == Written(recs) && recs[..|recs|] == recs;
    WrittenAccepted(recs, |recs|);
  }

  // ---------------------------------------------------------------- read back whole exactly

  predicate OfficeFits(o: Office) {
    && OfficeTextsInRange(o)
    && forall i | 0 <= i < |o.transactions| :: FieldsInRange(Computed(o.transactions[i]), CurrencyOf(o.transactions[i], o))
  }

  lemma OfficeSurvivesExactly(o: Office)
    ensures KeptOffice(o, |o.transactions|) == ReadOffice(o, |o.transactions|) <==> OfficeFits(o)
  {
    hide KeptWide, KeptText, Kept, ReadBack, Computed, FieldsInRange, Fits, CurrencyOf;
    WideSurvivesExactly(o.agent, 8);
    TextSurvivesExactly(o.period, 6);
    TextSurvivesExactly(o.currency, 4);
    var n := |o.transactions|;
    var kept, whole := KeptTransactions(o, n), ReadTransactions(o, n);
    forall i | 0 <= i < n
      ensures kept[i] == whole[i] <==> FieldsInRange(Computed(o.transactions[i]), CurrencyOf(o.transactions[i], o))
    {
      FieldsSurviveExactly(Computed(o.transactions[i]), CurrencyOf(o.transactions[i], o));
    }
    assert kept == whole <==> forall i | 0 <= i < n :: kept[i] == whole[i];
  }

  predicate FileFits(f: File) {
    HeaderInRange(f) && forall i | 0 <= i < |f.offices| :: OfficeFits(f.offices[i])
  }

  lemma FileSurvivesExactly(f: File)
    ensures KeptFile(f) == ReadFile(f) <==> FileFits(f)
  {
    hide KeptText, KeptNumber, KeptOffice, ReadOffice, OfficeFits, Fits, NumberFits;
    TextSurvivesExactly(f.plan, 3);
    TextSurvivesExactly(f.airline, 3);
    NumberSurvivesExactly(f.sequence, 6);
    TextSurvivesExactly(f.week, 3);
    var kept, whole := KeptOffices(f.offices), ReadOffices(f.offices);
    forall i | 0 <= i < |f.offices| ensures kept[i] == whole[i] <==> OfficeFits(f.offices[i]) {
      OfficeSurvivesExactly(f.offices[i]);
    }
    assert kept == whole <==> forall i | 0 <= i < |f.offices| :: kept[i] == whole[i];
  }

  /** Every field fits its columns, every transaction and the file can be counted. */
  predicate FileInRange(f: File) {
    FileFits(f) && FileCountable(f)
  }

  /** Parse accepts what was written and returns the file, every transaction with its
      taxes in order, its computed total, commission and payments, amount for amount, if
      and only if every field fits its columns and everything can be counted. */
  lemma ReadsBackExactly(f: File)
    ensures ReadsAs(FileRecords(f), ReadFile(f)) <==> FileInRange(f)
  {
    hide FileRecords, FileFits, FileCountable, ReadFile, KeptFile, Parsed, Written, AllRecords;
    AcceptedExactly(f);
    FileSurvivesExactly(f);
    if FileCountable(f) {
      WrittenFileReads(f);
    }
  }
}
