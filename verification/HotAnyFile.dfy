/** Reading any file at all, written by this program or not: what each record does by its
    place among the others, and which record a file is refused for. */
module HotAnyFile {
  import opened Wrappers
  import opened Decimal
  import opened HotRecord
  import opened HotFile

  // ---------------------------------------------------------------- places

  function IdAt(recs: seq<Record>, i: nat): string
    requires AllRecords(recs) && i < |recs|
  {
    IdOf(recs[i])
  }

  /** The records a transaction ends at. */
  predicate Closes(id: string) {
    id in ["BOH03", "BKT06", "BOT93", "BOT94", "BCT95", "BFT99"]
  }

  /** The header of the transaction in progress before a place: the last record that ends
      one, where that is itself a header. */
  function HeadBefore(recs: seq<Record>, n: nat): (head: Option<nat>)
    requires AllRecords(recs) && n <= |recs|
    ensures head.Some? ==>
              && head.value < n && IdAt(recs, head.value) == "BKT06"
              && forall k | head.value < k < n :: !Closes(IdAt(recs, k))
  {
    if n == 0 then None
    else if IdAt(recs, n - 1) == "BKT06" then Some(n - 1)
    else if Closes(IdAt(recs, n - 1)) then None
    else HeadBefore(recs, n - 1)
  }

  /** Where a transaction ends: the next record that ends one, or the end of the file. */
  function EndOf(recs: seq<Record>, from: nat): (end: nat)
    requires AllRecords(recs) && from <= |recs|
    ensures from <= end <= |recs| && (forall k | from <= k < end :: !Closes(IdAt(recs, k)))
    ensures end < |recs| ==> Closes(IdAt(recs, end))
    decreases |recs| - from
  {
    if from == |recs| || Closes(IdAt(recs, from)) then from else EndOf(recs, from + 1)
  }

  /** A transaction is put together from the records after its header that it knows. */
  function TransactionFrom(recs: seq<Record>, head: nat, n: nat): Transaction
    requires AllRecords(recs) && head < n <= |recs|
  {
    if n == head + 1 then NEW.(system := Get(recs[head], 65, 68))
    else
      var t, id := TransactionFrom(recs, head, n - 1), IdAt(recs, n - 1);
      if id in ["BKS24", "BKS30", "BKS39", "BKS45", "BKS46", "BKI63", "BAR64", "BAR65", "BKP84"]
      then WithDetail(t, id, recs[n - 1]) else t
  }

  /** Its records are its header and all that begin as its kinds do, known or not. */
  function CountFrom(recs: seq<Record>, head: nat, n: nat): nat
    requires AllRecords(recs) && head < n <= |recs|
  {
    if n == head + 1 then 1
    else
      var id := IdAt(recs, n - 1);
      CountFrom(recs, head, n - 1) + if ("BK" <= id || "BAR" <= id) && id != "BKT06" then 1 else 0
  }

  function Joined(offices: seq<Office>, t: Transaction): seq<Office> {
    if offices == [] then []
    else
      var last := offices[|offices| - 1];
      offices[|offices| - 1 := last.(transactions := last.transactions + [t])]
  }

  /** The file of the first n records: the last file header and cycle header, an office for
      each office header, and in the latest of those a transaction for each header of one. */
  function FileIn(recs: seq<Record>, n: nat): File
    requires AllRecords(recs) && n <= |recs|
  {
    if n == 0 then File("", "", 0, "", [])
    else
      var f, rec, id := FileIn(recs, n - 1), recs[n - 1], IdAt(recs, n - 1);
      if id == "BFH01" then
        f.(plan := Get(rec, 14, 16), airline := Get(rec, 17, 19), sequence := AtoiOrZero(Get(rec, 39, 44)))
      else if id == "BCH02" then f.(week := Get(rec, 14, 16))
      else if id == "BOH03" then
        f.(offices := f.offices + [Office(Get(rec, 14, 21), Get(rec, 22, 27), Get(rec, 28, 31), [])])
      else if id == "BKT06" then f.(offices := Joined(f.offices, TransactionFrom(recs, n - 1, EndOf(recs, n))))
      else f
  }

  /** Records of no kind the reader knows are kept as they are. */
  function FragmentsIn(recs: seq<Record>, n: nat): seq<string>
    requires AllRecords(recs) && n <= |recs|
  {
    if n == 0 then []
    else
      var id := IdAt(recs, n - 1);
      FragmentsIn(recs, n - 1)
      + if Closes(id) || id in ["BFH01", "BCH02", "BKS24", "BKS30", "BKS39", "BKS45", "BKS46", "BKI63", "BAR64", "BAR65", "BKP84"]
        then [] else [TrimBlanks(recs[n - 1])]
  }

  /** The transaction in progress gives a number of records and has another. */
  predicate Miscounted(recs: seq<Record>, n: nat)
    requires AllRecords(recs) && n <= |recs|
  {
    match HeadBefore(recs, n)
    case None => false
    case Some(head) =>
      var stated := AtoiOrZero(Get(recs[head], 22, 24));
      stated != 0 && stated != CountFrom(recs, head, n)
  }

  predicate InAnOffice(recs: seq<Record>, n: nat)
    requires AllRecords(recs) && n <= |recs|
  {
    exists k | 0 <= k < n :: IdAt(recs, k) == "BOH03"
  }

  /** What is wrong at a place, the place after the last record included. */
  function FaultAt(recs: seq<Record>, i: nat): Option<ReadError>
    requires AllRecords(recs) && i <= |recs|
  {
    if i == |recs| then
      if Miscounted(recs, i) then Some(BadCount) else if recs == [] then Some(EmptyFile) else None
    else if AtoiOrZero(Get(recs[i], 4, 11)) != i + 1 then Some(BadSequence)
    else if Closes(IdAt(recs, i)) && Miscounted(recs, i) then Some(BadCount)
    else if IdAt(recs, i) == "BKT06" && !InAnOffice(recs, i) then Some(NoOffice)
    else if IdAt(recs, i) == "BKS24" && HeadBefore(recs, i) == None then Some(NoTransaction)
    else None
  }

  // ---------------------------------------------------------------- the reader by place

  function WithOpen(offices: seq<Office>, recs: seq<Record>, n: nat): seq<Office>
    requires AllRecords(recs) && n <= |recs|
  {
    match HeadBefore(recs, n)
    case None => offices
    case Some(head) => Joined(offices, TransactionFrom(recs, head, EndOf(recs, n)))
  }

  /** The reader after n records. */
  ghost predicate Stands(recs: seq<Record>, n: nat, r: Reader)
    requires AllRecords(recs) && n <= |recs|
  {
    && r.file.(offices := WithOpen(r.file.offices, recs, n)) == FileIn(recs, n)
    && (r.file.offices != [] <==> InAnOffice(recs, n))
    && r.fragments == FragmentsIn(recs, n)
    && match HeadBefore(recs, n)
       case None => r.tx == None
       case Some(head) =>
         && r.tx == Some(TransactionFrom(recs, head, n)) && r.file.offices != []
         && r.stated == AtoiOrZero(Get(recs[head], 22, 24)) && r.count == CountFrom(recs, head, n)
  }

  /** Filing the transaction in progress. */
  lemma FinishingStands(recs: seq<Record>, n: nat, r: Reader)
    requires AllRecords(recs) && n <= |recs| && Stands(recs, n, r) && (n == |recs| || Closes(IdAt(recs, n)))
    ensures if Miscounted(recs, n) then Finished(r) == Failed(BadCount)
            else
              && Finished(r).Read? && Finished(r).reader.tx == None && Finished(r).reader.file == FileIn(recs, n)
              && Finished(r).reader.fragments == r.fragments
              && (Finished(r).reader.file.offices != [] <==> InAnOffice(recs, n))
  {
    hide IdOf, TransactionFrom, CountFrom, FileIn, InAnOffice, FragmentsIn, Get;
    assert EndOf(recs, n) == n;
  }

  /** One record more, in its place. */
  lemma RecordStands(recs: seq<Record>, n: nat, r: Reader)
    requires AllRecords(recs) && n < |recs| && Stands(recs, n, r) && AtoiOrZero(Get(recs[n], 4, 11)) == n + 1
    ensures match Applied(r, recs[n])
            case Failed(e) => FaultAt(recs, n) == Some(e)
            case Read(next) => FaultAt(recs, n) == None && Stands(recs, n + 1, next)
  {
    var id := IdAt(recs, n);
    if Closes(id) {
      CloserStands(recs, n, r);
    } else if IsKnownDetail(id) {
      DetailStands(recs, n, r);
    } else {
      OtherStands(recs, n, r);
    }
  }

  lemma StillInAnOffice(recs: seq<Record>, n: nat)
    requires AllRecords(recs) && n < |recs|
    ensures InAnOffice(recs, n + 1) <==> InAnOffice(recs, n) || IdAt(recs, n) == "BOH03"
  {
    hide IdAt;
  }

  /** What the reader does at a record that ends transactions. */
  lemma CloserApplied(r: Reader, rec: Record)
    requires |rec| >= RECORD_LEN && Closes(IdOf(rec))
    ensures Applied(r, rec)
         == match Finished(r)
            case Failed(e) => Failed(e)
            case Read(done) =>
              if IdOf(rec) == "BOH03" then
                Read(done.(file := done.file.(offices :=
                  done.file.offices + [Office(Get(rec, 14, 21), Get(rec, 22, 27), Get(rec, 28, 31), [])])))
              else if IdOf(rec) == "BKT06" then
                if done.file.offices == [] then Failed(NoOffice)
                else Read(done.(tx := Some(NEW.(system := Get(rec, 65, 68))), stated := AtoiOrZero(Get(rec, 22, 24)), count := 1))
              else Read(done)
  {
    hide IdOf, Get, Finished;
    ClosersAreNotCounted(IdOf(rec));
  }

  lemma ClosersAreNotCounted(id: string)
    requires Closes(id)
    ensures !IsDetail(id) && !IsKnownDetail(id) && id !in ["BFH01", "BCH02"]
  {
    assert id[..2] == [id[0], id[1]] && id[..3] == [id[0], id[1], id[2]];
  }

  /** What the places say of one. */
  lemma CloserStep(recs: seq<Record>, n: nat)
    requires AllRecords(recs) && n < |recs| && Closes(IdAt(recs, n))
    ensures HeadBefore(recs, n + 1) == if IdAt(recs, n) == "BKT06" then Some(n) else None
    ensures FragmentsIn(recs, n + 1) == FragmentsIn(recs, n)
    ensures var f, rec := FileIn(recs, n), recs[n];
            FileIn(recs, n + 1)
            == if IdAt(recs, n) == "BOH03" then
                 f.(offices := f.offices + [Office(Get(rec, 14, 21), Get(rec, 22, 27), Get(rec, 28, 31), [])])
               else if IdAt(recs, n) == "BKT06" then
                 f.(offices := Joined(f.offices, TransactionFrom(recs, n, EndOf(recs, n + 1))))
               else f
    ensures AtoiOrZero(Get(recs[n], 4, 11)) == n + 1 ==>
              FaultAt(recs, n)
              == if Miscounted(recs, n) then Some(BadCount)
                 else if IdAt(recs, n) == "BKT06" && !InAnOffice(recs, n) then Some(NoOffice) else None
  {
    hide IdAt, Get, TransactionFrom, Miscounted, InAnOffice, EndOf, Joined, CountFrom;
  }

  lemma CloserStands(recs: seq<Record>, n: nat, r: Reader)
    requires AllRecords(recs) && n < |recs| && Stands(recs, n, r) && Closes(IdAt(recs, n))
    requires AtoiOrZero(Get(recs[n], 4, 11)) == n + 1
    ensures match Applied(r, recs[n])
            case Failed(e) => FaultAt(recs, n) == Some(e)
            case Read(next) => FaultAt(recs, n) == None && Stands(recs, n + 1, next)
  {
    hide IdOf, Finished, InAnOffice, Get, Applied, HeadBefore, FileIn, FragmentsIn, FaultAt, Miscounted, Closes, EndOf;
    FinishingStands(recs, n, r);
    StillInAnOffice(recs, n);
    CloserApplied(r, recs[n]);
    CloserStep(recs, n);
  }

  lemma DetailApplied(r: Reader, rec: Record)
    requires |rec| >= RECORD_LEN && IsKnownDetail(IdOf(rec))
    ensures Applied(r, rec)
         == match r.tx
            case None => if IdOf(rec) == "BKS24" then Failed(NoTransaction) else Read(r)
            case Some(t) => Read(r.(count := r.count + 1, tx := Some(WithDetail(t, IdOf(rec), rec))))
  {
    hide IdOf, Get, Finished, WithDetail;
    DetailsAreCounted(IdOf(rec));
  }

  lemma DetailsAreCounted(id: string)
    requires IsKnownDetail(id)
    ensures IsDetail(id) && !Closes(id) && ("BK" <= id || "BAR" <= id) && id !in ["BFH01", "BCH02", "BKT06"]
  {
  }

  /** A record that ends nothing leaves the transaction in progress in progress. */
  lemma InnerStep(recs: seq<Record>, n: nat)
    requires AllRecords(recs) && n < |recs| && !Closes(IdAt(recs, n))
    ensures HeadBefore(recs, n + 1) == HeadBefore(recs, n) && EndOf(recs, n) == EndOf(recs, n + 1)
    ensures forall offices :: WithOpen(offices, recs, n + 1) == WithOpen(offices, recs, n)
    ensures AtoiOrZero(Get(recs[n], 4, 11)) == n + 1 ==>
              FaultAt(recs, n)
              == if IdAt(recs, n) == "BKS24" && HeadBefore(recs, n) == None then Some(NoTransaction) else None
  {
    hide IdAt, Get, TransactionFrom, Miscounted, InAnOffice, Joined, CountFrom;
  }

  lemma DetailStep(recs: seq<Record>, n: nat, head: nat)
    requires AllRecords(recs) && head < n < |recs| && IsKnownDetail(IdAt(recs, n))
    ensures TransactionFrom(recs, head, n + 1) == WithDetail(TransactionFrom(recs, head, n), IdAt(recs, n), recs[n])
    ensures CountFrom(recs, head, n + 1) == CountFrom(recs, head, n) + 1
  {
    hide IdAt, Get, WithDetail;
    DetailsAreCounted(IdAt(recs, n));
  }

  lemma DetailKeepsFile(recs: seq<Record>, n: nat)
    requires AllRecords(recs) && n < |recs| && IsKnownDetail(IdAt(recs, n))
    ensures FileIn(recs, n + 1) == FileIn(recs, n) && FragmentsIn(recs, n + 1) == FragmentsIn(recs, n)
  {
    hide IdAt, Get, TransactionFrom, EndOf, Joined;
  }

  lemma DetailStands(recs: seq<Record>, n: nat, r: Reader)
    requires AllRecords(recs) && n < |recs| && Stands(recs, n, r) && IsKnownDetail(IdAt(recs, n))
    requires AtoiOrZero(Get(recs[n], 4, 11)) == n + 1
    ensures match Applied(r, recs[n])
            case Failed(e) => FaultAt(recs, n) == Some(e)
            case Read(next) => FaultAt(recs, n) == None && Stands(recs, n + 1, next)
  {
    hide IdOf, InAnOffice, Get, WithDetail, Applied, HeadBefore, FileIn, FragmentsIn, FaultAt, EndOf, IsKnownDetail, Closes,
         TransactionFrom, CountFrom, WithOpen;
    StillInAnOffice(recs, n);
    DetailsAreCounted(IdAt(recs, n));
    DetailApplied(r, recs[n]);
    InnerStep(recs, n);
    DetailKeepsFile(recs, n);
    if HeadBefore(recs, n).Some? {
      DetailStep(recs, n, HeadBefore(recs, n).value);
    }
    DetailIsNoOffice(IdAt(recs, n));
  }

  lemma DetailIsNoOffice(id: string)
    requires IsKnownDetail(id)
    ensures id != "BOH03"
  {
  }

  lemma OtherApplied(r: Reader, rec: Record)
    requires |rec| >= RECORD_LEN && !IsKnownDetail(IdOf(rec)) && !Closes(IdOf(rec))
    ensures var id := IdOf(rec);
            var counted := if r.tx.Some? && ("BK" <= id || "BAR" <= id) && id != "BKT06" then r.(count := r.count + 1) else r;
            var next :=
              if id == "BFH01" then
                counted.(file := r.file.(plan := Get(rec, 14, 16), airline := Get(rec, 17, 19), sequence := AtoiOrZero(Get(rec, 39, 44))))
              else if id == "BCH02" then counted.(file := r.file.(week := Get(rec, 14, 16)))
              else counted.(fragments := r.fragments + [TrimBlanks(rec)]);
            Applied(r, rec) == Read(next)
  {
    hide IdOf, Get, Finished, WithDetail;
  }

  lemma OtherStep(recs: seq<Record>, n: nat, head: nat)
    requires AllRecords(recs) && head < n < |recs| && !IsKnownDetail(IdAt(recs, n))
    ensures TransactionFrom(recs, head, n + 1) == TransactionFrom(recs, head, n)
    ensures var id := IdAt(recs, n);
            CountFrom(recs, head, n + 1)
            == CountFrom(recs, head, n) + if ("BK" <= id || "BAR" <= id) && id != "BKT06" then 1 else 0
  {
    hide IdAt, Get, WithDetail;
  }

  lemma OtherInFile(recs: seq<Record>, n: nat)
    requires AllRecords(recs) && n < |recs| && !IsKnownDetail(IdAt(recs, n)) && !Closes(IdAt(recs, n))
    ensures var id, f, rec := IdAt(recs, n), FileIn(recs, n), recs[n];
            && id != "BOH03" && id != "BKS24"
            && FileIn(recs, n + 1)
               == (if id == "BFH01" then
                     f.(plan := Get(rec, 14, 16), airline := Get(rec, 17, 19), sequence := AtoiOrZero(Get(rec, 39, 44)))
                   else if id == "BCH02" then f.(week := Get(rec, 14, 16)) else f)
            && FragmentsIn(recs, n + 1) == FragmentsIn(recs, n) + if id == "BFH01" || id == "BCH02" then [] else [TrimBlanks(rec)]
  {
    hide IdAt, Get, TransactionFrom, EndOf, Joined;
  }

  lemma OtherStands(recs: seq<Record>, n: nat, r: Reader)
    requires AllRecords(recs) && n < |recs| && Stands(recs, n, r) && !IsKnownDetail(IdAt(recs, n)) && !Closes(IdAt(recs, n))
    requires AtoiOrZero(Get(recs[n], 4, 11)) == n + 1
    ensures match Applied(r, recs[n])
            case Failed(e) => FaultAt(recs, n) == Some(e)
            case Read(next) => FaultAt(recs, n) == None && Stands(recs, n + 1, next)
  {
    hide IdOf, InAnOffice, Get, Applied, HeadBefore, FileIn, FragmentsIn, FaultAt, EndOf, IsKnownDetail, Closes,
         TransactionFrom, CountFrom, WithOpen;
    StillInAnOffice(recs, n);
    OtherApplied(r, recs[n]);
    InnerStep(recs, n);
    OtherInFile(recs, n);
    if HeadBefore(recs, n).Some? {
      OtherStep(recs, n, HeadBefore(recs, n).value);
    }
  }

  // ---------------------------------------------------------------- the whole file

  predicate NoneBefore(recs: seq<Record>, i: nat)
    requires AllRecords(recs) && i <= |recs|
  {
    forall k | 0 <= k < i :: FaultAt(recs, k) == None
  }

  /** The first fault of a file. */
  ghost predicate IsFirstFault(recs: seq<Record>, i: nat, e: ReadError)
    requires AllRecords(recs) && i <= |recs|
  {
    FaultAt(recs, i) == Some(e) && NoneBefore(recs, i)
  }

  ghost predicate FaultBefore(recs: seq<Record>, n: nat, e: ReadError)
    requires AllRecords(recs) && n <= |recs|
  {
    exists i | 0 <= i < n :: IsFirstFault(recs, i, e)
  }

  /** What reading n records has come to. */
  ghost predicate ComesTo(recs: seq<Record>, n: nat, res: Result)
    requires AllRecords(recs) && n <= |recs|
  {
    match res
    case Failed(e) => FaultBefore(recs, n, e)
    case Read(r) => NoneBefore(recs, n) && Stands(recs, n, r)
  }

  lemma ReadFromNext(recs: seq<Record>, n: nat)
    requires AllRecords(recs) && n < |recs|
    ensures ReadFrom(recs[..n + 1])
         == match ReadFrom(recs[..n])
            case Failed(e) => Failed(e)
            case Read(before) =>
              if AtoiOrZero(Get(recs[n], 4, 11)) != n + 1 then Failed(BadSequence) else Applied(before, recs[n])
  {
    hide Applied, Get;
    assert recs[..n + 1][..n] == recs[..n] && recs[..n + 1][n] == recs[n];
  }

  lemma FaultHere(recs: seq<Record>, n: nat, e: ReadError)
    requires AllRecords(recs) && n < |recs| && NoneBefore(recs, n) && FaultAt(recs, n) == Some(e)
    ensures FaultBefore(recs, n + 1, e)
  {
    hide FaultAt;
    assert IsFirstFault(recs, n, e);
  }

  lemma FaultStays(recs: seq<Record>, n: nat, e: ReadError)
    requires AllRecords(recs) && n < |recs| && FaultBefore(recs, n, e)
    ensures FaultBefore(recs, n + 1, e)
  {
    hide IsFirstFault;
    var i :| 0 <= i < n && IsFirstFault(recs, i, e);
  }

  lemma NoneHere(recs: seq<Record>, n: nat)
    requires AllRecords(recs) && n < |recs| && NoneBefore(recs, n) && FaultAt(recs, n) == None
    ensures NoneBefore(recs, n + 1)
  {
    hide FaultAt;
  }

  lemma OneMore(recs: seq<Record>, n: nat, r: Reader)
    requires AllRecords(recs) && n < |recs| && NoneBefore(recs, n) && Stands(recs, n, r)
    ensures ComesTo(recs, n + 1, if AtoiOrZero(Get(recs[n], 4, 11)) != n + 1 then Failed(BadSequence) else Applied(r, recs[n]))
  {
    hide Stands, FaultAt, Applied, Get, NoneBefore, FaultBefore;
    if AtoiOrZero(Get(recs[n], 4, 11)) != n + 1 {
      WrongNumber(recs, n);
      FaultHere(recs, n, BadSequence);
    } else {
      RecordStands(recs, n, r);
      match Applied(r, recs[n])
      case Failed(e) => FaultHere(recs, n, e);
      case Read(_) => NoneHere(recs, n);
    }
  }

  lemma {:induction false} PrefixComesTo(recs: seq<Record>, n: nat)
    requires AllRecords(recs) && n <= |recs|
    ensures ComesTo(recs, n, ReadFrom(recs[..n]))
    decreases n
  {
    hide Stands, FaultAt, Applied, ReadFrom, Get, NoneBefore, FaultBefore;
    if n == 0 {
      NothingRead(recs);
    } else {
      PrefixComesTo(recs, n - 1);
      ReadFromNext(recs, n - 1);
      match ReadFrom(recs[..n - 1])
      case Failed(e) => FaultStays(recs, n - 1, e);
      case Read(r) => OneMore(recs, n - 1, r);
    }
  }

  lemma NothingRead(recs: seq<Record>)
    requires AllRecords(recs)
    ensures ComesTo(recs, 0, ReadFrom(recs[..0]))
  {
    StartStands(recs);
    assert ReadFrom(recs[..0]) == Read(START);
  }

  lemma WrongNumber(recs: seq<Record>, i: nat)
    requires AllRecords(recs) && i < |recs| && AtoiOrZero(Get(recs[i], 4, 11)) != i + 1
    ensures FaultAt(recs, i) == Some(BadSequence)
  {
  }

  lemma StartStands(recs: seq<Record>)
    requires AllRecords(recs)
    ensures Stands(recs, 0, START)
  {
  }

  /** Any file is read to its end if and only if nothing is wrong at any place: every
      record carries its number, transactions come in offices and with as many records as
      they say, and their first record inside one. What is read is then by place. */
  lemma AnyFileReads(recs: seq<Record>)
    requires AllRecords(recs)
    ensures Parsed(recs).Read? <==> forall i | 0 <= i <= |recs| :: FaultAt(recs, i) == None
    ensures Parsed(recs).Read? ==>
              && Parsed(recs).reader.file == FileIn(recs, |recs|)
              && Parsed(recs).reader.fragments == FragmentsIn(recs, |recs|)
    ensures forall e :: Parsed(recs) == Failed(e) <==> exists i | 0 <= i <= |recs| :: IsFirstFault(recs, i, e)
  {
    hide Stands, FaultAt, ReadFrom, Finished, FileIn, FragmentsIn;
    var n := |recs|;
    PrefixComesTo(recs, n);
    assert recs[..n] == recs;
    OneFirst(recs);
    if ReadFrom(recs).Read? {
      EndStands(recs, ReadFrom(recs).reader);
      if Parsed(recs).Failed? {
        assert IsFirstFault(recs, n, Parsed(recs).error);
      }
    }
  }

  lemma EndStands(recs: seq<Record>, r: Reader)
    requires AllRecords(recs) && Stands(recs, |recs|, r)
    ensures match Finished(r)
            case Failed(e) => FaultAt(recs, |recs|) == Some(e)
            case Read(done) =>
              && done.file == FileIn(recs, |recs|) && done.fragments == FragmentsIn(recs, |recs|)
              && FaultAt(recs, |recs|) == if recs == [] then Some(EmptyFile) else None
  {
    hide Finished, FileIn, FragmentsIn;
    FinishingStands(recs, |recs|, r);
  }

  /** There is one first fault at most. */
  lemma OneFirst(recs: seq<Record>)
    requires AllRecords(recs)
    ensures forall i, j, e, d | 0 <= i <= |recs| && 0 <= j <= |recs| && IsFirstFault(recs, i, e) && IsFirstFault(recs, j, d) ::
              i == j && e == d
    ensures forall i, e | 0 <= i <= |recs| && IsFirstFault(recs, i, e) :: FaultAt(recs, i) != None
  {
    hide FaultAt;
  }
}
