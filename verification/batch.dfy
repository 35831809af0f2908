/**
 * The batch loop over the uploaded files: each file is read and extracted in
 * turn, its records collected and its outcome logged; a totals row closes a
 * non-empty result.
 */
module Batch {
  import opened Wrappers
  import opened Events
  import opened Records
  import opened Extractor

  /**
   * An uploaded file: its name and what reading it produced, a workbook or the
   * message of the error the read raised.
   */
  datatype InputFile = InputFile(name: string, contents: Result<Workbook, string>)

  /** A file that yields a store record: it was read and its workbook has a first sheet. */
  predicate Readable(f: InputFile)
  {
    f.contents.Success? && FirstSheet(f.contents.value).Some?
  }

  /** The records one file contributes: its extracted record, or none. */
  function FileRecords(f: InputFile): seq<StoreRecord>
  {
    match f.contents
    case Failure(_) => []
    case Success(wb) =>
      var extraction := Extract(wb, f.name);
      if extraction.Succeeded? then [extraction.data] else []
  }

  /** A file contributes exactly one record, its first sheet's, when it is readable, and none otherwise. */
  lemma FileRecordsOf(f: InputFile)
    ensures FileRecords(f) == if Readable(f) then [SheetRecord(FirstSheet(f.contents.value).value, f.name)] else []
  {
  }

  /** The event that reports how one file went. */
  function Outcome(f: InputFile): LogEvent
  {
    match f.contents
    case Failure(message) => ReadError(f.name, message)
    case Success(wb) =>
      var extraction := Extract(wb, f.name);
      if extraction.Succeeded? then ProcessedOk(f.name) else ProcessFailed(f.name, extraction.error)
  }

  /** What one file adds to the batch log: the extraction's log, if it was read, then its outcome. */
  function FileLog(f: InputFile): (log: seq<LogEvent>)
    ensures |log| > 0 && log[|log| - 1] == Outcome(f)
  {
    match f.contents
    case Failure(_) => [Outcome(f)]
    case Success(wb) => Extract(wb, f.name).log + [Outcome(f)]
  }

  /** The pieces `f` gives for each of `files`, joined in file order. */
  function Gather<T>(f: InputFile -> seq<T>, files: seq<InputFile>): seq<T>
  {
    if files == [] then [] else Gather(f, files[..|files| - 1]) + f(files[|files| - 1])
  }

  /** Gathering over a batch is gathering over its parts, in order. */
  lemma {:induction false} GatherAppend<T>(f: InputFile -> seq<T>, a: seq<InputFile>, b: seq<InputFile>)
    ensures Gather(f, a + b) == Gather(f, a) + Gather(f, b)
    decreases |b|
  {
    if b == [] {
      assert a + b == a;
    } else {
      var b' := b[..|b| - 1];
      assert (a + b)[..|a + b| - 1] == a + b';
      GatherAppend(f, a, b');
    }
  }

  lemma GatherOne<T>(f: InputFile -> seq<T>, x: InputFile)
    ensures Gather(f, [x]) == f(x)
  {
    assert [x][..0] == [];
  }

  /** The store records of a batch, in file order. */
  function StoreRecords(files: seq<InputFile>): seq<StoreRecord>
  {
    Gather(FileRecords, files)
  }

  /** The batch log before the totals event, in file order. */
  function BatchLog(files: seq<InputFile>): seq<LogEvent>
  {
    Gather(FileLog, files)
  }

  /** The result table: the store records, then the totals row when there is at least one. */
  function WithTotals(rs: seq<StoreRecord>): seq<StoreRecord>
  {
    if |rs| > 0 then rs + [TotalsRecord(rs)] else rs
  }

  /** The closing event: how many stores the totals row covers, when there is one. */
  function TotalsLog(rs: seq<StoreRecord>): seq<LogEvent>
  {
    if |rs| > 0 then [GeneratedTotals(|rs|)] else []
  }

  /**
   * One turn of the batch loop: read the file (a read error is logged and the
   * file skipped), extract it, pass on its log, and keep its record on
   * success; the outcome closes the file's log.
   */
  method ProcessFile(file: InputFile) returns (records: seq<StoreRecord>, log: seq<LogEvent>)
    ensures records == FileRecords(file)
    ensures log == FileLog(file)
  {
    match file.contents {
      case Failure(message) =>
        records, log := [], [ReadError(file.name, message)];
      case Success(workbook) =>
        var extraction := ExtractDataFromExcel(workbook, file.name);
        var outcome := if extraction.Succeeded? then ProcessedOk(file.name) else ProcessFailed(file.name, extraction.error);
        assert outcome == Outcome(file);
        records := if extraction.Succeeded? then [extraction.data] else [];
        log := extraction.log + [outcome];
    }
  }

  /**
   * `processExcelFiles`: each file in turn, its records and log appended to
   * the batch's; then the totals row and its event when at least one record
   * was kept.
   */
  method ProcessExcelFiles(files: seq<InputFile>) returns (results: seq<StoreRecord>, allLogs: seq<LogEvent>)
    ensures results == WithTotals(StoreRecords(files))
    ensures allLogs == BatchLog(files) + TotalsLog(StoreRecords(files))
  {
    results, allLogs := [], [];
    for i := 0 to |files|
      invariant results == StoreRecords(files[..i])
      invariant allLogs == BatchLog(files[..i])
    {
      var records, log := ProcessFile(files[i]);
      assert files[..i + 1][..i] == files[..i];
      results := results + records;
      allLogs := allLogs + log;
    }
    assert files[..|files|] == files;
    if |results| > 0 {
      var totals := TotalsRecord(results);
      results := results + [totals];
      allLogs := allLogs + [GeneratedTotals(|results| - 1)];
    }
  }

  /**
   * A file that cannot be read, or has no first sheet, changes nothing in the
   * records of the files around it.
   */
  lemma UnreadableFileSkipped(a: seq<InputFile>, f: InputFile, b: seq<InputFile>)
    requires !Readable(f)
    ensures StoreRecords(a + [f] + b) == StoreRecords(a + b)
  {
    GatherAppend(FileRecords, a + [f], b);
    GatherAppend(FileRecords, a, [f]);
    GatherAppend(FileRecords, a, b);
    GatherOne(FileRecords, f);
    FileRecordsOf(f);
  }

  /** Every file's outcome event is in the batch log, after the events of the files before it. */
  lemma OutcomeLogged(files: seq<InputFile>, i: nat)
    requires i < |files|
    ensures Outcome(files[i]) in BatchLog(files)
    ensures BatchLog(files) == BatchLog(files[..i]) + FileLog(files[i]) + BatchLog(files[i + 1..])
  {
    assert files == files[..i] + [files[i]] + files[i + 1..];
    GatherAppend(FileLog, files[..i] + [files[i]], files[i + 1..]);
    GatherAppend(FileLog, files[..i], [files[i]]);
    GatherOne(FileLog, files[i]);
  }

  /** A readable file yields one record and any other file none. */
  lemma FileRecordCount(f: InputFile)
    ensures |FileRecords(f)| == if Readable(f) then 1 else 0
  {
    FileRecordsOf(f);
  }

  /**
   * There is one store record per readable file: every file yields a record
   * exactly when every file is readable.
   */
  lemma {:induction false} StoreRecordCount(files: seq<InputFile>)
    ensures |StoreRecords(files)| <= |files|
    ensures |StoreRecords(files)| == |files| <==> forall f :: f in files ==> Readable(f)
  {
    if files != [] {
      var init, f := files[..|files| - 1], files[|files| - 1];
      assert files == init + [f];
      StoreRecordCount(init);
      FileRecordCount(f);
      assert |StoreRecords(files)| == |StoreRecords(init)| + |FileRecords(f)|;
      if forall g :: g in files ==> Readable(g) {
        assert forall g :: g in init ==> g in files;
        assert f in files;
      }
      if |StoreRecords(files)| == |files| {
        forall g | g in files
          ensures Readable(g)
        {
          if g != f {
            assert g in init;
          }
        }
      }
    }
  }

  /** Each store record is the record of one readable file's first sheet. */
  lemma {:induction false} StoreRecordsFromFiles(files: seq<InputFile>)
    ensures forall r :: r in StoreRecords(files) ==>
              exists f :: f in files && Readable(f) && r == SheetRecord(FirstSheet(f.contents.value).value, f.name)
  {
    if files != [] {
      var init, f := files[..|files| - 1], files[|files| - 1];
      assert files == init + [f];
      StoreRecordsFromFiles(init);
      FileRecordsOf(f);
      forall r | r in StoreRecords(files)
        ensures exists f :: f in files && Readable(f) && r == SheetRecord(FirstSheet(f.contents.value).value, f.name)
      {
        if r in StoreRecords(init) {
          var g :| g in init && Readable(g) && r == SheetRecord(FirstSheet(g.contents.value).value, g.name);
          assert g in files;
        } else {
          assert r in FileRecords(f);
        }
      }
    }
  }

  /**
   * Every store record in a batch result is consistent: its total is the
   * larger of its revenue breakdown and its net sales.
   */
  lemma StoreRecordsConsistent(files: seq<InputFile>)
    ensures forall r :: r in StoreRecords(files) ==> Consistent(r)
  {
    StoreRecordsFromFiles(files);
    forall r | r in StoreRecords(files)
      ensures Consistent(r)
    {
      var f :| f in files && Readable(f) && r == SheetRecord(FirstSheet(f.contents.value).value, f.name);
      SheetRecordFacts(FirstSheet(f.contents.value).value, f.name);
    }
  }

  /**
   * The result table: no rows for a batch without records; otherwise the
   * records in order followed by one totals row whose amounts are the sums of
   * theirs.
   */
  lemma WithTotalsShape(rs: seq<StoreRecord>)
    ensures rs == [] ==> WithTotals(rs) == [] && TotalsLog(rs) == []
    ensures rs != [] ==>
              |WithTotals(rs)| == |rs| + 1 && WithTotals(rs)[..|rs|] == rs &&
              WithTotals(rs)[|rs|].filename == "TOTALS" &&
              AmountsOf(WithTotals(rs)[|rs|]) == Accumulate(rs) &&
              TotalsLog(rs) == [GeneratedTotals(|WithTotals(rs)| - 1)]
  {
    if rs != [] {
      assert WithTotals(rs)[..|rs|] == rs;
    }
  }
}
