/** The orchestrator `main`: for every registered dataset, in registry order,
    validate, upload and log; any failure is caught for that dataset alone
    and the loop goes on with the next one. */
module Ingest {
  import opened IngestErrors
  import opened Paths
  import opened Schema
  import opened UploadKey
  import opened Ledger
  import Config

  /** What the outside world does during one dataset's attempt: what
      `pd.read_csv` finds, the date `datetime.today()` reads, whether the
      transfer to the object store succeeds, the clock's timestamp for the
      ledger, and whether the ledger write succeeds. */
  datatype Attempt = Attempt(file: CsvFile, today: Date, transferOk: bool,
                             now: string, writeOk: bool)

  /** How one dataset's attempt ended: its ledger entry, or the error that was
      caught and logged. */
  datatype Report = Ingested(entry: Entry) | Failed(dataset: string, error: Error)

  /** The body of the `try` block for one dataset, as a value: validation, then
      upload only if validation passed, then the ledger entry only if both passed. */
  function IngestOne(d: Config.Descriptor, a: Attempt): (r: Report)
    ensures r.Ingested? <==>
      a.file.Parsed? && a.file.table.columns == d.expectedColumns && a.transferOk && a.writeOk
    ensures r.Ingested? ==> r.entry == Entry(d.name, Basename(d.path), a.file.table.rowCount,
                                             Key(Config.S3Prefix, d.name, a.today, d.path),
                                             SuccessStatus, a.now)
    ensures r.Ingested? && NoSlash(d.name) && IsCalendarDate(a.today) ==>
      ParseKey(r.entry.s3Key) == Some(KeyParts(Config.S3Prefix, d.name, a.today, r.entry.filename))
    ensures r.Failed? ==> r.dataset == d.name
    ensures a.file.Unreadable? ==> r == Failed(d.name, FileAccess(d.path))
    ensures a.file.Parsed? && a.file.table.columns != d.expectedColumns ==>
      r == Failed(d.name, SchemaMismatch(d.path))
    ensures a.file.Parsed? && a.file.table.columns == d.expectedColumns && !a.transferOk ==>
      r == Failed(d.name, UploadFailed(Config.S3Bucket, Key(Config.S3Prefix, d.name, a.today, d.path)))
    ensures a.file.Parsed? && a.file.table.columns == d.expectedColumns && a.transferOk && !a.writeOk ==>
      r == Failed(d.name, LedgerWriteFailed)
  {
    match ValidateCsv(d.path, d.expectedColumns, a.file)
    case Err(e) => Failed(d.name, e)
    case Ok(table) =>
      match UploadToS3(d.path, Config.S3Bucket, d.name, a.today, a.transferOk)
      case Err(e) => Failed(d.name, e)
      case Ok(key) =>
        if a.writeOk
        then Ingested(Entry(d.name, Basename(d.path), table.rowCount, key, SuccessStatus, a.now))
        else Failed(d.name, LedgerWriteFailed)
  }

  /** The ledger entries of the successful attempts, in order. */
  function Entries(reports: seq<Report>): (es: seq<Entry>)
    ensures |es| <= |reports|
  {
    if reports == [] then []
    else
      var last := reports[|reports| - 1];
      Entries(reports[..|reports| - 1]) + (if last.Ingested? then [last.entry] else [])
  }

  /** How many attempts ended with a ledger entry. */
  function SuccessCount(reports: seq<Report>): nat {
    if reports == [] then 0
    else SuccessCount(reports[..|reports| - 1]) + (if reports[|reports| - 1].Ingested? then 1 else 0)
  }

  /** The reports of one run: every registered dataset, each decided by its own attempt. */
  function RunReports(attempts: seq<Attempt>): (rs: seq<Report>)
    requires |attempts| == |Config.DataFiles|
    ensures |rs| == |Config.DataFiles|
    ensures forall i :: 0 <= i < |rs| ==> rs[i] == IngestOne(Config.DataFiles[i], attempts[i])
  {
    seq(|Config.DataFiles|, i requires 0 <= i < |Config.DataFiles| =>
      IngestOne(Config.DataFiles[i], attempts[i]))
  }

  /** The ledger after one more report: one more append exactly when it is a success. */
  lemma LedgerStep(present: bool, lines: seq<Line>, reports: seq<Report>, report: Report)
    ensures Entries(reports + [report]) != [] <==> Entries(reports) != [] || report.Ingested?
    ensures AppendAll(present, lines, Entries(reports + [report]))
         == if report.Ingested?
            then Appended(present || Entries(reports) != [], AppendAll(present, lines, Entries(reports)), report.entry)
            else AppendAll(present, lines, Entries(reports))
  {
    var next := reports + [report];
    assert next[..|reports|] == reports;
    if report.Ingested? {
      assert Entries(next) == Entries(reports) + [report.entry];
      AppendAllSnoc(present, lines, Entries(reports), report.entry);
    } else {
      assert Entries(next) == Entries(reports);
    }
  }

  /** One more report decided by its own attempt keeps every report so decided. */
  lemma DecidedStep(registry: seq<Config.Descriptor>, attempts: seq<Attempt>, reports: seq<Report>, report: Report)
    requires |reports| < |registry| && |attempts| == |registry|
    requires forall j :: 0 <= j < |reports| ==> reports[j] == IngestOne(registry[j], attempts[j])
    requires report == IngestOne(registry[|reports|], attempts[|reports|])
    ensures forall j :: 0 <= j < |reports| + 1 ==> (reports + [report])[j] == IngestOne(registry[j], attempts[j])
  {
  }

  /** One pass of the loop body: validate, upload only after validation
      passed, log only after both passed; every failure becomes the report. */
  method IngestDataset(ledger: LedgerFile, d: Config.Descriptor, a: Attempt) returns (report: Report)
    requires ledger.Valid()
    modifies ledger
    ensures ledger.Valid()
    ensures report == IngestOne(d, a)
    ensures ledger.present == (old(ledger.present) || report.Ingested?)
    ensures ledger.lines == if report.Ingested?
                            then Appended(old(ledger.present), old(ledger.lines), report.entry)
                            else old(ledger.lines)
  {
    var validated := ValidateCsv(d.path, d.expectedColumns, a.file);
    if validated.Err? {
      return Failed(d.name, validated.error);
    }
    var uploaded := UploadToS3(d.path, Config.S3Bucket, d.name, a.today, a.transferOk);
    if uploaded.Err? {
      return Failed(d.name, uploaded.error);
    }
    var logged := ledger.LogMetadata(d.name, Basename(d.path), validated.value.rowCount,
                                     uploaded.value, a.now, a.writeOk);
    report := if logged.Ok? then Ingested(logged.value) else Failed(d.name, logged.error);
  }

  /** The loop of `main()` over a registry with its per-dataset catch-all.
      Returns what each dataset's attempt came to (the success or the error
      that is logged); the ledger gains exactly the successful entries. */
  method IngestRegistry(ledger: LedgerFile, registry: seq<Config.Descriptor>, attempts: seq<Attempt>) returns (reports: seq<Report>)
    requires ledger.Valid()
    requires |attempts| == |registry|
    modifies ledger
    ensures ledger.Valid()
    ensures |reports| == |registry|
    ensures forall j :: 0 <= j < |registry| ==> reports[j] == IngestOne(registry[j], attempts[j])
    ensures ledger.present == (old(ledger.present) || Entries(reports) != [])
    ensures ledger.lines == AppendAll(old(ledger.present), old(ledger.lines), Entries(reports))
  {
    reports := [];
    for i := 0 to |registry|
      invariant ledger.Valid()
      invariant |reports| == i
      invariant forall j :: 0 <= j < i ==> reports[j] == IngestOne(registry[j], attempts[j])
      invariant ledger.present == (old(ledger.present) || Entries(reports) != [])
      invariant ledger.lines == AppendAll(old(ledger.present), old(ledger.lines), Entries(reports))
    {
      var report := IngestDataset(ledger, registry[i], attempts[i]);
      LedgerStep(old(ledger.present), old(ledger.lines), reports, report);
      DecidedStep(registry, attempts, reports, report);
      reports := reports + [report];
    }
  }

  /** `main()`: the loop over the compiled-in registry. */
  method RunMain(ledger: LedgerFile, attempts: seq<Attempt>) returns (reports: seq<Report>)
    requires ledger.Valid()
    requires |attempts| == |Config.DataFiles|
    modifies ledger
    ensures ledger.Valid()
    ensures reports == RunReports(attempts)
    ensures ledger.present == (old(ledger.present) || Entries(reports) != [])
    ensures ledger.lines == AppendAll(old(ledger.present), old(ledger.lines), Entries(reports))
  {
    reports := IngestRegistry(ledger, Config.DataFiles, attempts);
  }

  /** The entries are as many as the successful attempts. */
  lemma {:induction false} EntriesCount(reports: seq<Report>)
    ensures |Entries(reports)| == SuccessCount(reports)
  {
    if reports != [] {
      EntriesCount(reports[..|reports| - 1]);
    }
  }

  /** Every entry comes from a successful attempt, in order: the i-th entry
      is the entry of some report, and each successful report contributes one. */
  lemma {:induction false} EntriesFromSuccesses(reports: seq<Report>)
    ensures forall e :: e in Entries(reports) ==> Ingested(e) in reports
    ensures forall i :: 0 <= i < |reports| && reports[i].Ingested? ==> reports[i].entry in Entries(reports)
  {
    if reports != [] {
      var init := reports[..|reports| - 1];
      EntriesFromSuccesses(init);
      assert forall i :: 0 <= i < |init| ==> init[i] == reports[i];
    }
  }

  /** A run adds to the ledger exactly one record per fully successful
      dataset, after the records already there, each with status "success". */
  lemma RunLedgerGrowth(present: bool, lines: seq<Line>, attempts: seq<Attempt>)
    requires |attempts| == |Config.DataFiles|
    ensures var reports := RunReports(attempts);
      && Records(AppendAll(present, lines, Entries(reports))) == Records(lines) + Entries(reports)
      && |Entries(reports)| == SuccessCount(reports)
      && forall e :: e in Entries(reports) ==> e.status == SuccessStatus
  {
    var reports := RunReports(attempts);
    AppendAllRecords(present, lines, Entries(reports));
    EntriesCount(reports);
    EntriesFromSuccesses(reports);
  }

  /** A ledger row for dataset i is written exactly when its validation,
      upload and ledger write all succeeded, whatever happened to the others. */
  lemma RowIffSuccess(attempts: seq<Attempt>, i: nat)
    requires |attempts| == |Config.DataFiles| && i < |attempts|
    ensures var d, a := Config.DataFiles[i], attempts[i];
      (exists e :: e in Entries(RunReports(attempts)) && e.dataset == d.name) <==>
      (a.file.Parsed? && a.file.table.columns == d.expectedColumns && a.transferOk && a.writeOk)
  {
    var reports := RunReports(attempts);
    EntriesFromSuccesses(reports);
    RegistryNames();
    var d, a := Config.DataFiles[i], attempts[i];
    if exists e :: e in Entries(reports) && e.dataset == d.name {
      var e :| e in Entries(reports) && e.dataset == d.name;
      var j :| 0 <= j < |reports| && reports[j] == Ingested(e);
      assert Config.DataFiles[j].name == d.name;
    }
  }

  /** Whatever the other datasets do, dataset i's outcome depends only on its
      own attempt: a failure never stops the datasets after it. */
  lemma FailureIsolation(attempts1: seq<Attempt>, attempts2: seq<Attempt>, i: nat)
    requires |attempts1| == |attempts2| == |Config.DataFiles| && i < |attempts1|
    requires attempts1[i] == attempts2[i]
    ensures RunReports(attempts1)[i] == RunReports(attempts2)[i]
  {
  }

  /** The registry: three datasets, with distinct one-segment names, in the
      order invoices, customers, items. */
  lemma RegistryNames()
    ensures |Config.DataFiles| == 3
    ensures Config.DataFiles[0].name == "invoices"
    ensures Config.DataFiles[1].name == "customers"
    ensures Config.DataFiles[2].name == "items"
    ensures forall i, j :: 0 <= i < j < 3 ==> Config.DataFiles[i].name != Config.DataFiles[j].name
    ensures forall i :: 0 <= i < 3 ==> NoSlash(Config.DataFiles[i].name)
  {
  }

  /** Every dataset valid and the store reachable: three successes, and a
      ledger started from nothing holds the header once, then the three
      records, each with status "success". */
  lemma AllValidScenario(attempts: seq<Attempt>)
    requires |attempts| == |Config.DataFiles|
    requires forall i :: 0 <= i < |attempts| ==>
      && attempts[i].file.Parsed? && attempts[i].file.table.columns == Config.DataFiles[i].expectedColumns
      && attempts[i].transferOk && attempts[i].writeOk
    ensures var reports := RunReports(attempts);
      var file := AppendAll(false, [], Entries(reports));
      && SuccessCount(reports) == 3
      && WellFormed(file) && HeaderCount(file) == 1 && |Records(file)| == 3
      && forall e :: e in Records(file) ==> e.status == SuccessStatus
  {
    var reports := RunReports(attempts);
    assert forall i :: 0 <= i < |reports| ==> reports[i].Ingested?;
    EntriesAll(reports);
    EntriesCount(reports);
    EntriesFromSuccesses(reports);
    HeaderOnce(Entries(reports));
  }

  /** When every attempt succeeds, every report contributes its entry. */
  lemma {:induction false} EntriesAll(reports: seq<Report>)
    requires forall i :: 0 <= i < |reports| ==> reports[i].Ingested?
    ensures SuccessCount(reports) == |reports|
  {
    if reports != [] {
      EntriesAll(reports[..|reports| - 1]);
    }
  }

  /** The items file lacks its `item_type` column: validation fails with a
      schema mismatch, nothing is written for items, and the two datasets
      before it are decided by their own attempts alone. */
  lemma ItemsMissingColumnScenario(attempts: seq<Attempt>, rows: nat)
    requires |attempts| == |Config.DataFiles|
    requires attempts[2].file ==
      Parsed(Table(["item_id", "item_name", "category", "unit_price", "taxable"], rows))
    ensures var reports := RunReports(attempts);
      && reports[2] == Failed("items", SchemaMismatch(Config.DataFiles[2].path))
      && reports[0] == IngestOne(Config.DataFiles[0], attempts[0])
      && reports[1] == IngestOne(Config.DataFiles[1], attempts[1])
      && forall e :: e in Entries(reports) ==> e.dataset != "items"
  {
    var reports := RunReports(attempts);
    RegistryNames();
    EntriesFromSuccesses(reports);
    forall e | e in Entries(reports) ensures e.dataset != "items" {
      var j :| 0 <= j < |reports| && reports[j] == Ingested(e);
    }
  }
}
