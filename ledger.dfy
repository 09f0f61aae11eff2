/** The local ingestion ledger written by `log_metadata`: a CSV file that
    is absent until the first successful ingestion, then holds a header line
    followed by one record per ingestion, appended and never rewritten. */
module Ledger {
  import opened IngestErrors

  /** One ledger record, in the column order of the header. */
  datatype Entry = Entry(dataset: string, filename: string, rowCount: nat,
                         s3Key: string, status: string, timestamp: string)

  const SuccessStatus: string := "success"

  /** A line of the ledger file: the header (the six column names dataset,
      filename, row_count, s3_key, status, timestamp), or one record. */
  datatype Line = Header | Record(entry: Entry)

  /** A ledger as the script means it to be: the header once, first, then records. */
  predicate WellFormed(lines: seq<Line>) {
    |lines| >= 1 && lines[0] == Header
    && forall i :: 1 <= i < |lines| ==> lines[i].Record?
  }

  /** The records of a ledger, in file order. */
  function Records(lines: seq<Line>): (es: seq<Entry>)
    ensures |es| <= |lines|
  {
    if lines == [] then []
    else
      var rest := Records(lines[..|lines| - 1]);
      match lines[|lines| - 1]
      case Header => rest
      case Record(e) => rest + [e]
  }

  /** How many header lines a ledger holds. */
  function HeaderCount(lines: seq<Line>): nat {
    if lines == [] then 0
    else HeaderCount(lines[..|lines| - 1]) + (if lines[|lines| - 1] == Header then 1 else 0)
  }

  /** Adding one line at the end adds its record, or one header. */
  lemma LineAdded(lines: seq<Line>, l: Line)
    ensures Records(lines + [l]) == Records(lines) + (if l.Record? then [l.entry] else [])
    ensures HeaderCount(lines + [l]) == HeaderCount(lines) + (if l == Header then 1 else 0)
  {
    assert (lines + [l])[..|lines|] == lines;
  }

  /** The file after one write in append mode: the header goes first exactly
      when the file did not exist, then the new record. */
  function Appended(present: bool, lines: seq<Line>, e: Entry): (r: seq<Line>)
    ensures Records(r) == Records(lines) + [e]
    ensures HeaderCount(r) == HeaderCount(lines) + (if present then 0 else 1)
  {
    var written := if present then lines else lines + [Header];
    if !present then LineAdded(lines, Header); LineAdded(written, Record(e)); written + [Record(e)]
    else LineAdded(written, Record(e)); written + [Record(e)]
  }

  /** The file after appending each entry of `es` in turn. */
  function AppendAll(present: bool, lines: seq<Line>, es: seq<Entry>): seq<Line>
    decreases |es|
  {
    if es == [] then lines
    else AppendAll(true, Appended(present, lines, es[0]), es[1..])
  }

  /** One append starts a well-formed ledger from no file, and keeps a
      well-formed one well formed. */
  lemma AppendedShape(present: bool, lines: seq<Line>, e: Entry)
    ensures !present && lines == [] ==> WellFormed(Appended(present, lines, e))
    ensures WellFormed(lines) ==> WellFormed(Appended(true, lines, e))
  {
    var r := Appended(present, lines, e);
    if !present {
      assert (lines + [Header])[..|lines|] == lines;
    }
  }

  /** Appending in two batches is appending the whole sequence. */
  lemma {:induction false} AppendAllConcat(present: bool, lines: seq<Line>, es1: seq<Entry>, es2: seq<Entry>)
    ensures AppendAll(present || es1 != [], AppendAll(present, lines, es1), es2)
         == AppendAll(present, lines, es1 + es2)
    decreases |es1|
  {
    if es1 != [] {
      var next := Appended(present, lines, es1[0]);
      assert (es1 + es2)[0] == es1[0];
      assert (es1 + es2)[1..] == es1[1..] + es2;
      assert AppendAll(present, lines, es1 + es2) == AppendAll(true, next, es1[1..] + es2);
      AppendAllConcat(true, next, es1[1..], es2);
    } else {
      assert es1 + es2 == es2;
    }
  }

  /** Appending one more entry after a batch. */
  lemma AppendAllSnoc(present: bool, lines: seq<Line>, es: seq<Entry>, e: Entry)
    ensures AppendAll(present, lines, es + [e])
         == Appended(present || es != [], AppendAll(present, lines, es), e)
  {
    AppendAllConcat(present, lines, es, [e]);
  }

  /** Every entry appended shows up as a record, after the old ones, and the
      header is added exactly when the file did not exist and something was appended. */
  lemma {:induction false} AppendAllRecords(present: bool, lines: seq<Line>, es: seq<Entry>)
    ensures Records(AppendAll(present, lines, es)) == Records(lines) + es
    ensures HeaderCount(AppendAll(present, lines, es))
         == HeaderCount(lines) + (if !present && es != [] then 1 else 0)
    ensures |AppendAll(present, lines, es)| == |lines| + |es| + (if !present && es != [] then 1 else 0)
    ensures AppendAll(present, lines, es)[..|lines|] == lines
    decreases |es|
  {
    if es != [] {
      var init, e := es[..|es| - 1], es[|es| - 1];
      assert init + [e] == es;
      AppendAllSnoc(present, lines, init, e);
      AppendAllRecords(present, lines, init);
      AppendedShape(present || init != [], AppendAll(present, lines, init), e);
    }
  }

  /** From a file that exists and is well formed, any number of appends keep
      it well formed: still one header, first. */
  lemma {:induction false} AppendAllKeepsWellFormed(lines: seq<Line>, es: seq<Entry>)
    requires WellFormed(lines)
    ensures WellFormed(AppendAll(true, lines, es))
    decreases |es|
  {
    if es != [] {
      AppendedShape(true, lines, es[0]);
      AppendAllKeepsWellFormed(Appended(true, lines, es[0]), es[1..]);
    }
  }

  /** Starting from no file, any non-empty series of appends (over one run or
      many) yields a well-formed ledger: exactly one header, as the first line,
      then every entry in order. */
  lemma HeaderOnce(es: seq<Entry>)
    requires es != []
    ensures WellFormed(AppendAll(false, [], es))
    ensures HeaderCount(AppendAll(false, [], es)) == 1
    ensures Records(AppendAll(false, [], es)) == es
  {
    AppendedShape(false, [], es[0]);
    AppendAllKeepsWellFormed(Appended(false, [], es[0]), es[1..]);
    AppendAllRecords(false, [], es);
  }

  /** The ledger file on disk; `present` says whether the file exists. */
  class LedgerFile {
    var present: bool
    var lines: seq<Line>

    /** A file that does not exist has no lines. */
    ghost predicate Valid()
      reads this
    {
      !present ==> lines == []
    }

    /** No ledger file yet. */
    constructor Absent()
      ensures Valid() && !present && lines == []
    {
      present, lines := false, [];
    }

    /** A ledger file already on disk, with whatever it holds. */
    constructor Existing(contents: seq<Line>)
      ensures Valid() && present && lines == contents
    {
      present, lines := true, contents;
    }

    /** `log_metadata(dataset_name, filename, row_count, s3_key)`: append one
        record with status "success", writing the header first when the file
        does not exist yet. `now` is the timestamp read from the clock and
        `writeOk` says whether the filesystem accepted the write; a failed
        write leaves the file as it was. */
    method LogMetadata(dataset: string, filename: string, rowCount: nat, s3Key: string,
                       now: string, writeOk: bool) returns (r: Result<Entry>)
      requires Valid()
      modifies this
      ensures Valid()
      ensures r.Ok? <==> writeOk
      ensures r.Ok? ==> r.value == Entry(dataset, filename, rowCount, s3Key, SuccessStatus, now)
      ensures r.Err? ==> r.error == LedgerWriteFailed
      ensures present == (old(present) || writeOk)
      ensures lines == if r.Ok? then Appended(old(present), old(lines), r.value) else old(lines)
    {
      if !writeOk {
        return Err(LedgerWriteFailed);
      }
      var entry := Entry(dataset, filename, rowCount, s3Key, SuccessStatus, now);
      var header := !present;
      lines := lines + (if header then [Header] else []) + [Record(entry)];
      present := true;
      r := Ok(entry);
    }
  }
}
