# Retail sales ingestion — a Dafny model

This project models the batch job `ingest_sales_data.py`. The job walks a fixed
registry of three datasets: invoices, customers and items. For each one it
loads the CSV file and checks that its column list is exactly the expected
one. It then uploads the file to an S3 bucket under a date-partitioned key and
appends one audit record to a local CSV ledger. Any failure is caught for
that dataset alone and the loop goes on.

Modules, leaf first:

- `IngestErrors`: the failures a step can raise, and `Result`.
- `Config`: the registry `DataFiles` (in iteration order) and the bucket, prefix, region and ledger-path constants.
- `Schema`: a loaded table reduced to its columns and row count, and `ValidateCsv`.
- `Decimal`, `Paths`: decimal rendering with and without zero padding, POSIX base names, and splitting on '/'.
- `UploadKey`: the key `<prefix>/<dataset>/year=<Y>/month=<MM>/day=<DD>/<base name>`, a parser that reads it back, and `UploadToS3`.
- `Ledger`: ledger lines (header or record), the append-only file as a class with an existence flag, and the header-once lemmas.
- `Ingest`: one dataset's attempt as a function and as a method, the registry loop, and the properties of a whole run.

The outside world enters as parameters. Each dataset gets an `Attempt` value
holding five outcomes:

- what `pd.read_csv` finds (a table or an unreadable file);
- the date `datetime.today()` reads;
- whether the boto3 transfer succeeds;
- the ledger timestamp;
- whether the ledger write succeeds.

Three details of the script shape the model:

- The key's date is the local calendar date that `datetime.today()` reads at line 56. The model takes that date as a parameter.
- The header is written when the ledger file does not exist (lines 79-80). A ledger file that already exists, even an empty one, never gets a header. The model keeps an existing file's contents arbitrary. It proves "header exactly once, first" for a ledger that starts absent, and proves that appends keep a well-formed ledger well formed.
- The catch-all at lines 92-93 also covers `log_metadata`. The model gives the ledger step an outcome of its own. A failed write leaves the file unchanged and the dataset counts as failed.

`Ingest.RunReports` is the reference definition of a run: one report per registered dataset, in registry order, each computed by `IngestOne` from that dataset's own attempt. `Ingest.RunMain` and `Ingest.IngestRegistry` are proved against it.

## Model

| member | source | states |
|---|---|---|
| `Schema.ValidateCsv` | ingestion/scripts/ingest_sales_data.py:47-52 | Validation succeeds iff the file was read and its column list equals the expected list exactly. On success it returns the loaded table unchanged. An unreadable file gives a file-access error and any other difference gives a schema mismatch. |
| `Schema.DeviationRejected` | ingestion/scripts/ingest_sales_data.py:49-50 | A column list of a different length, or with a different name at any position, is a schema mismatch. |
| `Schema.MissingColumnRejected` | ingestion/scripts/ingest_sales_data.py:49-50 | Dropping any one expected column is a schema mismatch. |
| `Schema.ReorderedColumnsRejected` | ingestion/scripts/ingest_sales_data.py:49-50 | Swapping two differently named columns is a schema mismatch, even though the same names remain. |
| `Decimal.Render` | ingestion/scripts/ingest_sales_data.py:57 | A year is printed as decimal digits with no leading zero. It is one character long exactly when the number is below 10. |
| `Decimal.Pad2` | ingestion/scripts/ingest_sales_data.py:57 | The `02` format gives decimal digits, at least two of them, and exactly two for numbers below 100. |
| `Decimal.RenderValue` | ingestion/scripts/ingest_sales_data.py:57 | Reading the printed digits of a number gives the number back. |
| `Decimal.Pad2Value` | ingestion/scripts/ingest_sales_data.py:57 | Reading a zero-padded month or day field gives the number back. |
| `Decimal.RenderInjective` | ingestion/scripts/ingest_sales_data.py:57 | Different years print differently. |
| `Paths.Basename` | ingestion/scripts/ingest_sales_data.py:57 | The base name has no '/'. It is a suffix of the path and is preceded by a '/' unless it is the whole path, so it is the text after the last '/'. |
| `Paths.BasenameUnder` | ingestion/scripts/ingest_sales_data.py:57 | A slash-free name placed after a '/' is the base name of the result. |
| `Paths.SplitJoin` | ingestion/scripts/ingest_sales_data.py:57 | Splitting on '/' a join of slash-free segments gives the segments back. This is what lets a key be read back. |
| `UploadKey.Key` | ingestion/scripts/ingest_sales_data.py:57 | The key is built as the script formats it, and its last segment is the source file's base name. The full layout is stated by KeySegments and KeyRoundTrip. |
| `UploadKey.KeySegments` | ingestion/scripts/ingest_sales_data.py:57 | Split on '/', the key is exactly six segments: prefix, dataset, `year=` plus the year, `month=` plus two digits, `day=` plus two digits, and the file's base name. |
| `UploadKey.KeyRoundTrip` | ingestion/scripts/ingest_sales_data.py:57 | For a calendar date and one-segment prefix and dataset, parsing the key gives back the prefix, the dataset, the year, month and day, and the base name of the path. |
| `UploadKey.KeyInjective` | ingestion/scripts/ingest_sales_data.py:57 | Equal keys come from the same dataset, the same date and the same base name. Files of different days never share a key. |
| `UploadKey.UploadToS3` | ingestion/scripts/ingest_sales_data.py:55-62 | Upload succeeds iff the transfer succeeds. On success it returns exactly `Key` for the configured prefix, the dataset, today's date and the path, and that key reads back as those parts. On failure the error names the bucket and the same key. |
| `Ledger.Appended` | ingestion/scripts/ingest_sales_data.py:78-80 | One append adds exactly one record, after the existing records. It adds one header iff the file did not exist. |
| `Ledger.AppendedShape` | ingestion/scripts/ingest_sales_data.py:78-80 | One append to no file gives a well-formed ledger, and one append to a well-formed ledger keeps it well formed. |
| `Ledger.AppendAllRecords` | ingestion/scripts/ingest_sales_data.py:65-80 | After any series of appends, the old lines are unchanged as a prefix and the records are the old records followed by the new entries in order. The file grows by one line per entry, plus the header iff the file was absent and something was appended. |
| `Ledger.AppendAllConcat` | ingestion/scripts/ingest_sales_data.py:79-80 | Appending in two batches, such as two runs against the same file, is the same as appending everything at once. |
| `Ledger.AppendAllKeepsWellFormed` | ingestion/scripts/ingest_sales_data.py:79-80 | Appending to an existing well-formed ledger never adds a second header. |
| `Ledger.HeaderOnce` | ingestion/scripts/ingest_sales_data.py:79-80 | Starting from no file, any non-empty series of appends yields exactly one header, as the first line, followed by every entry in order. |
| `Ledger.LedgerFile.LogMetadata` | ingestion/scripts/ingest_sales_data.py:65-81 | A successful write appends exactly one record with status "success" and the given fields. The header goes before it iff the file did not exist, earlier lines are unchanged and the file exists afterwards. A failed write leaves the file as it was. |
| `Ingest.IngestOne` | ingestion/scripts/ingest_sales_data.py:88-93 | A dataset's attempt ends in a ledger entry iff validation, upload and the ledger write all succeed. The entry has the dataset name, the path's base name, the table's row count, the formatted key and status "success", and the key reads back as the dataset and day. An unreadable file is reported as a file-access error and a column difference as a schema mismatch, whatever the upload and write would have done. An upload failure after a passed validation is reported as such, whatever the write would have done. A write failure after both is reported as a ledger-write failure. |
| `Ingest.IngestDataset` | ingestion/scripts/ingest_sales_data.py:88-93 | The loop body runs validate, then upload only after validation passed, then the ledger write only after both passed. Its report is the one `IngestOne` specifies. The ledger gains that entry iff the report is a success and is otherwise unchanged. |
| `Ingest.IngestRegistry` | ingestion/scripts/ingest_sales_data.py:87-93 | The loop visits every registry entry in order and reports each one as its own attempt decides, whatever earlier entries did. The ledger ends as the old ledger with the successful entries appended in order. |
| `Ingest.RunMain` | ingestion/scripts/ingest_sales_data.py:84-95 | `main` over the compiled-in registry: the reports are `RunReports` and the ledger gains exactly the successful entries. |
| `Ingest.EntriesCount` | ingestion/scripts/ingest_sales_data.py:91 | A run yields one ledger entry per successful dataset. |
| `Ingest.EntriesFromSuccesses` | ingestion/scripts/ingest_sales_data.py:88-93 | Every appended entry comes from a successful attempt, and every successful attempt contributes its entry. |
| `Ingest.RunLedgerGrowth` | ingestion/scripts/ingest_sales_data.py:87-93 | After a run the ledger's records are the old records followed by exactly as many new records as there were fully successful datasets, each with status "success". |
| `Ingest.RowIffSuccess` | ingestion/scripts/ingest_sales_data.py:88-93 | A ledger row for dataset i is written iff its file was readable with exactly the expected columns, its upload succeeded and its ledger write succeeded. |
| `Ingest.FailureIsolation` | ingestion/scripts/ingest_sales_data.py:92-93 | Dataset i's outcome depends only on its own attempt, so a failure of another dataset never changes or stops it. |
| `Ingest.RegistryNames` | ingestion/scripts/ingest_sales_data.py:10-33 | The registry holds three datasets, invoices, customers and items, in that order. Their names are distinct and contain no '/'. |
| `Ingest.AllValidScenario` | ingestion/scripts/ingest_sales_data.py:84-95 | If all three files are valid and every upload and write succeeds, a ledger started absent holds one header and then three records, all with status "success". |
| `Ingest.ItemsMissingColumnScenario` | ingestion/scripts/ingest_sales_data.py:26-31 | An items file without `item_type` fails with a schema mismatch, no ledger entry for items is written, and the other two datasets are decided by their own attempts. |

## Left out

- CSV parsing by `pd.read_csv`: a loaded file is reduced to its column list and row count. Pandas renaming of duplicate headers is not modelled.
- CSV writing by `DataFrame.to_csv`: a ledger line is a `Header` or a `Record(entry)`, not text. Quoting and delimiters are not modelled.
- The boto3 client and `upload_file`: network I/O. Each transfer is a success/failure parameter; the bytes sent and partial uploads are not modelled.
- Clock reads: the date for the key and the timestamp for the ledger are parameters. ISO-8601 formatting of the timestamp is not modelled.
- `os.makedirs` and `os.path.exists`: the ledger's directory is assumed creatable, and the file's existence is the `present` field of `Ledger.LedgerFile`.
- Partial ledger writes: a failed ledger write is modelled as leaving the file unchanged; a write interrupted midway is not modelled.
- Logging (configuration, info and error messages): side output only. The reports returned by `Ingest.RunMain` stand for which datasets were logged as ingested and which as failed, with their errors.
- The bucket, region and path constants are kept as opaque strings; nothing is proved about the base names of the configured paths.
- UploadKey.KeyRoundTrip: the read-back needs a one-segment prefix and dataset name and a calendar date, which hold for the configured prefix and registry (`Ingest.RegistryNames`). With a '/' in a dataset name the key would still be built the same way but would not split back into six segments.
- Ingest.IngestOne: the key read-back clause is stated only for one-segment dataset names and calendar dates, for the same reason.
