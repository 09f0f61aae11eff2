/** The schema check of `validate_csv`: a file passes exactly when its column
    list equals the expected list, same names in the same order. */
module Schema {
  import opened IngestErrors

  /** What the script uses of a loaded DataFrame: its column names, in order,
      and its number of data rows (`len(df)`, the header not counted). */
  datatype Table = Table(columns: seq<string>, rowCount: nat)

  /** What `pd.read_csv` makes of the file at a path: a table, or an
      exception because the file is missing or not parsable. */
  datatype CsvFile = Parsed(table: Table) | Unreadable

  /** `validate_csv(filepath, expected_columns)`: load the file, compare its
      column list with the expected one, and return the table unchanged. */
  function ValidateCsv(path: string, expected: seq<string>, file: CsvFile): (r: Result<Table>)
    ensures r.Ok? <==> file.Parsed? && file.table.columns == expected
    ensures r.Ok? ==> r.value == file.table
    ensures r.Err? ==> r.error == (if file.Parsed? then SchemaMismatch(path) else FileAccess(path))
  {
    match file
    case Unreadable => Err(FileAccess(path))
    case Parsed(t) =>
      if t.columns != expected then Err(SchemaMismatch(path)) else Ok(t)
  }

  /** A missing, extra, reordered or renamed column is a schema mismatch:
      any difference in length, or in the name at any position. */
  lemma DeviationRejected(path: string, expected: seq<string>, t: Table)
    requires |t.columns| != |expected|
          || exists i :: 0 <= i < |expected| && i < |t.columns| && t.columns[i] != expected[i]
    ensures ValidateCsv(path, expected, Parsed(t)) == Err(SchemaMismatch(path))
  {
  }

  /** Dropping one expected column is rejected. */
  lemma MissingColumnRejected(path: string, expected: seq<string>, k: nat, rows: nat)
    requires k < |expected|
    ensures ValidateCsv(path, expected, Parsed(Table(expected[..k] + expected[k + 1..], rows)))
         == Err(SchemaMismatch(path))
  {
  }

  /** Swapping two differently named columns is rejected. */
  lemma ReorderedColumnsRejected(path: string, expected: seq<string>, i: nat, j: nat, rows: nat)
    requires i < j < |expected| && expected[i] != expected[j]
    ensures ValidateCsv(path, expected,
                        Parsed(Table(expected[i := expected[j]][j := expected[i]], rows)))
         == Err(SchemaMismatch(path))
  {
  }
}
