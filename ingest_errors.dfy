/** The failures one ingestion attempt can raise, and a Result type carrying them.
    In the script every failure is a Python exception; here each step returns
    either its value or the error it would have raised. */
module IngestErrors {

  datatype Error =
    | FileAccess(path: string)            // read_csv could not read or parse the file
    | SchemaMismatch(path: string)        // the column list differs from the expected one
    | UploadFailed(bucket: string, key: string)  // the object store rejected the transfer
    | LedgerWriteFailed                   // the ledger file could not be written

  datatype Result<+T> = Ok(value: T) | Err(error: Error)
}
