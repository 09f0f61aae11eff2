/** The script's compiled-in configuration: the dataset registry and the
    destination constants. */
module Config {

  /** One registry entry: the dataset's name, its source file and the exact
      ordered column list that file must have. */
  datatype Descriptor = Descriptor(name: string, path: string, expectedColumns: seq<string>)

  const S3Bucket: string := "qle-retail-pipeline"
  const S3Prefix: string := "raw"
  const Region: string := "us-east-2"
  const LogFile: string := "/Users/papayaw/projects/qle_pipeline/retail_ingestion/logs/ingestion_log.csv"

  /** The registry, in the insertion order in which the script iterates it. */
  const DataFiles: seq<Descriptor> := [
    Descriptor("invoices",
      "/Users/papayaw/projects/qle_pipeline/retail_ingestion/test_data/invoices.csv",
      ["invoice_id", "customer_id", "item_id", "quantity", "rate", "amount",
       "invoice_date", "due_date", "status"]),
    Descriptor("customers",
      "/Users/papayaw/projects/qle_pipeline/retail_ingestion/test_data/customers.csv",
      ["customer_id", "customer_name", "email", "phone", "region", "created_date",
       "customer_type"]),
    Descriptor("items",
      "/Users/papayaw/projects/qle_pipeline/retail_ingestion/test_data/items.csv",
      ["item_id", "item_name", "item_type", "category", "unit_price", "taxable"])
  ]
}
