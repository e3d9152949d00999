/** The record db.go reads for every column of a table. */
module Db {
  import opened Wrappers

  /** One row of MySQL's `DESCRIBE <table>` (db.go:20-27). Only Field, Type and Null are read
      by the code generator; Default is a nullable `*string` in Go. */
  datatype TableDescriptor = TableDescriptor(
    Field: string,
    Type: string,
    Null: string,
    Key: string,
    Default: Option<string>,
    Extra: string)
}
