# db2go code generator, modelled in Dafny

db2go reads the columns of a MySQL table (`DESCRIBE <table>`) and writes a Go struct for it. This
project models the part that turns column descriptions into Go source text and proves its
properties:

- **Name normaliser** `Camelize` (text.go). It splits a snake_case name on `_`. It upper-cases the
  first character of every later piece, and of the first piece only in PascalCase mode. Then it
  joins the pieces with nothing between them. The model is the method `Text.Camelize`, which updates
  the pieces in place the way the Go loop does. It is proved equal to the reference function
  `Text.Camelized`, and the lemmas are about that function.
- **Column-type resolver** `getType` (struct.go). It upper-cases the SQL type and notes whether
  "UNSIGNED" occurs. It deletes every "UNSIGNED", trims the ends and cuts at the first `(` that is
  not the first character. Then it maps the token to a Go type name and adds `*` for a nullable
  column, except for the binary and unknown types. The model is the pure function
  `ColumnType.GoType`: `CleanType` and `ResolveToken` are its two stages, with the Go library calls
  it uses written out in module `GoStrings`.
- **Struct emitter** `CreateStruct` (struct.go). It builds one row per column and tracks the widest
  field name and the widest Go type. It writes a header line and one aligned field line per row,
  each with an optional JSON tag, then a closing brace. The model is the method
  `Struct.CreateStruct`, built from the loop methods `CollectRows` and `WriteFields`. It is proved
  equal to the function `Struct.StructText`. The lemmas in `StructLayout` state what that text looks
  like.
- **File assembly** `CreateAllTablesStructFile` (struct.go). It writes the `package` clause, then
  each table's struct followed by a blank line. The model is the method
  `Tables.CreateAllTablesStructFile`, proved equal to the function `Tables.FileText`.

The header keeps the source's literal `struc` (`"type " + name + "Data struc {\n"`). The generated
text therefore is not valid Go, and the model reproduces it as written.

A panic (`CreateStruct` on an empty column list) is a `Failure` carrying the panic message. Strings
are sequences of ASCII characters.

Two descriptions disagree with the code, and the model follows the code:

- The doc comment at text.go:24 says an input without underscores comes back unchanged. That holds
  only in camelCase mode; in PascalCase mode text.go:32-33 still upper-cases the first letter
  (`Text.CamelizeEdgeCases`: "a" becomes "A").
- getType's own doc comment (struct.go:128-129 and struct.go:134) says nullable columns are
  pointers to their Go types, without exceptions. The code calls
  `result.Reset()` for the binary types and for unknown types (struct.go:191 and struct.go:196), so a
  nullable BLOB is `[]byte` and a nullable unknown type is `interface{}`
  (`ColumnType.GoTypePointer`).

Modules, one file each: `Wrappers` (Option, Result), `GoStrings` (the `strings` and `fmt` functions
used), `Db` (the `TableDescriptor` record), `Text`, `ColumnType`, `ColumnTypeQuirks` (type strings
whose Go type surprises), `ColumnTypeExamples`, `Struct`, `StructLayout` and `Tables`.

## Model

| member | source | states |
|---|---|---|
| Text.Camelize | text.go:26-37 | The result is `Camelized(input, capitalised)`: the pieces of the split on '_'. The first piece has its first character upper-cased only when `capitalised`; every later piece has its first character upper-cased. The pieces are joined with nothing between them. |
| Text.CamelizedHasNoUnderscore | text.go:27-36 | The result never contains '_', in either mode. |
| Text.CamelizeExamples | text.go:20-21 | "example_input" gives "exampleInput" in camelCase mode and "ExampleInput" in PascalCase mode. |
| Text.CamelizedUnchanged | text.go:24-35 | In camelCase mode the result equals the input if and only if the input has no '_'. |
| Text.CamelizeEdgeCases | text.go:27-36 | "" gives "" in both modes. "a" gives "A" in PascalCase mode, so an input without '_' can change. "a__b" gives "AB" and "_id" gives "Id". |
| Text.CamelizedPieces | text.go:30-36 | For any first piece and later pieces without '_', Camelize of their '_'-join is the first piece (upper-cased first character when `capitalised`) followed by every later piece with its first character upper-cased. Empty pieces add nothing. |
| Text.CamelizedCapitalisation | text.go:30-33 | The PascalCase form is the camelCase form with its first character upper-cased. The two are equal when the input starts with '_'. |
| Text.CamelizedLength | text.go:27-36 | The length of the result is the length of the input minus the number of '_' in it. |
| Text.CamelizedExcludes | text.go:27-36 | A character that is not a letter is in the result only if it is in the input (used for line breaks). |
| GoStrings.Split | text.go:27 | `strings.Split` gives one more piece than there are separators, and no piece holds the separator. |
| GoStrings.JoinSplit | text.go:27-36 | Joining the pieces of a split with the separator gives back the input. |
| GoStrings.SplitJoin | text.go:27-36 | Splitting a join of separator-free pieces gives back the pieces. |
| GoStrings.ToUpper | text.go:31 | The ASCII upper-case of a character: a lower-case letter becomes the upper-case letter 32 code points below it, and every other character stays as it is; letters stay letters. |
| GoStrings.Upper | struct.go:145 | `strings.ToUpper` keeps the length and upper-cases every character. |
| GoStrings.UpperIdempotent | struct.go:145 | Upper-casing twice is upper-casing once. |
| GoStrings.ReplaceAllAbsent | struct.go:149 | `strings.ReplaceAll` leaves a string without the pattern as it is. |
| GoStrings.ReplaceAfterSpace | struct.go:149 | When the only occurrence of the pattern follows a space, exactly that occurrence is replaced. |
| GoStrings.TrimLeft | struct.go:150 | What is left is a suffix of the input that starts with no white space; only white space was removed. |
| GoStrings.TrimRight | struct.go:150 | What is left is a prefix of the input that ends with no white space; only white space was removed. |
| GoStrings.Index | struct.go:153 | `strings.Index` is -1 exactly when the character is absent; otherwise it is the first position holding the character. |
| GoStrings.PadRight | struct.go:98-104 | `%-Ns` keeps the string as a prefix, pads it with spaces to N and never cuts it. |
| ColumnType.GoTypeInNames | struct.go:158-199 | getType always returns one of the 26 Go type names the switch can write, at most 11 characters long and without a line break. |
| ColumnType.GoTypePointer | struct.go:159-197 | The result starts with "*" if and only if Null is exactly "YES" and the token is a text, integer, float, time or bool type. A nullable column's type is "*" + the non-nullable type for those tokens, and the same as the non-nullable type for binary and unknown tokens. Any Null other than "YES" acts like "NO". |
| ColumnType.ResolveTokenPointer | struct.go:158-198 | The same statement about the switch on a cleaned token. |
| ColumnType.GoTypeUnsigned | struct.go:148-187 | The result contains "u" if and only if "UNSIGNED" occurs in the upper-cased type and the token is BIGINT, INT, MEDIUMINT, SMALLINT or TINYINT. FLOAT, DOUBLE and DECIMAL always give float64, or *float64 when nullable. |
| ColumnType.ResolveTokenUnsigned | struct.go:166-187 | The unsigned type of an integer token is its signed type with "u" right after the optional "*". For every other token the unsigned flag changes nothing. |
| ColumnType.ResolveTokenUnsignedMarker | struct.go:163-198 | The switch writes "u" exactly for an unsigned integer token. |
| ColumnType.GoTypeCaseInsensitive | struct.go:145 | Two types with the same upper-case form give the same Go type; so does the upper-cased type itself. |
| ColumnType.GoTypeIgnoresParenSuffix | struct.go:152-156 | For a bare type name (letters only, no "UNSIGNED"), `name(args)` cleans to the upper-cased name and gets the Go type of the bare name. |
| ColumnType.CleanTypeWord | struct.go:145-156 | A bare type name cleans to its upper-case form. |
| ColumnType.CleanTypeParen | struct.go:145-156 | `name(args)` with no "UNSIGNED" in it cleans to the upper-cased name. |
| ColumnType.CleanTypeUnsignedSuffix | struct.go:145-150 | `name UNSIGNED` is unsigned and cleans to the upper-cased name, as `name` does. |
| ColumnType.CleanTypeParenUnsigned | struct.go:145-156 | `name(args) UNSIGNED` (args without "UNSIGNED") is unsigned, and cleans to the upper-cased name: the deletion leaves a trailing space, trimming removes it, and the cut at `(` drops the arguments. |
| ColumnType.GoTypeUnsignedParen | struct.go:145-187 | `name(args) UNSIGNED`, the form MySQL prints for unsigned integer columns, gets the same Go type as `name UNSIGNED`, so "INT(10) UNSIGNED" is uint32. |
| ColumnType.GoTypeUnsignedSuffix | struct.go:148-187 | `name UNSIGNED` gets "u" after the optional "*" of the signed type for an integer name, and the same type as `name` otherwise. |
| ColumnTypeQuirks.SpacedTokenUnknown | struct.go:163-197 | A cleaned token that holds a space matches no case of the switch and gives interface{}. |
| ColumnTypeQuirks.CleanTypeTrailingSpace | struct.go:150 | An upper-case bare name followed by a space cleans back to the name. |
| ColumnTypeQuirks.QuirkWordAfterUnsigned | struct.go:148-197 | `name UNSIGNED word` is unsigned, cleans to `NAME  WORD` with two spaces, and gives interface{}. |
| ColumnTypeQuirks.QuirkSpaceBeforeParen | struct.go:150-156 | `name (args)` cleans to `NAME ` with its trailing space and gives interface{}. Cleaning that token again gives `NAME`, so cleaning is not idempotent. |
| ColumnTypeExamples.ExampleVarchar | struct.go:139 | "VARCHAR(255)", not nullable, gives string. |
| ColumnTypeExamples.ExampleNullableVarchar | struct.go:159-165 | "VARCHAR(255)" with Null "YES" gives *string. |
| ColumnTypeExamples.ExampleBigintUnsigned | struct.go:140 | "BIGINT UNSIGNED", not nullable, gives uint64. |
| ColumnTypeExamples.ExampleDatetime | struct.go:141 | "DATETIME", not nullable, gives time.Time. |
| ColumnTypeExamples.ExampleBool | struct.go:142 | "BOOL", not nullable, gives bool. |
| ColumnTypeExamples.ExampleIntParen | struct.go:153-156 | "INT(10)", not nullable, gives int32. |
| ColumnTypeExamples.ExampleIntParenUnsigned | struct.go:145-175 | "INT(10) UNSIGNED", not nullable, gives uint32. |
| ColumnTypeExamples.QuirkNullableBlob | struct.go:190-192 | "BLOB" with Null "YES" gives []byte, without "*". |
| ColumnTypeExamples.QuirkNullableUnknown | struct.go:195-197 | "GEOMETRY" with Null "YES" gives interface{}, without "*". |
| ColumnTypeExamples.QuirkZerofill | struct.go:149-150 | "INT UNSIGNED ZEROFILL" gives interface{} whatever Null is. |
| ColumnTypeExamples.QuirkIntSpaceParen | struct.go:150-156 | "INT (10)" gives interface{} whatever Null is. |
| Struct.CreateStruct | struct.go:71-114 | The result is `StructText(tt, tableName, withJson)`. |
| Struct.StructText | struct.go:73-75 | The struct text fails exactly for an empty column list, and then with the message "table descriptor is empty". |
| Struct.CollectRows | struct.go:77-96 | The rows are those of the columns in order: exported name, Go type, and the JSON name only when `withJson`. The two widths are the longest name and the longest type among them. |
| Struct.WriteFields | struct.go:103-109 | The prefix followed by one field line per row, in row order, each ended by a line break. |
| Struct.MaxLen | struct.go:89-94 | The running maximum bounds every length, is 0 for no strings, and is the length of one of them otherwise. |
| StructLayout.StructShape | struct.go:101-111 | For a non-empty column list the text starts with `"type " + Camelize(tableName, true) + "Data struc {\n"` and its last character is "}". |
| StructLayout.TextJoin | struct.go:101-111 | The text is the header line, the field lines in row order and "}", joined by line breaks. |
| StructLayout.StructLines | struct.go:81-111 | When neither the table name nor any column name holds a line break, splitting the text at line breaks gives the header line, one field line per column in column order, and "}". That is len(tt) + 2 lines. |
| StructLayout.Widths | struct.go:77-94 | The widths are the longest exported name and the longest Go type over all columns (0 for none), each reached by some column. |
| StructLayout.FieldLine | struct.go:98-108 | Field line k is: four spaces; column k's exported name padded with spaces to the name width; a space; its Go type padded with spaces to the type width; then the tag "\t\`json:\"<camelCase name>\"\`" when `withJson`, and nothing otherwise. So every line's part before the tag is 5 + name width + type width long. |
| StructLayout.LineLayout | struct.go:98-107 | A row's line has that layout, and is longer than 5 + both widths exactly when the row has a JSON name. |
| StructLayout.TextLines | struct.go:101-111 | Without line breaks in the parts, the text splits into exactly its header line, field lines and "}". |
| Tables.CreateAllTablesStructFile | struct.go:29-43 | The result is `FileText(packageName, descriptors, withJson)`. |
| Tables.FileTextResult | struct.go:31-42 | The file text exists exactly when every table has a column; otherwise the panic is CreateStruct's. It starts with `"package " + packageName + "\n\n"`. |
| Tables.FileTextEntries | struct.go:33-42 | When every table has a column, the file text is the package clause followed, for each entry in the given order, by that table's struct and a blank line. |
| Tables.AssembleResult | struct.go:37-42 | Assembling succeeds exactly when every struct does, and otherwise fails with the panic of one of them. |
| Tables.AssembleJoin | struct.go:37-42 | When every struct exists, assembling concatenates them in order after the package clause, each followed by "\n\n". |

## Left out

- `GetDbConnection` and `GetTable` (db.go:29-71): the MySQL connection and the `DESCRIBE` query are
  foreign I/O. The model starts from the `TableDescriptor` values they return.
- `ConnectionString` (db.go:11-18): only used to connect.
- `writeToFile` (struct.go:224-235): appending to a file is I/O. `Tables.CreateAllTablesStructFile`
  returns the text it would write.
- Tables.CreateAllTablesStructFile: the Go map is given as a sequence of its entries in the order
  the range loop visits them. Go randomises that order, and the model claims no particular order.
  Duplicate names cannot occur in a Go map and are not excluded here.
- The panics of CreateStruct and of CreateAllTablesStructFile are `Failure` values carrying the
  message. A panic in the middle of the file assembly leaves nothing written.
- `Key`, `Default` and `Extra` of `TableDescriptor` are kept in the record but never read by the
  code that is modelled.
- Non-ASCII text: Go's `len` counts bytes while `fmt`'s `%-Ns` pads by runes, and `strings.ToUpper`
  and `strings.TrimSpace` also know Unicode letters and spaces. The model treats a character as one
  ASCII byte, where these coincide.
- GoStrings.ReplaceAll: requires a non-empty pattern. The code only replaces "UNSIGNED", so Go's
  rule for an empty pattern is not modelled.
- The `fmt.Sprintf` template of struct.go:98 is not built as a string. `Struct.Field` pads the name
  and the type directly, as that template does.
