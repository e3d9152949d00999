/** Model of CreateStruct in struct.go: the Go source text of one struct for a table, with
    aligned field names and types and optional JSON tags. */
module Struct {
  import opened Wrappers
  import opened GoStrings
  import opened Db
  import opened Text
  import ColumnType

  /** The message CreateStruct panics with on an empty column list (struct.go:74). */
  const EmptyTable := "table descriptor is empty"

  /** One row of `temp` (struct.go:83-88): the exported field name, the Go type and, when
      JSON tags are asked for, the JSON name. Go keeps it as a slice of two or three strings. */
  datatype FieldRow = FieldRow(name: string, goType: string, json: Option<string>)

  function RowOf(t: TableDescriptor, withJson: bool): FieldRow
  {
    FieldRow(Camelized(t.Field, true), ColumnType.GoType(t),
             if withJson then Some(Camelized(t.Field, false)) else None)
  }

  function Rows(tt: seq<TableDescriptor>, withJson: bool): seq<FieldRow>
  {
    seq(|tt|, k requires 0 <= k < |tt| => RowOf(tt[k], withJson))
  }

  function Names(rows: seq<FieldRow>): seq<string>
  {
    seq(|rows|, k requires 0 <= k < |rows| => rows[k].name)
  }

  function Types(rows: seq<FieldRow>): seq<string>
  {
    seq(|rows|, k requires 0 <= k < |rows| => rows[k].goType)
  }

  /** The widest string, or 0 for none, found as struct.go:89-94 does: keep the running
      maximum and replace it by a strictly longer length. */
  function MaxLen(ws: seq<string>): (r: nat)
    ensures forall k :: 0 <= k < |ws| ==> |ws[k]| <= r
    ensures ws == [] ==> r == 0
    ensures ws != [] ==> exists k :: 0 <= k < |ws| && |ws[k]| == r
  {
    if ws == [] then 0
    else
      var m := MaxLen(ws[..|ws| - 1]);
      if |ws[|ws| - 1]| > m then |ws[|ws| - 1]| else m
  }

  /** The JSON tag of struct.go:104-106, or nothing for a row without a JSON name. */
  function Tag(json: Option<string>): string
  {
    match json
    case None => ""
    case Some(j) => "\t`json:\"" + j + "\"`"
  }

  /** The template of struct.go:98 filled in (struct.go:103): four spaces, the name padded
      to `wf`, a space, the type padded to `wt`. */
  function Field(row: FieldRow, wf: nat, wt: nat): string
  {
    "    " + PadRight(row.name, wf) + " " + PadRight(row.goType, wt)
  }

  /** One field line without its line break (struct.go:103-106). */
  function Line(row: FieldRow, wf: nat, wt: nat): string
  {
    Field(row, wf, wt) + Tag(row.json)
  }

  function Lines(rows: seq<FieldRow>, wf: nat, wt: nat): seq<string>
  {
    seq(|rows|, k requires 0 <= k < |rows| => Line(rows[k], wf, wt))
  }

  /** The field lines, each with its line break, in the order of `rows`. */
  function Body(rows: seq<FieldRow>, wf: nat, wt: nat): string
  {
    Lined(Lines(rows, wf, wt))
  }

  /** The first line of the struct, with its line break (struct.go:101). */
  function Header(tableName: string): string
  {
    "type " + Camelized(tableName, true) + "Data struc {\n"
  }

  /** The first line of the struct without its line break. */
  function HeaderLine(tableName: string): string
  {
    "type " + Camelized(tableName, true) + "Data struc {"
  }

  lemma HeaderLineBreak(tableName: string)
    ensures Header(tableName) == HeaderLine(tableName) + "\n"
  {
    assert "Data struc {\n" == "Data struc {" + "\n";
  }

  /** The struct for `rows`: the header, the field lines aligned to the widest name and the
      widest type, and the closing brace (struct.go:101-111). */
  function TextOf(tableName: string, rows: seq<FieldRow>): string
  {
    Header(tableName) + Body(rows, MaxLen(Names(rows)), MaxLen(Types(rows))) + "}"
  }

  /** The text CreateStruct returns, or the message it panics with. */
  function StructText(tt: seq<TableDescriptor>, tableName: string, withJson: bool): (r: Result<string, string>)
    ensures r.Failure? <==> tt == []
    ensures r.Failure? ==> r.error == EmptyTable
  {
    if |tt| < 1 then Failure(EmptyTable) else Success(TextOf(tableName, Rows(tt, withJson)))
  }

  lemma ProjectionsSnoc(rows: seq<FieldRow>, row: FieldRow)
    ensures Names(rows + [row]) == Names(rows) + [row.name]
    ensures Types(rows + [row]) == Types(rows) + [row.goType]
  {
  }

  /** struct.go:71-114. A panic becomes `Failure`. */
  method CreateStruct(tt: seq<TableDescriptor>, tableName: string, withJson: bool)
    returns (r: Result<string, string>)
    ensures r == StructText(tt, tableName, withJson)
  {
    if |tt| < 1 {
      return Failure(EmptyTable);
    }
    var temp, withField, withType := CollectRows(tt, withJson);
    var structName := Camelize(tableName, true);
    var result := "type " + structName + "Data struc {\n";
    HeaderOf(tableName, structName, result);
    result := WriteFields(result, temp, withField, withType);
    result := result + "}";
    return Success(result);
  }

  /** struct.go:77-95: the rows of `tt` in order, with the widest name and the widest type. */
  method CollectRows(tt: seq<TableDescriptor>, withJson: bool)
    returns (temp: seq<FieldRow>, withField: nat, withType: nat)
    ensures temp == Rows(tt, withJson)
    ensures withField == MaxLen(Names(temp)) && withType == MaxLen(Types(temp))
  {
    withField, withType, temp := 0, 0, [];
    for i := 0 to |tt|
      invariant |temp| == i
      invariant forall k :: 0 <= k < i ==> temp[k] == RowOf(tt[k], withJson)
      invariant withField == MaxLen(Names(temp))
      invariant withType == MaxLen(Types(temp))
    {
      var name := Camelize(tt[i].Field, true);
      var json: Option<string> := None;
      if withJson {
        var j := Camelize(tt[i].Field, false);
        json := Some(j);
      }
      var row := FieldRow(name, ColumnType.GoType(tt[i]), json);
      var wf := withField;
      var wt := withType;
      if |row.name| > withField {
        withField := |row.name|;
      }
      if |row.goType| > withType {
        withType := |row.goType|;
      }
      WidthStep(temp, wf, wt, row);
      RowsStep(tt, i, withJson, temp, name, json, row);
      temp := temp + [row];
    }
    RowsOf(tt, withJson, temp);
  }

  /** struct.go:103-108: the field lines appended to `prefix`, in the order of `temp`. */
  method WriteFields(prefix: string, temp: seq<FieldRow>, withField: nat, withType: nat)
    returns (result: string)
    ensures result == prefix + Body(temp, withField, withType)
  {
    result := prefix;
    assert temp[..0] == [];
    for i := 0 to |temp|
      invariant result == prefix + Body(temp[..i], withField, withType)
    {
      var t := temp[i];
      var line := Field(t, withField, withType);
      if t.json.Some? {
        line := line + Tag(t.json);
      }
      BodyStep(prefix, temp, i, withField, withType, result, line);
      result := result + line + "\n";
    }
    assert temp[..|temp|] == temp;
  }

  lemma LinesPrefix(rows: seq<FieldRow>, i: nat, wf: nat, wt: nat)
    requires i < |rows|
    ensures Lines(rows[..i + 1], wf, wt) == Lines(rows[..i], wf, wt) + [Line(rows[i], wf, wt)]
  {
  }

  /** One step of the second loop keeps its invariant. */
  lemma BodyStep(prefix: string, rows: seq<FieldRow>, i: nat, wf: nat, wt: nat, acc: string, line: string)
    requires i < |rows|
    requires acc == prefix + Body(rows[..i], wf, wt)
    requires line == Line(rows[i], wf, wt)
    ensures acc + line + "\n" == prefix + Body(rows[..i + 1], wf, wt)
  {
    LinesPrefix(rows, i, wf, wt);
    LinedSnoc(Lines(rows[..i], wf, wt), line);
    AppendLine(prefix, Body(rows[..i], wf, wt), Body(rows[..i + 1], wf, wt), line);
  }

  lemma AppendLine(prefix: string, b: string, b': string, line: string)
    requires b' == b + line + "\n"
    ensures (prefix + b) + line + "\n" == prefix + b'
  {
  }

  /** One step of the first loop keeps the widths the maxima. */
  lemma WidthStep(temp: seq<FieldRow>, wf: nat, wt: nat, row: FieldRow)
    requires wf == MaxLen(Names(temp)) && wt == MaxLen(Types(temp))
    ensures (if |row.name| > wf then |row.name| else wf) == MaxLen(Names(temp + [row]))
    ensures (if |row.goType| > wt then |row.goType| else wt) == MaxLen(Types(temp + [row]))
  {
    ProjectionsSnoc(temp, row);
    assert (Names(temp) + [row.name])[..|temp|] == Names(temp);
    assert (Types(temp) + [row.goType])[..|temp|] == Types(temp);
  }

  /** One step of the first loop keeps the rows those of the columns seen so far. */
  lemma RowsStep(tt: seq<TableDescriptor>, i: nat, withJson: bool, temp: seq<FieldRow>,
                 name: string, json: Option<string>, row: FieldRow)
    requires i < |tt| && |temp| == i
    requires forall k :: 0 <= k < i ==> temp[k] == RowOf(tt[k], withJson)
    requires name == Camelized(tt[i].Field, true)
    requires json == if withJson then Some(Camelized(tt[i].Field, false)) else None
    requires row == FieldRow(name, ColumnType.GoType(tt[i]), json)
    ensures forall k :: 0 <= k < i + 1 ==> (temp + [row])[k] == RowOf(tt[k], withJson)
  {
    assert row == RowOf(tt[i], withJson);
    forall k | 0 <= k < i + 1
      ensures (temp + [row])[k] == RowOf(tt[k], withJson)
    {
      if k < i {
        assert (temp + [row])[k] == temp[k];
      } else {
        assert (temp + [row])[k] == row;
      }
    }
  }

  lemma RowsOf(tt: seq<TableDescriptor>, withJson: bool, temp: seq<FieldRow>)
    requires |temp| == |tt|
    requires forall k :: 0 <= k < |tt| ==> temp[k] == RowOf(tt[k], withJson)
    ensures temp == Rows(tt, withJson)
  {
  }

  lemma HeaderOf(tableName: string, structName: string, result: string)
    requires structName == Camelized(tableName, true)
    requires result == "type " + structName + "Data struc {\n"
    ensures result == Header(tableName)
  {
  }
}
