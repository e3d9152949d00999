/** What the text CreateStruct returns looks like: its lines, their order, the column
    alignment and the JSON tags (struct.go:71-114). */
module StructLayout {
  import opened Wrappers
  import opened GoStrings
  import opened Db
  import opened Text
  import opened Struct
  import ColumnType

  /** The struct text is its header line, one line per row and the closing brace, joined by
      line breaks. */
  lemma TextJoin(tableName: string, rows: seq<FieldRow>)
    ensures TextOf(tableName, rows)
      == Join([HeaderLine(tableName)] + Lines(rows, MaxLen(Names(rows)), MaxLen(Types(rows))) + ["}"], "\n")
  {
    var ls := Lines(rows, MaxLen(Names(rows)), MaxLen(Types(rows)));
    JoinLined(HeaderLine(tableName), ls);
    HeaderLineBreak(tableName);
    JoinSnoc([HeaderLine(tableName)] + ls, "}", "\n");
  }

  /** No part of the row holds a line break. */
  predicate NoBreak(row: FieldRow)
  {
    '\n' !in row.name && '\n' !in row.goType && (row.json.Some? ==> '\n' !in row.json.value)
  }

  lemma LineNoBreak(row: FieldRow, wf: nat, wt: nat)
    requires NoBreak(row)
    ensures '\n' !in Line(row, wf, wt)
  {
    var pn, pt := PadRight(row.name, wf), PadRight(row.goType, wt);
    PadRightExcludes(row.name, wf, '\n');
    PadRightExcludes(row.goType, wt, '\n');
    assert Line(row, wf, wt) == "    " + pn + " " + pt + Tag(row.json);
  }

  lemma PadRightExcludes(s: string, width: nat, c: char)
    requires c !in s && c != ' '
    ensures c !in PadRight(s, width)
  {
    var r := PadRight(s, width);
    forall k | 0 <= k < |r|
      ensures r[k] != c
    {
      if k < |s| {
        assert r[k] == r[..|s|][k];
      }
    }
  }

  lemma HeaderNoBreak(tableName: string)
    requires '\n' !in tableName
    ensures '\n' !in HeaderLine(tableName)
  {
    CamelizedExcludes(tableName, true, '\n');
  }

  /** Without line breaks in the table name and the rows, the struct text has exactly
      |rows| + 2 lines: the header, the field lines in row order, and the closing brace. */
  lemma TextLines(tableName: string, rows: seq<FieldRow>)
    requires '\n' !in tableName
    requires forall k :: 0 <= k < |rows| ==> NoBreak(rows[k])
    ensures Split(TextOf(tableName, rows), '\n')
      == [HeaderLine(tableName)] + Lines(rows, MaxLen(Names(rows)), MaxLen(Types(rows))) + ["}"]
  {
    var wf, wt := MaxLen(Names(rows)), MaxLen(Types(rows));
    var lines := Lines(rows, wf, wt);
    HeaderNoBreak(tableName);
    forall k | 0 <= k < |lines|
      ensures '\n' !in lines[k]
    {
      LineNoBreak(rows[k], wf, wt);
    }
    TextJoin(tableName, rows);
    SplitFramed(TextOf(tableName, rows), HeaderLine(tableName), lines);
  }

  /** A header, lines and a closing brace, none with a line break, split back into themselves. */
  lemma SplitFramed(text: string, h: string, ls: seq<string>)
    requires text == Join([h] + ls + ["}"], "\n")
    requires '\n' !in h
    requires forall k :: 0 <= k < |ls| ==> '\n' !in ls[k]
    ensures Split(text, '\n') == [h] + ls + ["}"]
  {
    var all := [h] + ls + ["}"];
    forall k | 0 <= k < |all|
      ensures '\n' !in all[k]
    {
      if 0 < k <= |ls| {
        assert all[k] == ls[k - 1];
      }
    }
    SplitJoin(all, '\n');
  }

  /** A column whose name has no line break gives a row without one. */
  lemma ColumnNoBreak(t: TableDescriptor, withJson: bool)
    requires '\n' !in t.Field
    ensures NoBreak(RowOf(t, withJson))
  {
    CamelizedExcludes(t.Field, true, '\n');
    CamelizedExcludes(t.Field, false, '\n');
    ColumnType.GoTypeInNames(t);
  }

  /** When neither the table name nor a column name holds a line break, the text
      CreateStruct returns has |tt| + 2 lines: the header, one field line per column in
      column order, and the closing brace. */
  lemma StructLines(tt: seq<TableDescriptor>, tableName: string, withJson: bool)
    requires tt != []
    requires '\n' !in tableName
    requires forall k :: 0 <= k < |tt| ==> '\n' !in tt[k].Field
    ensures var rows := Rows(tt, withJson);
      Split(StructText(tt, tableName, withJson).value, '\n')
        == [HeaderLine(tableName)] + Lines(rows, MaxLen(Names(rows)), MaxLen(Types(rows))) + ["}"]
    ensures |Split(StructText(tt, tableName, withJson).value, '\n')| == |tt| + 2
  {
    var rows := Rows(tt, withJson);
    forall k | 0 <= k < |rows|
      ensures NoBreak(rows[k])
    {
      ColumnNoBreak(tt[k], withJson);
    }
    TextLines(tableName, rows);
  }

  /** The struct text opens with the header and closes with a brace. */
  lemma StructShape(tt: seq<TableDescriptor>, tableName: string, withJson: bool)
    requires tt != []
    ensures var s := StructText(tt, tableName, withJson).value;
      |Header(tableName)| < |s| && s[..|Header(tableName)|] == Header(tableName) && s[|s| - 1] == '}'
  {
    var rows := Rows(tt, withJson);
    ShapeOf(Header(tableName), Body(rows, MaxLen(Names(rows)), MaxLen(Types(rows))));
  }

  lemma ShapeOf(h: string, b: string)
    ensures var s := h + b + "}";
      |h| < |s| && s[..|h|] == h && s[|s| - 1] == '}'
  {
    assert (h + b + "}")[..|h|] == h;
  }

  /** The columns of a field line: four spaces, `name` padded with spaces to `wf`, a space,
      `ty` padded with spaces to `wt`, then `tag`. */
  predicate Layout(line: string, name: string, ty: string, tag: string, wf: nat, wt: nat)
  {
    && |name| <= wf && |ty| <= wt
    && |line| == 5 + wf + wt + |tag|
    && line[..4] == "    "
    && line[4..4 + |name|] == name
    && (forall j :: 4 + |name| <= j < 4 + wf ==> line[j] == ' ')
    && line[4 + wf] == ' '
    && line[5 + wf..5 + wf + |ty|] == ty
    && (forall j :: 5 + wf + |ty| <= j < 5 + wf + wt ==> line[j] == ' ')
    && line[5 + wf + wt..] == tag
  }

  /** A field line whose widths fit its name and type has that layout, and its tag is there
      exactly when the row has a JSON name. */
  lemma LineLayout(row: FieldRow, wf: nat, wt: nat)
    requires |row.name| <= wf && |row.goType| <= wt
    ensures Layout(Line(row, wf, wt), row.name, row.goType, Tag(row.json), wf, wt)
    ensures |Line(row, wf, wt)| > 5 + wf + wt <==> row.json.Some?
  {
    var pn := PadRight(row.name, wf);
    var pt := PadRight(row.goType, wt);
    assert Line(row, wf, wt) == "    " + pn + " " + pt + Tag(row.json);
    PaddedLayout(Line(row, wf, wt), row.name, row.goType, Tag(row.json), pn, pt, wf, wt);
  }

  lemma PaddedLayout(line: string, name: string, ty: string, tag: string, pn: string, pt: string,
                     wf: nat, wt: nat)
    requires |name| <= wf && |ty| <= wt
    requires |pn| == wf && pn[..|name|] == name && forall k :: |name| <= k < wf ==> pn[k] == ' '
    requires |pt| == wt && pt[..|ty|] == ty && forall k :: |ty| <= k < wt ==> pt[k] == ' '
    requires line == "    " + pn + " " + pt + tag
    ensures Layout(line, name, ty, tag, wf, wt)
  {
    assert line[4..4 + wf] == pn;
    assert line[5 + wf..5 + wf + wt] == pt;
    assert line[4..4 + |name|] == pn[..|name|];
    assert line[5 + wf..5 + wf + |ty|] == pt[..|ty|];
  }

  /** The widths are the longest field name and the longest Go type of the columns. */
  lemma Widths(tt: seq<TableDescriptor>, withJson: bool)
    ensures var rows := Rows(tt, withJson);
      var wf, wt := MaxLen(Names(rows)), MaxLen(Types(rows));
      && (forall k :: 0 <= k < |tt| ==>
            |Camelized(tt[k].Field, true)| <= wf && |ColumnType.GoType(tt[k])| <= wt)
      && (tt == [] ==> wf == 0 && wt == 0)
      && (tt != [] ==> exists k :: 0 <= k < |tt| && |Camelized(tt[k].Field, true)| == wf)
      && (tt != [] ==> exists k :: 0 <= k < |tt| && |ColumnType.GoType(tt[k])| == wt)
  {
    var rows := Rows(tt, withJson);
    assert forall k :: 0 <= k < |tt| ==> Names(rows)[k] == Camelized(tt[k].Field, true);
    assert forall k :: 0 <= k < |tt| ==> Types(rows)[k] == ColumnType.GoType(tt[k]);
  }

  /** The k-th field line of the struct: the exported name of column k, padded to the widest
      name, then its Go type, padded to the widest type, then a JSON tag with the
      lower-camel-case name when `withJson` is set and nothing otherwise. */
  lemma FieldLine(tt: seq<TableDescriptor>, withJson: bool, k: nat)
    requires k < |tt|
    ensures var rows := Rows(tt, withJson);
      var wf, wt := MaxLen(Names(rows)), MaxLen(Types(rows));
      Layout(Lines(rows, wf, wt)[k], Camelized(tt[k].Field, true), ColumnType.GoType(tt[k]),
             if withJson then "\t`json:\"" + Camelized(tt[k].Field, false) + "\"`" else "", wf, wt)
  {
    var rows := Rows(tt, withJson);
    var wf, wt := MaxLen(Names(rows)), MaxLen(Types(rows));
    assert Names(rows)[k] == rows[k].name && Types(rows)[k] == rows[k].goType;
    LineLayout(rows[k], wf, wt);
  }
}
