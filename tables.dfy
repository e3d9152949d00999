/** Model of CreateAllTablesStructFile in struct.go: one Go file holding the package clause
    and the struct of every table. The Go map from table names to columns is given as the
    sequence of its entries in the order the range loop visits them. */
module Tables {
  import opened Wrappers
  import opened GoStrings
  import opened Db
  import opened Struct

  /** A table name with its columns: one entry of the `descriptors` map. */
  type Table = (string, seq<TableDescriptor>)

  /** The package clause and the blank line after it (struct.go:33-35). */
  function Preamble(packageName: string): string
  {
    "package " + packageName + "\n\n"
  }

  predicate AllNonEmpty(tables: seq<Table>)
  {
    forall k :: 0 <= k < |tables| ==> tables[k].1 != []
  }

  /** The text so far followed by the struct of the next table and a blank line
      (struct.go:39-40); a panic so far or in the next table stops everything. */
  function Then(acc: Result<string, string>, next: Result<string, string>): Result<string, string>
  {
    match acc
    case Failure(e) => Failure(e)
    case Success(s) =>
      match next
      case Failure(e) => Failure(e)
      case Success(t) => Success(s + t + "\n\n")
  }

  /** What CreateStruct gives for each table, in visiting order. */
  function StructTexts(tables: seq<Table>, withJson: bool): seq<Result<string, string>>
  {
    seq(|tables|, k requires 0 <= k < |tables| => StructText(tables[k].1, tables[k].0, withJson))
  }

  /** The package clause followed by the given structs, each with a blank line after it, or
      the first panic among them. */
  function Assemble(packageName: string, texts: seq<Result<string, string>>): Result<string, string>
  {
    if texts == [] then Success(Preamble(packageName))
    else Then(Assemble(packageName, texts[..|texts| - 1]), texts[|texts| - 1])
  }

  /** The text CreateAllTablesStructFile writes, or the panic of the first table without
      columns. */
  function FileText(packageName: string, tables: seq<Table>, withJson: bool): Result<string, string>
  {
    Assemble(packageName, StructTexts(tables, withJson))
  }

  lemma ThenFacts(acc: Result<string, string>, next: Result<string, string>, p: string)
    ensures Then(acc, next).Success? <==> acc.Success? && next.Success?
    ensures Then(acc, next).Failure? ==>
      Then(acc, next).error == if acc.Failure? then acc.error else next.error
    ensures acc.Success? && next.Success? && |p| <= |acc.value| && acc.value[..|p|] == p ==>
      |p| <= |Then(acc, next).value| && Then(acc, next).value[..|p|] == p
  {
    if acc.Success? && next.Success? && |p| <= |acc.value| {
      assert (acc.value + next.value + "\n\n")[..|p|] == acc.value[..|p|];
    }
  }

  /** Assembling succeeds exactly when every struct does, fails with the panic of one of
      them otherwise, and opens with the package clause. */
  lemma {:induction false} AssembleResult(packageName: string, texts: seq<Result<string, string>>)
    ensures Assemble(packageName, texts).Success? <==> forall k :: 0 <= k < |texts| ==> texts[k].Success?
    ensures Assemble(packageName, texts).Failure? ==>
      exists k :: 0 <= k < |texts| && texts[k].Failure? && Assemble(packageName, texts).error == texts[k].error
    ensures Assemble(packageName, texts).Success? ==>
      var text := Assemble(packageName, texts).value;
      |Preamble(packageName)| <= |text| && text[..|Preamble(packageName)|] == Preamble(packageName)
  {
    if texts != [] {
      var n := |texts| - 1;
      var front := texts[..n];
      assert forall k :: 0 <= k < n ==> front[k] == texts[k];
      AssembleResult(packageName, front);
      ThenFacts(Assemble(packageName, front), texts[n], Preamble(packageName));
    }
  }

  /** The structs, each with a blank line after it. */
  function Pieces(texts: seq<Result<string, string>>): seq<string>
    requires forall k :: 0 <= k < |texts| ==> texts[k].Success?
  {
    seq(|texts|, k requires 0 <= k < |texts| => texts[k].value + "\n\n")
  }

  /** When every struct exists, assembling concatenates them after the package clause, in
      order, each with a blank line after it. */
  lemma {:induction false} AssembleJoin(packageName: string, texts: seq<Result<string, string>>)
    requires forall k :: 0 <= k < |texts| ==> texts[k].Success?
    ensures Assemble(packageName, texts).Success?
    ensures Assemble(packageName, texts).value == Preamble(packageName) + Join(Pieces(texts), "")
  {
    AssembleResult(packageName, texts);
    if texts != [] {
      var n := |texts| - 1;
      var front := texts[..n];
      assert forall k :: 0 <= k < n ==> front[k] == texts[k];
      AssembleJoin(packageName, front);
      AssembleResult(packageName, front);
      assert Pieces(texts) == Pieces(front) + [texts[n].value + "\n\n"];
      JoinSnocConcat(Pieces(front), texts[n].value + "\n\n");
    }
  }

  /** The file text exists exactly when every table has a column; otherwise the panic is the
      one of CreateStruct. It opens with the package clause. */
  lemma FileTextResult(packageName: string, tables: seq<Table>, withJson: bool)
    ensures FileText(packageName, tables, withJson).Success? <==> AllNonEmpty(tables)
    ensures FileText(packageName, tables, withJson).Failure? ==>
      FileText(packageName, tables, withJson).error == EmptyTable
    ensures FileText(packageName, tables, withJson).Success? ==>
      var text := FileText(packageName, tables, withJson).value;
      |Preamble(packageName)| <= |text| && text[..|Preamble(packageName)|] == Preamble(packageName)
  {
    var texts := StructTexts(tables, withJson);
    AssembleResult(packageName, texts);
    assert forall k :: 0 <= k < |tables| ==> (texts[k].Success? <==> tables[k].1 != []);
  }

  /** When every table has a column, the file is the package clause followed by the struct of
      each table in visiting order, each with a blank line after it. */
  lemma FileTextEntries(packageName: string, tables: seq<Table>, withJson: bool)
    requires AllNonEmpty(tables)
    ensures forall k :: 0 <= k < |tables| ==> StructTexts(tables, withJson)[k].Success?
    ensures FileText(packageName, tables, withJson).Success?
    ensures FileText(packageName, tables, withJson).value
      == Preamble(packageName) + Join(Pieces(StructTexts(tables, withJson)), "")
  {
    var texts := StructTexts(tables, withJson);
    assert forall k :: 0 <= k < |tables| ==> texts[k].Success?;
    AssembleJoin(packageName, texts);
  }

  lemma AssembleStep(packageName: string, texts: seq<Result<string, string>>, i: nat)
    requires i < |texts|
    ensures Assemble(packageName, texts[..i + 1]) == Then(Assemble(packageName, texts[..i]), texts[i])
  {
    assert texts[..i + 1][..i] == texts[..i];
  }

  /** struct.go:29-45 without the final write: the text for the file, or the panic. */
  method CreateAllTablesStructFile(packageName: string, descriptors: seq<Table>, withJson: bool)
    returns (r: Result<string, string>)
    ensures r == FileText(packageName, descriptors, withJson)
  {
    ghost var texts := StructTexts(descriptors, withJson);
    var builder := "package ";
    builder := builder + packageName;
    builder := builder + "\n\n";
    for i := 0 to |descriptors|
      invariant Assemble(packageName, texts[..i]) == Success(builder)
    {
      var k, v := descriptors[i].0, descriptors[i].1;
      var s := CreateStruct(v, k, withJson);
      AssembleStep(packageName, texts, i);
      if s.Failure? {
        FileTextResult(packageName, descriptors, withJson);
        return Failure(s.error);
      }
      builder := builder + s.value;
      builder := builder + "\n\n";
    }
    assert texts[..|texts|] == texts;
    return Success(builder);
  }
}
