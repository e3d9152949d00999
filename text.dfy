/** Model of text.go: turning snake_case identifiers into camelCase or PascalCase. */
module Text {
  import opened GoStrings

  /** Upper-cases the first character of `w` and keeps the rest (text.go:31 and text.go:33). */
  function CapitaliseFirst(w: string): string
  {
    if w == [] then [] else [ToUpper(w[0])] + w[1..]
  }

  function CapitaliseAll(ws: seq<string>): seq<string>
  {
    seq(|ws|, k requires 0 <= k < |ws| => CapitaliseFirst(ws[k]))
  }

  /** Reference meaning of Camelize: split on '_', upper-case the first character of every
      piece after the first, of the first piece only when `capitalised`, and join the pieces
      with nothing between them. */
  function Camelized(input: string, capitalised: bool): string
  {
    var ws := Split(input, '_');
    Join([if capitalised then CapitaliseFirst(ws[0]) else ws[0]] + CapitaliseAll(ws[1..]), "")
  }

  /** text.go:26-37, rewriting the pieces of the split in place and then joining them. */
  method Camelize(input: string, capitalised: bool) returns (r: string)
    ensures r == Camelized(input, capitalised)
  {
    var words := Split(input, '_');
    ghost var pieces := words;
    for i := 0 to |words|
      invariant |words| == |pieces|
      invariant forall k :: 0 <= k < i ==>
        words[k] == if k == 0 && !capitalised then pieces[k] else CapitaliseFirst(pieces[k])
      invariant forall k :: i <= k < |words| ==> words[k] == pieces[k]
    {
      if i > 0 && |words[i]| > 0 {
        words := words[i := [ToUpper(words[i][0])] + words[i][1..]];
      } else if capitalised && i == 0 && |words[i]| > 0 {
        words := words[i := [ToUpper(words[i][0])] + words[i][1..]];
      }
    }
    r := Join(words, "");
    JoinRewritten(input, capitalised, words, pieces);
  }

  /** The pieces of the split, rewritten as the loop of Camelize leaves them, join to the
      camel-case form. */
  lemma JoinRewritten(input: string, capitalised: bool, words: seq<string>, pieces: seq<string>)
    requires pieces == Split(input, '_') && |words| == |pieces|
    requires forall k :: 0 <= k < |words| ==>
      words[k] == if k == 0 && !capitalised then pieces[k] else CapitaliseFirst(pieces[k])
    ensures Join(words, "") == Camelized(input, capitalised)
  {
    assert words == [if capitalised then CapitaliseFirst(pieces[0]) else pieces[0]] + CapitaliseAll(pieces[1..]);
  }

  lemma {:induction false} CapitaliseAllLength(ws: seq<string>)
    ensures TotalLength(CapitaliseAll(ws)) == TotalLength(ws)
  {
    if ws != [] {
      CapitaliseAllLength(ws[1..]);
      assert CapitaliseAll(ws)[1..] == CapitaliseAll(ws[1..]);
    }
  }

  /** Capitalising cannot produce a character that is not a letter. */
  lemma CapitaliseExcludes(w: string, c: char)
    requires c !in w && !IsLetter(c)
    ensures c !in CapitaliseFirst(w)
  {
    if w != [] {
      assert ToUpper(w[0]) != c;
      assert CapitaliseFirst(w)[1..] == w[1..];
    }
  }

  /** A character that is not a letter is in the result only if it is in the input. */
  lemma CamelizedExcludes(input: string, capitalised: bool, c: char)
    requires c !in input && !IsLetter(c)
    ensures c !in Camelized(input, capitalised)
  {
    var ws := Split(input, '_');
    JoinSplit(input, '_');
    forall k | 0 <= k < |ws| ensures c !in ws[k] {
      if c in ws[k] {
        JoinIncludes(ws, ['_'], k, c);
      }
    }
    var first := if capitalised then CapitaliseFirst(ws[0]) else ws[0];
    CapitaliseExcludes(ws[0], c);
    var words := [first] + CapitaliseAll(ws[1..]);
    forall k | 0 <= k < |words| ensures c !in words[k] {
      if k > 0 {
        CapitaliseExcludes(ws[k], c);
      }
    }
    JoinExcludes(words, "", c);
  }

  /** The result never contains '_': the pieces hold none and the join adds none. */
  lemma CamelizedHasNoUnderscore(input: string, capitalised: bool)
    ensures '_' !in Camelized(input, capitalised)
  {
    var ws := Split(input, '_');
    var out := [if capitalised then CapitaliseFirst(ws[0]) else ws[0]] + CapitaliseAll(ws[1..]);
    forall k | 0 <= k < |out| ensures '_' !in out[k] {
      if k > 0 || capitalised {
        var w := if k == 0 then ws[0] else ws[k];
        assert w != [] ==> w[0] != '_';
      }
    }
    JoinExcludes(out, "", '_');
  }

  lemma SplitTotalLength(input: string, sep: char)
    ensures |input| == TotalLength(Split(input, sep)) + Count(input, sep)
  {
    var ws := Split(input, sep);
    JoinSplit(input, sep);
    JoinLength(ws, [sep]);
  }

  lemma CamelizedTotalLength(input: string, capitalised: bool)
    ensures |Camelized(input, capitalised)| == TotalLength(Split(input, '_'))
  {
    var ws := Split(input, '_');
    CamelizedParts(input, capitalised);
    JoinConcatLength(CapitaliseAll(ws[1..]));
    CapitaliseAllLength(ws[1..]);
    assert |CapitaliseFirst(ws[0])| == |ws[0]|;
  }

  /** Each '_' is dropped and every other character kept: the length falls by the count of '_'. */
  lemma CamelizedLength(input: string, capitalised: bool)
    ensures |Camelized(input, capitalised)| == |input| - Count(input, '_')
  {
    CamelizedTotalLength(input, capitalised);
    SplitTotalLength(input, '_');
  }

  /** Camelizing a snake_case name built from '_'-free pieces: the first piece as it is (or
      with its first character upper-cased when `capitalised`), then every later piece with
      its first character upper-cased; empty pieces contribute nothing. */
  lemma CamelizedPieces(first: string, rest: seq<string>, capitalised: bool)
    requires '_' !in first
    requires forall k :: 0 <= k < |rest| ==> '_' !in rest[k]
    ensures Camelized(Join([first] + rest, "_"), capitalised)
         == (if capitalised then CapitaliseFirst(first) else first) + Join(CapitaliseAll(rest), "")
  {
    var ws := [first] + rest;
    ConsExcludes(first, rest, '_');
    SplitJoin(ws, '_');
    CamelizedOfSplit(Join(ws, "_"), first, rest, capitalised);
  }

  lemma ConsExcludes(first: string, rest: seq<string>, c: char)
    requires c !in first
    requires forall k :: 0 <= k < |rest| ==> c !in rest[k]
    ensures forall k :: 0 <= k < |[first] + rest| ==> c !in ([first] + rest)[k]
  {
    forall k | 0 <= k < |[first] + rest|
      ensures c !in ([first] + rest)[k]
    {
      if k > 0 {
        assert ([first] + rest)[k] == rest[k - 1];
      }
    }
  }

  lemma CamelizedOfSplit(input: string, first: string, rest: seq<string>, capitalised: bool)
    requires Split(input, '_') == [first] + rest
    ensures Camelized(input, capitalised)
         == (if capitalised then CapitaliseFirst(first) else first) + Join(CapitaliseAll(rest), "")
  {
    CamelizedParts(input, capitalised);
    assert Split(input, '_')[1..] == rest;
  }

  /** Without an underscore and with `capitalised == false` the input comes back unchanged,
      and only then. */
  lemma CamelizedUnchanged(input: string)
    ensures Camelized(input, false) == input <==> '_' !in input
  {
    CamelizedLength(input, false);
    if '_' !in input {
      JoinSplit(input, '_');
      var ws := Split(input, '_');
      assert [ws[0]] + CapitaliseAll(ws[1..]) == ws;
    }
  }

  lemma {:induction false} CapitalisedJoinFixed(ws: seq<string>)
    ensures CapitaliseFirst(Join(CapitaliseAll(ws), "")) == Join(CapitaliseAll(ws), "")
  {
    if ws != [] {
      var cs := CapitaliseAll(ws);
      assert cs[1..] == CapitaliseAll(ws[1..]);
      JoinCons(cs[0], cs[1..]);
      assert cs == [cs[0]] + cs[1..];
      if ws[0] == [] {
        CapitalisedJoinFixed(ws[1..]);
      }
    }
  }

  /** Camelized is the first piece, capitalised or not, followed by the capitalised join of
      the other pieces. */
  lemma CamelizedParts(input: string, capitalised: bool)
    ensures var ws := Split(input, '_');
      Camelized(input, capitalised)
        == (if capitalised then CapitaliseFirst(ws[0]) else ws[0]) + Join(CapitaliseAll(ws[1..]), "")
  {
    var ws := Split(input, '_');
    JoinCons(if capitalised then CapitaliseFirst(ws[0]) else ws[0], CapitaliseAll(ws[1..]));
  }

  lemma CapitaliseFirstAppend(a: string, b: string)
    requires a != []
    ensures CapitaliseFirst(a + b) == CapitaliseFirst(a) + b
  {
    assert (a + b)[0] == a[0];
    assert (a + b)[1..] == a[1..] + b;
  }

  /** The PascalCase form is the camelCase form with its first character upper-cased. So the
      two differ at most in their first character, and not at all when the first piece of the
      split is empty (the input starts with '_'). */
  lemma CamelizedCapitalisation(input: string)
    ensures Camelized(input, true) == CapitaliseFirst(Camelized(input, false))
    ensures Split(input, '_')[0] == [] ==> Camelized(input, true) == Camelized(input, false)
  {
    var ws := Split(input, '_');
    var rest := Join(CapitaliseAll(ws[1..]), "");
    CamelizedParts(input, true);
    CamelizedParts(input, false);
    if ws[0] == [] {
      CapitalisedJoinFixed(ws[1..]);
      assert [] + rest == rest;
      assert CapitaliseFirst([]) == [];
    } else {
      CapitaliseFirstAppend(ws[0], rest);
    }
  }

  lemma SplitOfPieces(s: string, ws: seq<string>)
    requires |ws| >= 1 && forall k :: 0 <= k < |ws| ==> '_' !in ws[k]
    requires Join(ws, "_") == s
    ensures Split(s, '_') == ws
  {
    SplitJoin(ws, '_');
  }

  /** The split and the joins behind CamelizeExamples, worked out apart from it. */
  lemma ExampleSplit()
    ensures Split("example_input", '_') == ["example", "input"]
  {
    SplitOfPieces("example_input", ["example", "input"]);
  }

  lemma ExampleJoins()
    ensures Join(["example"] + CapitaliseAll(["input"]), "") == "exampleInput"
    ensures Join([CapitaliseFirst("example")] + CapitaliseAll(["input"]), "") == "ExampleInput"
  {
  }

  /** The examples of text.go:20-21. */
  lemma CamelizeExamples()
    ensures Camelized("example_input", false) == "exampleInput"
    ensures Camelized("example_input", true) == "ExampleInput"
  {
    ExampleSplit();
    ExampleJoins();
  }

  /** The splits and the joins behind CamelizeEdgeCases. */
  lemma EdgeCaseSplits()
    ensures Split("a__b", '_') == ["a", "", "b"]
    ensures Split("_id", '_') == ["", "id"]
  {
    SplitOfPieces("a__b", ["a", "", "b"]);
    SplitOfPieces("_id", ["", "id"]);
  }

  lemma EdgeCaseJoins()
    ensures Join([CapitaliseFirst("a")] + CapitaliseAll(["", "b"]), "") == "AB"
    ensures Join([CapitaliseFirst("")] + CapitaliseAll(["id"]), "") == "Id"
  {
    assert CapitaliseAll(["", "b"]) == ["", "B"] by {
      assert CapitaliseFirst("b") == "B";
    }
    assert CapitaliseFirst("a") == "A";
    assert ["A"] + ["", "B"] == ["A", "", "B"];
    assert Join(["A", "", "B"], "") == "A" + Join(["", "B"], "");
    assert Join(["", "B"], "") == "B";
  }

  /** Edge cases: no input, no '_', a doubled '_' and a leading '_'. */
  lemma CamelizeEdgeCases()
    ensures Camelized("", false) == "" && Camelized("", true) == ""
    ensures Camelized("a", true) == "A"
    ensures Camelized("a__b", true) == "AB"
    ensures Camelized("_id", true) == "Id"
  {
    EdgeCaseSplits();
    EdgeCaseJoins();
  }
}
