/** Model of getType in struct.go: the Go type emitted for one column. */
module ColumnType {
  import opened GoStrings
  import opened Db

  const TextTypes: set<string> :=
    {"VARCHAR", "TEXT", "CHAR", "ENUM", "SET", "LONGTEXT", "MEDIUMTEXT", "TINYTEXT"}
  const IntegerTypes: set<string> := {"BIGINT", "INT", "MEDIUMINT", "SMALLINT", "TINYINT"}
  const FloatTypes: set<string> := {"FLOAT", "DOUBLE", "DECIMAL"}
  const TimeTypes: set<string> := {"DATE", "DATETIME", "TIMESTAMP", "TIME", "YEAR"}
  const BinaryTypes: set<string> := {"BLOB", "LONGBLOB", "MEDIUMBLOB", "TINYBLOB", "BINARY", "VARBINARY"}
  const BoolTypes: set<string> := {"BIT", "BOOL", "BOOLEAN"}

  /** The tokens whose Go type is written after the "*" of a nullable column; the binary
      tokens and every unknown token reset the builder and so lose it. */
  const PointerTypes: set<string> := TextTypes + IntegerTypes + FloatTypes + TimeTypes + BoolTypes

  /** Every string getType can return. */
  const GoTypeNames: set<string> := {
    "string", "*string",
    "int64", "uint64", "*int64", "*uint64",
    "int32", "uint32", "*int32", "*uint32",
    "int16", "uint16", "*int16", "*uint16",
    "int8", "uint8", "*int8", "*uint8",
    "float64", "*float64", "time.Time", "*time.Time",
    "[]byte", "bool", "*bool", "interface{}"}

  /** struct.go:145-156: upper-case, delete every "UNSIGNED", trim the ends, and cut at the
      first '(' when it is not the first character. */
  function CleanType(sqlType: string): string
  {
    var s := TrimSpace(ReplaceAll(Upper(sqlType), "UNSIGNED", ""));
    var p := Index(s, '(');
    if p > 0 then s[..p] else s
  }

  /** struct.go:148: "UNSIGNED" occurs anywhere in the upper-cased type. */
  predicate IsUnsigned(sqlType: string)
  {
    Contains(Upper(sqlType), "UNSIGNED")
  }

  /** struct.go:158-199: the switch on the cleaned token, writing "*" first for a nullable
      column and "u" first for an unsigned integer. */
  function ResolveToken(clean: string, unsigned: bool, nullable: bool): string
  {
    var ptr := if nullable then "*" else "";
    var u := if unsigned then "u" else "";
    if clean in TextTypes then ptr + "string"
    else if clean == "BIGINT" then ptr + u + "int64"
    else if clean in {"INT", "MEDIUMINT"} then ptr + u + "int32"
    else if clean == "SMALLINT" then ptr + u + "int16"
    else if clean == "TINYINT" then ptr + u + "int8"
    else if clean in FloatTypes then ptr + "float64"
    else if clean in TimeTypes then ptr + "time.Time"
    else if clean in BinaryTypes then "[]byte"
    else if clean in BoolTypes then ptr + "bool"
    else "interface{}"
  }

  /** getType (struct.go:143-200). Null must be exactly "YES" for a pointer. */
  function GoType(t: TableDescriptor): string
  {
    ResolveToken(CleanType(t.Type), IsUnsigned(t.Type), t.Null == "YES")
  }

  /** The Go integer type names with the optional "*" and "u" in front. */
  lemma IntegerNames(nullable: bool, unsigned: bool, bits: string)
    requires bits in {"int64", "int32", "int16", "int8"}
    ensures var r := (if nullable then "*" else "") + (if unsigned then "u" else "") + bits;
      r in GoTypeNames && |r| <= 7 && '\n' !in r
  {
    var r := (if nullable then "*" else "") + (if unsigned then "u" else "") + bits;
    if bits == "int64" {
      assert r == if nullable then (if unsigned then "*uint64" else "*int64")
                  else (if unsigned then "uint64" else "int64");
    } else if bits == "int32" {
      assert r == if nullable then (if unsigned then "*uint32" else "*int32")
                  else (if unsigned then "uint32" else "int32");
    } else if bits == "int16" {
      assert r == if nullable then (if unsigned then "*uint16" else "*int16")
                  else (if unsigned then "uint16" else "int16");
    } else if bits == "int8" {
      assert r == if nullable then (if unsigned then "*uint8" else "*int8")
                  else (if unsigned then "uint8" else "int8");
    }
  }

  /** The switch yields one of a fixed set of Go type names, none longer than "interface{}"
      and none holding a line break. */
  lemma ResolveTokenInNames(clean: string, unsigned: bool, nullable: bool)
    ensures var r := ResolveToken(clean, unsigned, nullable);
      r in GoTypeNames && |r| <= 11 && '\n' !in r
  {
    var r := ResolveToken(clean, unsigned, nullable);
    var ptr := if nullable then "*" else "";
    var u := if unsigned then "u" else "";
    if clean in TextTypes {
      assert r == if nullable then "*string" else "string";
    } else if clean == "BIGINT" {
      IntegerNames(nullable, unsigned, "int64");
    } else if clean in {"INT", "MEDIUMINT"} {
      IntegerNames(nullable, unsigned, "int32");
    } else if clean == "SMALLINT" {
      IntegerNames(nullable, unsigned, "int16");
    } else if clean == "TINYINT" {
      IntegerNames(nullable, unsigned, "int8");
    } else if clean in FloatTypes {
      assert r == if nullable then "*float64" else "float64";
    } else if clean in TimeTypes {
      assert r == if nullable then "*time.Time" else "time.Time";
    } else if clean in BinaryTypes {
      assert r == "[]byte";
    } else if clean in BoolTypes {
      assert r == if nullable then "*bool" else "bool";
    } else {
      assert r == "interface{}";
    }
  }

  /** getType returns one of a fixed set of Go type names, none longer than "interface{}"
      and none holding a line break. */
  lemma GoTypeInNames(t: TableDescriptor)
    ensures GoType(t) in GoTypeNames
    ensures |GoType(t)| <= 11 && '\n' !in GoType(t)
  {
    ResolveTokenInNames(CleanType(t.Type), IsUnsigned(t.Type), t.Null == "YES");
  }

  /** In the switch the "*" is kept exactly for a nullable column whose token is known and
      not binary. */
  lemma ResolveTokenPointer(clean: string, unsigned: bool, nullable: bool)
    ensures var r := ResolveToken(clean, unsigned, nullable);
      (|r| > 0 && r[0] == '*') <==> nullable && clean in PointerTypes
    ensures ResolveToken(clean, unsigned, true)
        == if clean in PointerTypes then "*" + ResolveToken(clean, unsigned, false)
           else ResolveToken(clean, unsigned, false)
  {
    UnpointedToken(clean, unsigned);
    PointedToken(clean, unsigned);
  }

  /** Without the nullable flag the switch never writes a "*". */
  lemma UnpointedToken(clean: string, unsigned: bool)
    ensures var r := ResolveToken(clean, unsigned, false); |r| > 0 && r[0] != '*'
  {
    var r := ResolveToken(clean, unsigned, false);
    var u := if unsigned then "u" else "";
    if clean in TextTypes {
      assert r == "string";
    } else if clean in IntegerTypes {
      var bits := if clean == "BIGINT" then "int64" else if clean in {"INT", "MEDIUMINT"} then "int32"
        else if clean == "SMALLINT" then "int16" else "int8";
      assert r == "" + u + bits;
      assert r[0] == if unsigned then 'u' else 'i';
    } else if clean in FloatTypes {
      assert r == "float64";
    } else if clean in TimeTypes {
      assert r == "time.Time";
    } else if clean in BinaryTypes {
      assert r == "[]byte";
    } else if clean in BoolTypes {
      assert r == "bool";
    } else {
      assert r == "interface{}";
    }
  }

  /** The nullable flag puts a "*" in front of the Go type of a pointer token only. */
  lemma PointedToken(clean: string, unsigned: bool)
    ensures ResolveToken(clean, unsigned, true)
        == if clean in PointerTypes then "*" + ResolveToken(clean, unsigned, false)
           else ResolveToken(clean, unsigned, false)
  {
    if clean in PointerTypes {
      PointedKnown(clean, unsigned);
    } else {
      assert clean !in TextTypes && clean !in IntegerTypes && clean !in FloatTypes;
      assert clean !in TimeTypes && clean !in BoolTypes;
    }
  }

  lemma PointedKnown(clean: string, unsigned: bool)
    requires clean in PointerTypes
    ensures ResolveToken(clean, unsigned, true) == "*" + ResolveToken(clean, unsigned, false)
  {
    var u := if unsigned then "u" else "";
    if clean in TextTypes {
      assert ResolveToken(clean, unsigned, false) == "" + "string";
    } else if clean in IntegerTypes {
      var bits := if clean == "BIGINT" then "int64" else if clean in {"INT", "MEDIUMINT"} then "int32"
        else if clean == "SMALLINT" then "int16" else "int8";
      assert ResolveToken(clean, unsigned, true) == "*" + u + bits;
      assert ResolveToken(clean, unsigned, false) == "" + u + bits;
    } else if clean in FloatTypes {
      assert ResolveToken(clean, unsigned, false) == "" + "float64";
    } else if clean in TimeTypes {
      assert ResolveToken(clean, unsigned, false) == "" + "time.Time";
    } else {
      NotPointerBinary(clean);
      assert ResolveToken(clean, unsigned, false) == "" + "bool";
    }
  }

  /** A pointer token is not binary. */
  lemma NotPointerBinary(clean: string)
    requires clean in BoolTypes
    ensures clean !in BinaryTypes
  {
  }

  /** getType starts with "*" exactly when Null is "YES" (compared case-sensitively) and the
      token is known and not binary: a nullable BLOB is "[]byte" and a nullable unknown type
      "interface{}", as for a column that is not nullable. */
  lemma GoTypePointer(t: TableDescriptor)
    ensures (|GoType(t)| > 0 && GoType(t)[0] == '*')
        <==> t.Null == "YES" && CleanType(t.Type) in PointerTypes
    ensures GoType(t.(Null := "YES"))
        == if CleanType(t.Type) in PointerTypes then "*" + GoType(t.(Null := "NO"))
           else GoType(t.(Null := "NO"))
    ensures t.Null != "YES" ==> GoType(t) == GoType(t.(Null := "NO"))
  {
    var yes, no := t.(Null := "YES"), t.(Null := "NO");
    assert yes.Type == t.Type && no.Type == t.Type;
    ResolveTokenPointer(CleanType(t.Type), IsUnsigned(t.Type), t.Null == "YES");
  }

  /** In the switch "u" is written exactly for an unsigned integer token. */
  lemma ResolveTokenUnsignedMarker(clean: string, unsigned: bool, nullable: bool)
    ensures 'u' in ResolveToken(clean, unsigned, nullable) <==> unsigned && clean in IntegerTypes
  {
    var r := ResolveToken(clean, unsigned, nullable);
    var ptr := if nullable then "*" else "";
    if clean in TextTypes {
      assert r == ptr + "string" && 'u' !in ptr;
    } else if clean in IntegerTypes {
      var bits := if clean == "BIGINT" then "int64" else if clean in {"INT", "MEDIUMINT"} then "int32"
        else if clean == "SMALLINT" then "int16" else "int8";
      assert r == ptr + (if unsigned then "u" else "") + bits;
      assert 'u' !in ptr && 'u' !in bits;
    } else if clean in FloatTypes {
      assert r == ptr + "float64" && 'u' !in ptr;
    } else if clean in TimeTypes {
      assert r == ptr + "time.Time" && 'u' !in ptr;
    } else if clean in BinaryTypes {
      assert r == "[]byte";
    } else if clean in BoolTypes {
      assert r == ptr + "bool" && 'u' !in ptr;
    } else {
      assert r == "interface{}";
    }
  }

  /** An unsigned integer token gets its signed Go type with "u" right after the "*" (if
      any); for every other token the unsigned flag changes nothing. FLOAT, DOUBLE and
      DECIMAL are always float64. */
  lemma ResolveTokenUnsigned(clean: string, nullable: bool)
    ensures var ptr := if nullable then "*" else "";
      ResolveToken(clean, true, nullable)
        == if clean in IntegerTypes then ptr + "u" + ResolveToken(clean, false, false)
           else ResolveToken(clean, false, nullable)
    ensures clean in FloatTypes ==>
      ResolveToken(clean, true, nullable) == ResolveToken(clean, false, nullable)
        == if nullable then "*float64" else "float64"
  {
    var ptr := if nullable then "*" else "";
    if clean in IntegerTypes {
      var bits := if clean == "BIGINT" then "int64" else if clean in {"INT", "MEDIUMINT"} then "int32"
        else if clean == "SMALLINT" then "int16" else "int8";
      assert ResolveToken(clean, true, nullable) == ptr + "u" + bits;
      assert ResolveToken(clean, false, false) == "" + "" + bits;
    }
  }

  /** getType writes "u" exactly for an integer token with "UNSIGNED" in the type. An unsigned
      integer column gets its signed type with "u" put in front of the type name; FLOAT,
      DOUBLE, DECIMAL and all other tokens ignore "UNSIGNED". */
  lemma GoTypeUnsigned(t: TableDescriptor)
    ensures 'u' in GoType(t) <==> IsUnsigned(t.Type) && CleanType(t.Type) in IntegerTypes
    ensures CleanType(t.Type) in FloatTypes ==>
      GoType(t) == if t.Null == "YES" then "*float64" else "float64"
  {
    ResolveTokenUnsignedMarker(CleanType(t.Type), IsUnsigned(t.Type), t.Null == "YES");
    ResolveTokenUnsigned(CleanType(t.Type), t.Null == "YES");
  }

  /** A bare type name: one or more ASCII letters. */
  predicate IsWord(s: string)
  {
    |s| > 0 && forall i :: 0 <= i < |s| ==> IsLetter(s[i])
  }

  lemma UpperWord(base: string)
    requires IsWord(base)
    ensures IsWord(Upper(base)) && ' ' !in Upper(base) && '(' !in Upper(base)
  {
  }

  /** A word has no space to trim. */
  lemma WordTrimmed(w: string)
    requires IsWord(w)
    ensures TrimSpace(w) == w
  {
    assert !IsSpace(w[0]) && !IsSpace(w[|w| - 1]);
  }

  /** A bare type name without "UNSIGNED" is matched as its upper-case form. */
  lemma CleanTypeWord(base: string)
    requires IsWord(base) && !IsUnsigned(base)
    ensures CleanType(base) == Upper(base)
  {
    UpperWord(base);
    WordTrimmed(Upper(base));
    ReplaceAllAbsent(Upper(base), "UNSIGNED", "");
  }

  /** The steps of `CleanType` on `u + "(" + rest` for an upper-case bare name `u`. */
  lemma CleanParenSuffix(u: string, rest: string)
    requires IsWord(u) && '(' !in u && !Contains(u + "(" + rest, "UNSIGNED")
    ensures TrimSpace(ReplaceAll(u + "(" + rest, "UNSIGNED", "")) == u + TrimRight("(" + rest)
  {
    ReplaceAllAbsent(u + "(" + rest, "UNSIGNED", "");
    TrimParenSuffix(u, rest);
  }

  lemma TrimParenSuffix(u: string, rest: string)
    requires IsWord(u)
    ensures TrimSpace(u + "(" + rest) == u + TrimRight("(" + rest)
  {
    var b := "(" + rest;
    assert u + "(" + rest == u + b;
    assert TrimLeft(u + b) == u + b;
    TrimRightAppend(u, b);
  }

  /** `strings.Index` finds the first parenthesis right after a prefix without one. */
  lemma IndexAfter(u: string, b: string)
    requires '(' !in u && b != [] && b[0] == '('
    ensures Index(u + b, '(') == |u| && (u + b)[..|u|] == u
  {
    var s := u + b;
    assert s[|u|] == '(' && s[..|u|] == u;
    IndexFirst(s, '(', |u|);
  }

  lemma TrimRightParen(rest: string)
    ensures var tb := TrimRight("(" + rest); tb != [] && tb[0] == '('
  {
    var b := "(" + rest;
    assert b[0] == '(' && !IsSpace(b[0]);
  }

  lemma UpperParen(base: string, args: string)
    ensures Upper(base + "(" + args) == Upper(base) + "(" + Upper(args)
  {
    UpperAppend(base, "(");
    UpperAppend(base + "(", args);
    UpperFixed("(");
  }

  lemma NotUnsignedParen(base: string, args: string)
    requires !IsUnsigned(base) && !IsUnsigned(args)
    ensures !IsUnsigned(base + "(" + args)
  {
    UpperParen(base, args);
    assert '(' !in "UNSIGNED";
    NotContainsAround(Upper(base), '(', Upper(args), "UNSIGNED");
    assert Upper(base) + ['('] + Upper(args) == Upper(base + "(" + args);
  }

  lemma CleanTypeParen(base: string, args: string)
    requires IsWord(base) && !IsUnsigned(base + "(" + args)
    ensures CleanType(base + "(" + args) == Upper(base)
  {
    var u, ua := Upper(base), Upper(args);
    var s := base + "(" + args;
    UpperParen(base, args);
    UpperWord(base);
    CleanParenSuffix(u, ua);
    var tb := TrimRight("(" + ua);
    assert TrimSpace(ReplaceAll(Upper(s), "UNSIGNED", "")) == u + tb;
    TrimRightParen(ua);
    IndexAfter(u, tb);
  }

  /** struct.go:152-156: a parenthesised suffix after a bare type name is cut off, so the
      column gets the Go type of the bare name. */
  lemma GoTypeIgnoresParenSuffix(t: TableDescriptor, base: string, args: string)
    requires IsWord(base) && !IsUnsigned(base) && !IsUnsigned(args)
    ensures CleanType(base + "(" + args) == CleanType(base) == Upper(base)
    ensures GoType(t.(Type := base + "(" + args)) == GoType(t.(Type := base))
  {
    NotUnsignedParen(base, args);
    CleanTypeParen(base, args);
    CleanTypeWord(base);
    var ts, tw := t.(Type := base + "(" + args), t.(Type := base);
    assert ts.Type == base + "(" + args && tw.Type == base && ts.Null == tw.Null;
  }

  /** The steps of `CleanType` on `u + " UNSIGNED"` for an upper-case bare name `u`. */
  lemma ReplaceUnsignedWord(u: string, rest: string)
    requires !Contains(u, "UNSIGNED") && !Contains(rest, "UNSIGNED")
    ensures ReplaceAll(u + " UNSIGNED" + rest, "UNSIGNED", "") == u + " " + rest
  {
    assert u + " UNSIGNED" + rest == u + (" " + ("UNSIGNED" + rest));
    ReplaceAfterSpace(u, "UNSIGNED", rest, "");
    assert u + (" " + ("" + rest)) == u + " " + rest;
  }

  lemma ReplaceUnsignedSuffix(u: string)
    requires !Contains(u, "UNSIGNED")
    ensures ReplaceAll(u + " UNSIGNED", "UNSIGNED", "") == u + " "
  {
    ReplaceUnsignedWord(u, "");
    assert u + " UNSIGNED" + "" == u + " UNSIGNED" && u + " " + "" == u + " ";
  }

  lemma TrimWordSpace(u: string)
    requires IsWord(u) && ' ' !in u
    ensures TrimSpace(u + " ") == u
  {
    assert TrimLeft(u + " ") == u + " ";
    assert (u + " ")[..|u|] == u;
    assert TrimRight(u + " ") == TrimRight(u);
    assert !IsSpace(u[|u| - 1]);
  }

  /** struct.go:148-150: "UNSIGNED" after a bare type name marks the column unsigned and is
      then dropped with the space before it, leaving the bare name to match. */
  lemma CleanTypeUnsignedSuffix(base: string)
    requires IsWord(base) && !IsUnsigned(base)
    ensures IsUnsigned(base + " UNSIGNED")
    ensures CleanType(base + " UNSIGNED") == CleanType(base) == Upper(base)
  {
    var u := Upper(base);
    UpperUnsignedSuffix(base);
    UnsignedSuffixOccurs(u);
    ContainsAt(u + " UNSIGNED", "UNSIGNED", |u| + 1);
    ReplaceUnsignedSuffix(u);
    UpperWord(base);
    TrimWordSpace(u);
    CleanTypeWord(base);
  }

  lemma UpperUnsignedSuffix(base: string)
    ensures Upper(base + " UNSIGNED") == Upper(base) + " UNSIGNED"
  {
    UpperAppend(base, " UNSIGNED");
    UpperFixed(" UNSIGNED");
  }

  lemma UnsignedSuffixOccurs(u: string)
    ensures OccursAt(u + " UNSIGNED", "UNSIGNED", |u| + 1)
  {
    var s := u + " UNSIGNED";
    assert s[|u| + 1..] == " UNSIGNED"[1..];
  }

  /** "UNSIGNED" after a bare type name adds the "u" of Go's unsigned integers to an integer
      type and changes nothing for any other type. */
  lemma GoTypeUnsignedSuffix(t: TableDescriptor, base: string)
    requires IsWord(base) && !IsUnsigned(base)
    ensures var signed, unsigned := GoType(t.(Type := base)), GoType(t.(Type := base + " UNSIGNED"));
      var ptr := if t.Null == "YES" then "*" else "";
      unsigned == if Upper(base) in IntegerTypes then ptr + "u" + GoType(t.(Type := base, Null := "NO"))
                  else signed
  {
    CleanTypeUnsignedSuffix(base);
    ResolveTokenUnsigned(Upper(base), t.Null == "YES");
  }

  /** "UNSIGNED" in the name is still there once arguments follow it. */
  lemma UnsignedBeforeParen(base: string, args: string)
    ensures IsUnsigned(base) ==> IsUnsigned(base + "(" + args)
  {
    UpperParen(base, args);
    if IsUnsigned(base) {
      ContainsAppend(Upper(base), "(", "UNSIGNED");
      ContainsAppend(Upper(base) + "(", Upper(args), "UNSIGNED");
    }
  }

  lemma TrimParenSpace(u: string, ua: string)
    requires IsWord(u)
    ensures TrimSpace(u + "(" + ua + " ") == u + TrimRight("(" + (ua + " "))
  {
    assert u + "(" + ua + " " == u + "(" + (ua + " ");
    TrimParenSuffix(u, ua + " ");
  }

  /** struct.go:145-156 on `name(args) UNSIGNED`: "UNSIGNED" marks the column unsigned and is
      deleted, the space left before it is trimmed, and the cut at '(' leaves the name. */
  lemma CleanTypeParenUnsigned(base: string, args: string)
    requires IsWord(base) && !IsUnsigned(base + "(" + args)
    ensures IsUnsigned(base + "(" + args + " UNSIGNED")
    ensures CleanType(base + "(" + args + " UNSIGNED") == Upper(base)
  {
    var u, ua := Upper(base), Upper(args);
    var s := base + "(" + args + " UNSIGNED";
    var w := u + "(" + ua;
    var tb := TrimRight("(" + (ua + " "));
    assert Upper(s) == w + " UNSIGNED" by {
      UpperParen(base, args);
      UpperUnsignedSuffix(base + "(" + args);
    }
    assert IsUnsigned(s) by {
      UnsignedSuffixOccurs(w);
      ContainsAt(w + " UNSIGNED", "UNSIGNED", |w| + 1);
    }
    assert ReplaceAll(Upper(s), "UNSIGNED", "") == w + " " by {
      UpperParen(base, args);
      ReplaceUnsignedSuffix(w);
    }
    assert TrimSpace(w + " ") == u + tb by {
      UpperWord(base);
      TrimParenSpace(u, ua);
    }
    assert Index(u + tb, '(') == |u| && (u + tb)[..|u|] == u by {
      UpperWord(base);
      TrimRightParen(ua + " ");
      IndexAfter(u, tb);
    }
    CleanTypeSteps(s, w + " ", u + tb, |u|);
  }

  /** `name(args) UNSIGNED`, the form MySQL prints for unsigned integer columns such as
      "int(10) unsigned", gets the Go type of `name UNSIGNED`: the arguments are dropped and
      the "u" of an unsigned integer kept. */
  lemma GoTypeUnsignedParen(t: TableDescriptor, base: string, args: string)
    requires IsWord(base) && !IsUnsigned(base + "(" + args)
    ensures var s := base + "(" + args + " UNSIGNED";
      IsUnsigned(s) && CleanType(s) == Upper(base)
        && GoType(t.(Type := s)) == GoType(t.(Type := base + " UNSIGNED"))
  {
    var s := base + "(" + args + " UNSIGNED";
    CleanTypeParenUnsigned(base, args);
    UnsignedBeforeParen(base, args);
    CleanTypeUnsignedSuffix(base);
    var tp, tu := t.(Type := s), t.(Type := base + " UNSIGNED");
    assert tp.Type == s && tu.Type == base + " UNSIGNED" && tp.Null == tu.Null;
  }

  /** Upper and lower case are matched alike. */
  lemma GoTypeCaseInsensitive(t: TableDescriptor, sqlType: string)
    requires Upper(sqlType) == Upper(t.Type)
    ensures GoType(t.(Type := sqlType)) == GoType(t)
    ensures GoType(t.(Type := Upper(t.Type))) == GoType(t)
  {
    UpperIdempotent(t.Type);
  }

  /** The cleaned token through the intermediate results of `CleanType`. */
  lemma CleanTypeSteps(sqlType: string, replaced: string, trimmed: string, p: int)
    requires ReplaceAll(Upper(sqlType), "UNSIGNED", "") == replaced
    requires TrimSpace(replaced) == trimmed && Index(trimmed, '(') == p
    ensures CleanType(sqlType) == if p > 0 then trimmed[..p] else trimmed
  {
  }
}
