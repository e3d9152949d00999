/** Type strings whose Go type surprises: getType deletes "UNSIGNED" but keeps what follows
    it, and cuts at '(' only after trimming. */
module ColumnTypeQuirks {
  import opened GoStrings
  import opened Db
  import opened ColumnType

  /** A token holding a space matches no case of the switch. */
  lemma SpacedTokenUnknown(clean: string, unsigned: bool, nullable: bool)
    requires ' ' in clean
    ensures ResolveToken(clean, unsigned, nullable) == "interface{}"
  {
    assert clean !in TextTypes;
    assert clean !in IntegerTypes;
    assert clean !in FloatTypes;
    assert clean !in TimeTypes;
    assert clean !in BinaryTypes;
    assert clean !in BoolTypes;
  }

  /** A string with no space at either end and no parenthesis passes the last two steps
      unchanged. */
  lemma TrimmedNoParen(c: string)
    requires c != [] && !IsSpace(c[0]) && !IsSpace(c[|c| - 1]) && '(' !in c
    ensures var s := TrimSpace(c); s == c && Index(s, '(') == -1
  {
  }

  lemma UpperUnsignedInfix(base: string, word: string)
    ensures Upper(base + " UNSIGNED " + word) == Upper(base) + " UNSIGNED" + (" " + Upper(word))
  {
    InfixSplit(base, word);
    UpperAppend(base + " UNSIGNED", " " + word);
    UpperUnsignedSuffix(base);
    UpperSpaceWord(word);
  }

  lemma InfixSplit(base: string, word: string)
    ensures base + " UNSIGNED " + word == (base + " UNSIGNED") + (" " + word)
  {
    assert " UNSIGNED " == " UNSIGNED" + " ";
  }

  lemma UpperSpaceWord(word: string)
    ensures Upper(" " + word) == " " + Upper(word)
  {
    UpperAppend(" ", word);
    UpperFixed(" ");
  }

  lemma InfixRegroup(u: string, w: string)
    ensures u + " UNSIGNED" + (" " + w) == (u + " ") + "UNSIGNED" + (" " + w)
    ensures u + " " + (" " + w) == u + "  " + w
  {
    assert " UNSIGNED" == " " + "UNSIGNED";
    assert "  " == " " + " ";
  }

  lemma InfixContainsUnsigned(u: string, w: string)
    ensures Contains(u + " UNSIGNED" + (" " + w), "UNSIGNED")
  {
    InfixRegroup(u, w);
    OccursAtMiddle(u + " ", "UNSIGNED", " " + w);
    ContainsAt(u + " UNSIGNED" + (" " + w), "UNSIGNED", |u| + 1);
  }

  lemma ReplaceInfix(u: string, w: string)
    requires !Contains(u, "UNSIGNED") && !Contains(w, "UNSIGNED")
    ensures ReplaceAll(u + " UNSIGNED" + (" " + w), "UNSIGNED", "") == u + "  " + w
  {
    NotContainsAround([], ' ', w, "UNSIGNED");
    assert [] + [' '] + w == " " + w;
    ReplaceUnsignedWord(u, " " + w);
    InfixRegroup(u, w);
  }

  lemma TrimmedInfix(u: string, w: string)
    requires IsWord(u) && IsWord(w) && '(' !in u && '(' !in w
    ensures var c := u + "  " + w; TrimSpace(c) == c && Index(c, '(') == -1
  {
    var c := u + "  " + w;
    assert c[0] == u[0] && c[|c| - 1] == w[|w| - 1];
    TrimmedNoParen(c);
  }

  lemma CleanInfix(s: string, u: string, w: string)
    requires Upper(s) == u + " UNSIGNED" + (" " + w)
    requires IsWord(u) && IsWord(w) && '(' !in u && '(' !in w
    requires !Contains(u, "UNSIGNED") && !Contains(w, "UNSIGNED")
    ensures IsUnsigned(s) && CleanType(s) == u + "  " + w
  {
    InfixContainsUnsigned(u, w);
    ReplaceInfix(u, w);
    TrimmedInfix(u, w);
    CleanTypeSteps(s, u + "  " + w, u + "  " + w, -1);
  }

  lemma CleanWordAfterUnsigned(base: string, word: string)
    requires IsWord(base) && IsWord(word) && !IsUnsigned(base) && !IsUnsigned(word)
    ensures IsUnsigned(base + " UNSIGNED " + word)
    ensures CleanType(base + " UNSIGNED " + word) == Upper(base) + "  " + Upper(word)
  {
    UpperUnsignedInfix(base, word);
    UpperWord(base);
    UpperWord(word);
    CleanInfix(base + " UNSIGNED " + word, Upper(base), Upper(word));
  }

  /** struct.go:149: every "UNSIGNED" is deleted, but a word after it (such as "ZEROFILL")
      stays in the token, which then matches no case: "INT UNSIGNED ZEROFILL" maps to
      interface{}. */
  lemma QuirkWordAfterUnsigned(t: TableDescriptor, base: string, word: string)
    requires IsWord(base) && IsWord(word) && !IsUnsigned(base) && !IsUnsigned(word)
    ensures IsUnsigned(base + " UNSIGNED " + word)
    ensures CleanType(base + " UNSIGNED " + word) == Upper(base) + "  " + Upper(word)
    ensures GoType(t.(Type := base + " UNSIGNED " + word)) == "interface{}"
  {
    CleanWordAfterUnsigned(base, word);
    var c := Upper(base) + "  " + Upper(word);
    assert c[|Upper(base)|] == ' ';
    SpacedTokenUnknown(c, true, t.Null == "YES");
  }

  /** An upper-case bare name followed by a space is cleaned back to the name. */
  lemma CleanTypeTrailingSpace(u: string)
    requires IsWord(u) && Upper(u) == u && !Contains(u, "UNSIGNED")
    ensures CleanType(u + " ") == u
  {
    UpperAppend(u, " ");
    UpperFixed(" ");
    NotContainsAround(u, ' ', [], "UNSIGNED");
    assert u + [' '] + [] == u + " ";
    ReplaceAllAbsent(u + " ", "UNSIGNED", "");
    UpperWord(u);
    TrimWordSpace(u);
    assert u + " " == u + " ";
  }

  lemma UpperSpaceParen(base: string, args: string)
    ensures Upper(base + " (" + args) == (Upper(base) + " ") + ("(" + Upper(args))
  {
    assert base + " (" + args == (base + " ") + ("(" + args);
    UpperAppend(base + " ", "(" + args);
    UpperAppend(base, " ");
    UpperFixed(" ");
    UpperAppend("(", args);
    UpperFixed("(");
  }

  lemma NotUnsignedSpaceParen(base: string, args: string)
    requires !IsUnsigned(base) && !IsUnsigned(args)
    ensures !IsUnsigned(base + " (" + args)
  {
    var u, ua := Upper(base), Upper(args);
    UpperSpaceParen(base, args);
    NotContainsAround([], '(', ua, "UNSIGNED");
    assert [] + ['('] + ua == "(" + ua;
    NotContainsAround(u, ' ', "(" + ua, "UNSIGNED");
    assert u + [' '] + ("(" + ua) == (u + " ") + ("(" + ua);
  }

  lemma TrimSpaceParen(u: string, ua: string)
    requires IsWord(u) && ' ' !in u
    ensures TrimSpace((u + " ") + ("(" + ua)) == (u + " ") + TrimRight("(" + ua)
  {
    var b := "(" + ua;
    assert ((u + " ") + b)[0] == u[0];
    assert TrimLeft((u + " ") + b) == (u + " ") + b;
    TrimRightAppend(u + " ", b);
  }

  lemma CleanTypeSpaceParen(base: string, args: string)
    requires IsWord(base) && !IsUnsigned(base + " (" + args)
    ensures CleanType(base + " (" + args) == Upper(base) + " "
  {
    var u, ua := Upper(base), Upper(args);
    var s := base + " (" + args;
    var up := (u + " ") + ("(" + ua);
    var tb := TrimRight("(" + ua);
    var v := u + " ";
    assert ReplaceAll(Upper(s), "UNSIGNED", "") == up by {
      UpperSpaceParen(base, args);
      ReplaceAllAbsent(Upper(s), "UNSIGNED", "");
    }
    assert TrimSpace(up) == v + tb by {
      UpperWord(base);
      TrimSpaceParen(u, ua);
    }
    assert Index(v + tb, '(') == |v| && (v + tb)[..|v|] == v by {
      UpperWord(base);
      TrimRightParen(ua);
      IndexAfter(v, tb);
    }
    CleanTypeSteps(s, up, v + tb, |v|);
  }

  /** struct.go:151-156: the cut at '(' happens after trimming, so a space before the
      parenthesis stays in the token: "INT (10)" maps to interface{} while "INT(10)" maps
      to int32. Cleaning is therefore not idempotent: the cleaned "INT " cleans to "INT". */
  lemma QuirkSpaceBeforeParen(t: TableDescriptor, base: string, args: string)
    requires IsWord(base) && !IsUnsigned(base) && !IsUnsigned(args)
    ensures CleanType(base + " (" + args) == Upper(base) + " "
    ensures GoType(t.(Type := base + " (" + args)) == "interface{}"
    ensures CleanType(CleanType(base + " (" + args)) == Upper(base) != CleanType(base + " (" + args)
  {
    var u := Upper(base);
    NotUnsignedSpaceParen(base, args);
    CleanTypeSpaceParen(base, args);
    UpperWord(base);
    UpperIdempotent(base);
    CleanTypeTrailingSpace(u);
    assert (u + " ")[|u|] == ' ';
    var ts := t.(Type := base + " (" + args);
    assert ts.Type == base + " (" + args;
    SpacedTokenUnknown(u + " ", false, t.Null == "YES");
  }
}
