/** Concrete column types and the Go types getType gives them. */
module ColumnTypeExamples {
  import opened GoStrings
  import opened Db
  import opened ColumnType
  import ColumnTypeQuirks

  /** An upper-case word shorter than "UNSIGNED" is its own upper-case form and not unsigned. */
  lemma ShortUpperWord(w: string)
    requires IsWord(w) && |w| < 8 && forall i :: 0 <= i < |w| ==> !IsLower(w[i])
    ensures Upper(w) == w && !IsUnsigned(w)
  {
    UpperFixed(w);
  }

  /** An upper-case word of at most eight letters that does not start with 'U' is its own
      upper-case form and not unsigned. */
  lemma UpperWordNotU(w: string)
    requires IsWord(w) && |w| <= 8 && w[0] != 'U' && forall i :: 0 <= i < |w| ==> !IsLower(w[i])
    ensures Upper(w) == w && !IsUnsigned(w)
  {
    UpperFixed(w);
    assert !OccursAt(w, "UNSIGNED", 0);
  }

  lemma CleanVarchar()
    ensures CleanType("VARCHAR(255)") == "VARCHAR" && !IsUnsigned("VARCHAR(255)")
  {
    ShortUpperWord("VARCHAR");
    assert "VARCHAR" + "(" + "255)" == "VARCHAR(255)";
    NotUnsignedParen("VARCHAR", "255)");
    CleanTypeParen("VARCHAR", "255)");
  }

  lemma CleanBigintUnsigned()
    ensures CleanType("BIGINT UNSIGNED") == "BIGINT" && IsUnsigned("BIGINT UNSIGNED")
  {
    ShortUpperWord("BIGINT");
    BigintUnsignedText();
    CleanTypeUnsignedSuffix("BIGINT");
  }

  lemma BigintUnsignedText()
    ensures "BIGINT" + " UNSIGNED" == "BIGINT UNSIGNED"
  {
  }

  lemma CleanDatetime()
    ensures CleanType("DATETIME") == "DATETIME" && !IsUnsigned("DATETIME")
  {
    UpperWordNotU("DATETIME");
    CleanTypeWord("DATETIME");
  }

  lemma CleanBool()
    ensures CleanType("BOOL") == "BOOL" && !IsUnsigned("BOOL")
  {
    UpperFixed("BOOL");
    CleanTypeWord("BOOL");
  }

  lemma CleanShortWord(w: string)
    requires IsWord(w) && |w| < 8 && forall i :: 0 <= i < |w| ==> !IsLower(w[i])
    ensures CleanType(w) == w && !IsUnsigned(w)
  {
    ShortUpperWord(w);
    CleanTypeWord(w);
  }

  lemma CleanGeometry()
    ensures CleanType("GEOMETRY") == "GEOMETRY" && !IsUnsigned("GEOMETRY")
  {
    UpperWordNotU("GEOMETRY");
    CleanTypeWord("GEOMETRY");
  }

  /** The switch on the tokens of the examples below. */
  lemma ResolveStringExamples()
    ensures ResolveToken("VARCHAR", false, false) == "string"
    ensures ResolveToken("VARCHAR", false, true) == "*string"
  {
  }

  lemma ResolveNumericExamples()
    ensures ResolveToken("BIGINT", true, false) == "uint64"
    ensures ResolveToken("BOOL", false, false) == "bool"
  {
  }

  lemma ResolveTimeExample()
    ensures ResolveToken("DATETIME", false, false) == "time.Time"
  {
  }

  lemma ResolvePointerlessExamples()
    ensures ResolveToken("BLOB", false, true) == "[]byte"
    ensures ResolveToken("GEOMETRY", false, true) == "interface{}"
  {
  }

  /** The type strings of struct.go:139-142: "VARCHAR(255)" maps to string. */
  lemma ExampleVarchar(t: TableDescriptor)
    ensures GoType(t.(Type := "VARCHAR(255)", Null := "NO")) == "string"
  {
    CleanVarchar();
    ResolveStringExamples();
  }

  /** A nullable "VARCHAR(255)" column maps to *string. */
  lemma ExampleNullableVarchar(t: TableDescriptor)
    ensures GoType(t.(Type := "VARCHAR(255)", Null := "YES")) == "*string"
  {
    CleanVarchar();
    ResolveStringExamples();
  }

  /** "BIGINT UNSIGNED" maps to uint64. */
  lemma ExampleBigintUnsigned(t: TableDescriptor)
    ensures GoType(t.(Type := "BIGINT UNSIGNED", Null := "NO")) == "uint64"
  {
    CleanBigintUnsigned();
    ResolveNumericExamples();
  }

  /** "DATETIME" maps to time.Time. */
  lemma ExampleDatetime(t: TableDescriptor)
    ensures GoType(t.(Type := "DATETIME", Null := "NO")) == "time.Time"
  {
    CleanDatetime();
    ResolveTimeExample();
  }

  /** "BOOL" maps to bool. */
  lemma ExampleBool(t: TableDescriptor)
    ensures GoType(t.(Type := "BOOL", Null := "NO")) == "bool"
  {
    CleanBool();
    ResolveNumericExamples();
  }

  /** A nullable binary column gets no pointer. */
  lemma QuirkNullableBlob(t: TableDescriptor)
    ensures GoType(t.(Type := "BLOB", Null := "YES")) == "[]byte"
  {
    CleanShortWord("BLOB");
    ResolvePointerlessExamples();
  }

  /** A nullable column of an unknown type gets no pointer either. */
  lemma QuirkNullableUnknown(t: TableDescriptor)
    ensures GoType(t.(Type := "GEOMETRY", Null := "YES")) == "interface{}"
  {
    CleanGeometry();
    ResolvePointerlessExamples();
  }

  lemma ZerofillText()
    ensures "INT" + " UNSIGNED " + "ZEROFILL" == "INT UNSIGNED ZEROFILL"
  {
  }

  /** "INT UNSIGNED ZEROFILL" maps to interface{}. */
  lemma QuirkZerofill(t: TableDescriptor)
    ensures GoType(t.(Type := "INT UNSIGNED ZEROFILL")) == "interface{}"
  {
    ShortUpperWord("INT");
    UpperWordNotU("ZEROFILL");
    ZerofillText();
    ColumnTypeQuirks.QuirkWordAfterUnsigned(t, "INT", "ZEROFILL");
  }

  /** "INT (10)" maps to interface{}. */
  lemma QuirkIntSpaceParen(t: TableDescriptor)
    ensures GoType(t.(Type := "INT (10)")) == "interface{}"
  {
    ShortUpperWord("INT");
    assert "INT" + " (" + "10)" == "INT (10)";
    ColumnTypeQuirks.QuirkSpaceBeforeParen(t, "INT", "10)");
  }

  /** "INT(10)" maps to int32. */
  lemma ExampleIntParen(t: TableDescriptor)
    ensures GoType(t.(Type := "INT(10)", Null := "NO")) == "int32"
  {
    ShortUpperWord("INT");
    assert "INT" + "(" + "10)" == "INT(10)";
    GoTypeIgnoresParenSuffix(t.(Null := "NO"), "INT", "10)");
    CleanShortWord("INT");
    ResolveIntExample();
  }

  lemma ResolveIntExample()
    ensures ResolveToken("INT", false, false) == "int32"
  {
  }

  /** "INT(10) UNSIGNED", the form MySQL describes an unsigned INT column in, maps to uint32;
      in lower case it maps alike (GoTypeCaseInsensitive). */
  lemma ExampleIntParenUnsigned(t: TableDescriptor)
    ensures GoType(t.(Type := "INT(10) UNSIGNED", Null := "NO")) == "uint32"
  {
    CleanIntParenUnsigned();
    ResolveUnsignedIntExample();
  }

  lemma CleanIntParenUnsigned()
    ensures CleanType("INT(10) UNSIGNED") == "INT" && IsUnsigned("INT(10) UNSIGNED")
  {
    IntParenNotUnsigned();
    IntParenUnsignedText();
    ShortUpperWord("INT");
    CleanTypeParenUnsigned("INT", "10)");
  }

  lemma IntParenNotUnsigned()
    ensures !IsUnsigned("INT" + "(" + "10)")
  {
    assert "INT" + "(" + "10)" == "INT(10)";
    UpperFixed("INT(10)");
  }

  lemma IntParenUnsignedText()
    ensures "INT" + "(" + "10)" + " UNSIGNED" == "INT(10) UNSIGNED"
  {
  }

  lemma ResolveUnsignedIntExample()
    ensures ResolveToken("INT", true, false) == "uint32"
  {
  }
}
