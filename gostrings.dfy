/**
 * The parts of Go's `strings` and `fmt` packages that db2go relies on, restricted to
 * ASCII text: one `char` stands for one byte of an ASCII string, so Go's `len`, byte
 * indexing and rune counting all coincide with `|s|` and `s[i]`.
 */
module GoStrings {

  predicate IsLower(c: char) { 'a' <= c <= 'z' }

  predicate IsLetter(c: char) { 'a' <= c <= 'z' || 'A' <= c <= 'Z' }

  /** `unicode.ToUpper` on an ASCII character: only 'a'..'z' change. */
  function ToUpper(c: char): (u: char)
    ensures !IsLower(u)
    ensures IsLower(c) ==> u as int == c as int - 32
    ensures u != c ==> IsLower(c) && IsLetter(u)
    ensures IsLetter(c) <==> IsLetter(u)
  {
    if IsLower(c) then (c as int - 32) as char else c
  }

  /** `strings.ToUpper` on an ASCII string. */
  function Upper(s: string): (r: string)
    ensures |r| == |s|
    ensures forall i :: 0 <= i < |s| ==> r[i] == ToUpper(s[i])
  {
    if s == [] then [] else [ToUpper(s[0])] + Upper(s[1..])
  }

  /** Upper-casing leaves a string without lower-case letters as it is. */
  lemma UpperFixed(s: string)
    requires forall i :: 0 <= i < |s| ==> !IsLower(s[i])
    ensures Upper(s) == s
  {
  }

  lemma UpperIdempotent(s: string)
    ensures Upper(Upper(s)) == Upper(s)
  {
    UpperFixed(Upper(s));
  }

  lemma UpperAppend(a: string, b: string)
    ensures Upper(a + b) == Upper(a) + Upper(b)
  {
    assert forall i :: 0 <= i < |a + b| ==> Upper(a + b)[i] == (Upper(a) + Upper(b))[i];
  }

  /** The number of occurrences of `c` in `s`. */
  function Count(s: string, c: char): (n: nat)
    ensures n == 0 <==> c !in s
    ensures n <= |s|
  {
    if s == [] then 0 else (if s[0] == c then 1 else 0) + Count(s[1..], c)
  }

  /** `strings.Split(s, string(sep))`: the pieces of `s` between the occurrences of `sep`.
      There is always at least one piece; "" splits into [""]. */
  function Split(s: string, sep: char): (ws: seq<string>)
    ensures |ws| == Count(s, sep) + 1
    ensures forall k :: 0 <= k < |ws| ==> sep !in ws[k]
  {
    if s == [] then [[]]
    else
      var rest := Split(s[1..], sep);
      if s[0] == sep then [[]] + rest
      else [[s[0]] + rest[0]] + rest[1..]
  }

  /** `strings.Join(ws, sep)`. */
  function Join(ws: seq<string>, sep: string): string
  {
    if ws == [] then []
    else if |ws| == 1 then ws[0]
    else ws[0] + sep + Join(ws[1..], sep)
  }

  function TotalLength(ws: seq<string>): nat
  {
    if ws == [] then 0 else |ws[0]| + TotalLength(ws[1..])
  }

  lemma {:induction false} JoinCons(w: string, ws: seq<string>)
    ensures Join([w] + ws, "") == w + Join(ws, "")
  {
    assert ([w] + ws)[1..] == ws;
  }

  /** Joining the pieces of a split with the separator gives back the string. */
  lemma {:induction false} JoinSplit(s: string, sep: char)
    ensures Join(Split(s, sep), [sep]) == s
  {
    if s != [] {
      var rest := Split(s[1..], sep);
      JoinSplit(s[1..], sep);
      if s[0] == sep {
        assert ([[]] + rest)[1..] == rest;
      } else {
        var ws := [[s[0]] + rest[0]] + rest[1..];
        assert ws[1..] == rest[1..];
        if |rest| > 1 {
          assert Join(rest, [sep]) == rest[0] + [sep] + Join(rest[1..], [sep]);
        }
        assert s == [s[0]] + s[1..];
      }
    }
  }

  lemma {:induction false} SplitPrepend(w: string, t: string, sep: char)
    requires sep !in w
    ensures Split(w + t, sep) == [w + Split(t, sep)[0]] + Split(t, sep)[1..]
  {
    if w != [] {
      var ts := Split(t, sep);
      calc {
        Split(w + t, sep);
        { assert (w + t)[0] == w[0] && (w + t)[1..] == w[1..] + t; }
        [[w[0]] + Split(w[1..] + t, sep)[0]] + Split(w[1..] + t, sep)[1..];
        { SplitPrepend(w[1..], t, sep); }
        [[w[0]] + (w[1..] + ts[0])] + ts[1..];
        { assert w == [w[0]] + w[1..];
          assert [w[0]] + (w[1..] + ts[0]) == ([w[0]] + w[1..]) + ts[0]; }
        [w + ts[0]] + ts[1..];
      }
    } else {
      var ws := Split(t, sep);
      assert w + t == t && w + ws[0] == ws[0];
      assert ws == [ws[0]] + ws[1..];
    }
  }

  /** Splitting a join of separator-free pieces gives back the pieces. */
  lemma {:induction false} SplitJoin(ws: seq<string>, sep: char)
    requires |ws| >= 1
    requires forall k :: 0 <= k < |ws| ==> sep !in ws[k]
    ensures Split(Join(ws, [sep]), sep) == ws
  {
    if |ws| == 1 {
      SplitPrepend(ws[0], [], sep);
      assert ws[0] + [] == ws[0];
    } else {
      var t := [sep] + Join(ws[1..], [sep]);
      SplitJoin(ws[1..], sep);
      assert t[1..] == Join(ws[1..], [sep]);
      assert Split(t, sep) == [[]] + ws[1..];
      SplitPrepend(ws[0], t, sep);
      assert ws[0] + t == Join(ws, [sep]);
      assert ws[0] + [] == ws[0];
      assert ws == [ws[0]] + ws[1..];
    }
  }

  lemma {:induction false} JoinExcludes(ws: seq<string>, sep: string, c: char)
    requires c !in sep
    requires forall k :: 0 <= k < |ws| ==> c !in ws[k]
    ensures c !in Join(ws, sep)
  {
    if |ws| > 1 {
      JoinExcludes(ws[1..], sep, c);
    }
  }

  /** Every character of a piece is in the join. */
  lemma {:induction false} JoinIncludes(ws: seq<string>, sep: string, k: nat, c: char)
    requires k < |ws| && c in ws[k]
    ensures c in Join(ws, sep)
  {
    if k > 0 {
      JoinIncludes(ws[1..], sep, k - 1, c);
    }
  }

  /** Appending a last piece appends the separator and the piece. */
  lemma {:induction false} JoinSnoc(ws: seq<string>, x: string, sep: string)
    requires |ws| >= 1
    ensures Join(ws + [x], sep) == Join(ws, sep) + sep + x
  {
    if |ws| > 1 {
      assert (ws + [x])[1..] == ws[1..] + [x];
      JoinSnoc(ws[1..], x, sep);
    } else {
      assert ws + [x] == [ws[0], x];
      assert [ws[0], x][1..] == [x];
    }
  }

  /** With no separator, joining is plain concatenation, also from the empty sequence. */
  lemma JoinSnocConcat(ws: seq<string>, x: string)
    ensures Join(ws + [x], "") == Join(ws, "") + x
  {
    if ws == [] {
      assert ws + [x] == [x];
    } else {
      JoinSnoc(ws, x, "");
    }
  }

  /** The lines `ls`, each followed by a line break. */
  function Lined(ls: seq<string>): string
  {
    if ls == [] then "" else Lined(ls[..|ls| - 1]) + ls[|ls| - 1] + "\n"
  }

  lemma LinedSnoc(ls: seq<string>, x: string)
    ensures Lined(ls + [x]) == Lined(ls) + x + "\n"
  {
    assert (ls + [x])[..|ls|] == ls;
  }

  /** Joining a first line and `ls` with line breaks, and ending with one more, is the first
      line followed by its break and then each of `ls` with its break. */
  lemma {:induction false} JoinLined(h: string, ls: seq<string>)
    ensures Join([h] + ls, "\n") + "\n" == h + "\n" + Lined(ls)
  {
    if ls == [] {
      assert [h] + ls == [h];
    } else {
      var front, x := ls[..|ls| - 1], ls[|ls| - 1];
      JoinLined(h, front);
      assert ls == front + [x];
      assert [h] + ls == ([h] + front) + [x];
      JoinSnoc([h] + front, x, "\n");
    }
  }

  lemma {:induction false} JoinConcatLength(ws: seq<string>)
    ensures |Join(ws, "")| == TotalLength(ws)
  {
    if ws != [] {
      JoinConcatLength(ws[1..]);
      JoinCons(ws[0], ws[1..]);
      assert [ws[0]] + ws[1..] == ws;
    }
  }

  lemma {:induction false} JoinLength(ws: seq<string>, sep: string)
    requires |ws| >= 1
    ensures |Join(ws, sep)| == TotalLength(ws) + |sep| * (|ws| - 1)
  {
    if |ws| > 1 {
      JoinLength(ws[1..], sep);
    } else {
      assert ws[1..] == [];
    }
  }

  /** `pat` occurs in `s` starting at position `i`. */
  predicate OccursAt(s: string, pat: string, i: nat)
  {
    i + |pat| <= |s| && s[i..i + |pat|] == pat
  }

  /** `strings.Contains(s, pat)`. */
  predicate Contains(s: string, pat: string)
  {
    exists i: nat :: i <= |s| && OccursAt(s, pat, i)
  }

  lemma ContainsAt(s: string, pat: string, i: nat)
    requires OccursAt(s, pat, i)
    ensures Contains(s, pat)
  {
  }

  /** An occurrence stays one when text is appended. */
  lemma ContainsAppend(a: string, b: string, pat: string)
    requires Contains(a, pat)
    ensures Contains(a + b, pat)
  {
    var i: nat :| i <= |a| && OccursAt(a, pat, i);
    assert (a + b)[i..i + |pat|] == a[i..i + |pat|];
    ContainsAt(a + b, pat, i);
  }

  lemma OccursAtMiddle(a: string, pat: string, b: string)
    ensures OccursAt(a + pat + b, pat, |a|)
  {
    assert (a + pat + b)[|a|..|a| + |pat|] == pat;
  }

  /** An occurrence in `a + [c] + b` must lie in `a` or in `b` when `c` is not in the pattern. */
  lemma NotContainsAround(a: string, c: char, b: string, pat: string)
    requires c !in pat && !Contains(a, pat) && !Contains(b, pat)
    ensures !Contains(a + [c] + b, pat)
  {
    var s := a + [c] + b;
    forall i: nat | i <= |s| ensures !OccursAt(s, pat, i) {
      if i + |pat| > |s| {
      } else if i + |pat| <= |a| {
        assert s[i..i + |pat|] == a[i..i + |pat|];
        assert !OccursAt(a, pat, i);
      } else if i > |a| {
        assert s[i..i + |pat|] == b[i - |a| - 1..i - |a| - 1 + |pat|];
        assert !OccursAt(b, pat, i - |a| - 1);
      } else {
        assert s[i..i + |pat|][|a| - i] == c;
      }
    }
  }

  /** No occurrence of `pat` starts inside `a` when `a` holds none and `b` starts with a
      character `pat` does not have. */
  lemma NoOccurrenceAcross(a: string, b: string, pat: string)
    requires b != [] && b[0] !in pat && !Contains(a, pat)
    ensures forall i: nat :: i < |a| ==> !OccursAt(a + b, pat, i)
  {
    var s := a + b;
    forall i: nat | i < |a| ensures !OccursAt(s, pat, i) {
      if i + |pat| > |s| {
      } else if i + |pat| <= |a| {
        assert s[i..i + |pat|] == a[i..i + |pat|];
        assert !OccursAt(a, pat, i);
      } else {
        assert s[i..i + |pat|][|a| - i] == b[0];
      }
    }
  }

  /** `strings.ReplaceAll(s, pat, rep)` for a non-empty pattern: the leftmost occurrence is
      replaced first and the scan resumes after it, so occurrences never overlap. */
  function ReplaceAll(s: string, pat: string, rep: string): string
    requires |pat| > 0
    decreases |s|
  {
    if |s| < |pat| then s
    else if s[..|pat|] == pat then rep + ReplaceAll(s[|pat|..], pat, rep)
    else [s[0]] + ReplaceAll(s[1..], pat, rep)
  }

  /** Without an occurrence of the pattern nothing is replaced. */
  lemma {:induction false} ReplaceAllAbsent(s: string, pat: string, rep: string)
    requires |pat| > 0 && !Contains(s, pat)
    ensures ReplaceAll(s, pat, rep) == s
    decreases |s|
  {
    if |s| >= |pat| {
      if s[..|pat|] == pat {
        assert s[0..|pat|] == s[..|pat|];
        ContainsAt(s, pat, 0);
      } else {
        ContainsTail(s, pat);
        ReplaceAllAbsent(s[1..], pat, rep);
        assert [s[0]] + s[1..] == s;
      }
    }
  }

  lemma OccursAtTail(s: string, pat: string, i: nat)
    requires |s| > 0
    ensures OccursAt(s[1..], pat, i) <==> OccursAt(s, pat, i + 1)
  {
    if i + |pat| <= |s| - 1 {
      assert s[1..][i..i + |pat|] == s[i + 1..i + 1 + |pat|];
    }
  }

  lemma ContainsTail(s: string, pat: string)
    requires |s| > 0
    ensures Contains(s[1..], pat) ==> Contains(s, pat)
  {
    if Contains(s[1..], pat) {
      var i: nat :| i <= |s[1..]| && OccursAt(s[1..], pat, i);
      OccursAtTail(s, pat, i);
      ContainsAt(s, pat, i + 1);
    }
  }

  lemma ReplaceAllStep(s: string, pat: string, rep: string)
    requires |pat| > 0 && |s| > 0 && !OccursAt(s, pat, 0)
    ensures ReplaceAll(s, pat, rep) == [s[0]] + ReplaceAll(s[1..], pat, rep)
  {
    if |s| >= |pat| {
      assert s[..|pat|] == s[0..|pat|];
    }
  }

  /** A string that starts with the pattern and has no later occurrence of it. */
  lemma ReplaceAllLead(pat: string, rest: string, rep: string)
    requires |pat| > 0 && !Contains(rest, pat)
    ensures ReplaceAll(pat + rest, pat, rep) == rep + rest
  {
    var s := pat + rest;
    assert s[..|pat|] == pat;
    assert s[|pat|..] == rest;
    ReplaceAllAbsent(rest, pat, rep);
  }

  /** The only occurrence of the pattern is the one right after a space. */
  lemma ReplaceAfterSpace(a: string, pat: string, rest: string, rep: string)
    requires |pat| > 0 && ' ' !in pat && !Contains(a, pat) && !Contains(rest, pat)
    ensures ReplaceAll(a + (" " + (pat + rest)), pat, rep) == a + (" " + (rep + rest))
  {
    ReplaceAllPrefix(a, " " + (pat + rest), pat, rep);
    ReplaceAllSpace(pat + rest, pat, rep);
    ReplaceAllLead(pat, rest, rep);
  }

  /** Nothing in `a` is replaced when `a` has no occurrence and `b` starts with a character
      the pattern lacks. */
  lemma ReplaceAllPrefix(a: string, b: string, pat: string, rep: string)
    requires |pat| > 0 && b != [] && b[0] !in pat && !Contains(a, pat)
    ensures ReplaceAll(a + b, pat, rep) == a + ReplaceAll(b, pat, rep)
  {
    NoOccurrenceAcross(a, b, pat);
    ReplaceAllAfter(a, b, pat, rep);
  }

  lemma ReplaceAllSpace(w: string, pat: string, rep: string)
    requires |pat| > 0 && ' ' !in pat
    ensures ReplaceAll(" " + w, pat, rep) == " " + ReplaceAll(w, pat, rep)
  {
    var s := " " + w;
    assert !OccursAt(s, pat, 0) by {
      assert s[0] == ' ';
    }
    ReplaceAllStep(s, pat, rep);
    assert s[1..] == w;
  }

  lemma ReplaceAllHead(a: string, b: string, pat: string, rep: string)
    requires |pat| > 0 && a != [] && !OccursAt(a + b, pat, 0)
    ensures ReplaceAll(a + b, pat, rep) == [a[0]] + ReplaceAll(a[1..] + b, pat, rep)
  {
    ReplaceAllStep(a + b, pat, rep);
    assert (a + b)[1..] == a[1..] + b;
  }

  lemma ConsAppend(a: string, r: string)
    requires a != []
    ensures [a[0]] + (a[1..] + r) == a + r
  {
    assert a == [a[0]] + a[1..];
  }

  lemma NoOccurrenceShift(a: string, b: string, pat: string)
    requires a != []
    requires forall i: nat :: i < |a| ==> !OccursAt(a + b, pat, i)
    ensures forall i: nat :: i < |a[1..]| ==> !OccursAt(a[1..] + b, pat, i)
  {
    var s := a + b;
    assert s[1..] == a[1..] + b;
    forall i: nat | i < |a[1..]|
      ensures !OccursAt(a[1..] + b, pat, i)
    {
      assert !OccursAt(s, pat, i + 1);
      OccursAtTail(s, pat, i);
    }
  }

  /** When no occurrence of `pat` starts inside `a` (even one running on into `b`),
      replacing in `a + b` leaves `a` alone. */
  lemma {:induction false} ReplaceAllAfter(a: string, b: string, pat: string, rep: string)
    requires |pat| > 0
    requires forall i: nat :: i < |a| ==> !OccursAt(a + b, pat, i)
    ensures ReplaceAll(a + b, pat, rep) == a + ReplaceAll(b, pat, rep)
    decreases |a|
  {
    if a != [] {
      assert !OccursAt(a + b, pat, 0);
      ReplaceAllHead(a, b, pat, rep);
      NoOccurrenceShift(a, b, pat);
      ReplaceAllAfter(a[1..], b, pat, rep);
      ConsAppend(a, ReplaceAll(b, pat, rep));
    } else {
      assert a + b == b;
    }
  }

  /** The ASCII white space that `strings.TrimSpace` removes: '\t', '\n', '\v', '\f', '\r', ' '. */
  predicate IsSpace(c: char) { c == ' ' || '\t' <= c <= '\r' }

  function TrimLeft(s: string): (r: string)
    ensures |r| <= |s| && r == s[|s| - |r|..]
    ensures r == [] || !IsSpace(r[0])
    ensures forall k :: 0 <= k < |s| - |r| ==> IsSpace(s[k])
  {
    if s != [] && IsSpace(s[0]) then TrimLeft(s[1..]) else s
  }

  function TrimRight(s: string): (r: string)
    ensures |r| <= |s| && r == s[..|r|]
    ensures r == [] || !IsSpace(r[|r| - 1])
    ensures forall k :: |r| <= k < |s| ==> IsSpace(s[k])
  {
    if s != [] && IsSpace(s[|s| - 1]) then TrimRight(s[..|s| - 1]) else s
  }

  /** `strings.TrimSpace` on an ASCII string. */
  function TrimSpace(s: string): string
  {
    TrimRight(TrimLeft(s))
  }

  lemma {:induction false} TrimRightAppend(a: string, b: string)
    requires b != [] && !IsSpace(b[0])
    ensures TrimRight(a + b) == a + TrimRight(b)
    decreases |b|
  {
    var s := a + b;
    if IsSpace(s[|s| - 1]) {
      assert s[..|s| - 1] == a + b[..|b| - 1];
      TrimRightAppend(a, b[..|b| - 1]);
    }
  }

  /** `strings.Index(s, string(c))`: the first position of `c`, or -1. */
  function Index(s: string, c: char): (r: int)
    ensures -1 <= r < |s|
    ensures r == -1 <==> c !in s
    ensures r >= 0 ==> s[r] == c && c !in s[..r]
  {
    if s == [] then -1
    else if s[0] == c then 0
    else
      var k := Index(s[1..], c);
      if k == -1 then -1
      else
        assert s[..k + 1] == [s[0]] + s[1..][..k];
        k + 1
  }
  /** The position `Index` reports is the only one with `c` and no earlier `c`. */
  lemma {:induction false} IndexFirst(s: string, c: char, k: nat)
    requires k < |s| && s[k] == c && c !in s[..k]
    ensures Index(s, c) == k
  {
    if k > 0 {
      assert s[0] == s[..k][0];
      assert s[1..][k - 1] == c;
      assert s[1..][..k - 1] == s[..k][1..];
      IndexFirst(s[1..], c, k - 1);
    }
  }


  function Spaces(n: nat): (r: string)
    ensures |r| == n && forall k :: 0 <= k < n ==> r[k] == ' '
  {
    if n == 0 then [] else " " + Spaces(n - 1)
  }

  /** `fmt.Sprintf("%-*s", width, s)`: `s` left-aligned and padded on the right with spaces
      to `width`; a longer `s` is not cut. */
  function PadRight(s: string, width: nat): (r: string)
    ensures |r| == if |s| < width then width else |s|
    ensures r[..|s|] == s
    ensures forall k :: |s| <= k < |r| ==> r[k] == ' '
  {
    if |s| < width then s + Spaces(width - |s|) else s
  }
}
