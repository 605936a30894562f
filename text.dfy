/** Line splitting, order-preserving de-duplication and reversal, as the
    importer uses them: Kotlin's `lines()`, `split("\n")`, `distinct()` and
    `reversed()`. */
module Text {

  predicate IsPrefix(p: string, s: string) {
    |p| <= |s| && s[..|p|] == p
  }

  predicate IsLineBreak(c: char) {
    c == '\n' || c == '\r'
  }

  predicate NoLineBreak(line: string) {
    forall j :: 0 <= j < |line| ==> !IsLineBreak(line[j])
  }

  predicate NoNewline(line: string) {
    forall j :: 0 <= j < |line| ==> line[j] != '\n'
  }

  /** Kotlin's `CharSequence.lines()`: the text cut at every "\r\n", "\n"
      and "\r"; a text ending in a terminator ends in an empty line. */
  function Lines(s: string): (r: seq<string>)
    ensures |r| >= 1
    ensures forall i :: 0 <= i < |r| ==> NoLineBreak(r[i])
  {
    LinesFrom(s, "")
  }

  /** The text with every "\r\n" and every lone "\r" turned into "\n". */
  function NormalizeBreaks(s: string): (t: string)
    ensures forall j :: 0 <= j < |t| ==> t[j] != '\r'
    ensures |t| <= |s|
    decreases |s|
  {
    if s == [] then []
    else if s[0] == '\r' && |s| > 1 && s[1] == '\n' then "\n" + NormalizeBreaks(s[2..])
    else if s[0] == '\r' then "\n" + NormalizeBreaks(s[1..])
    else [s[0]] + NormalizeBreaks(s[1..])
  }

  /** The lines of `s`, the first of them continuing the partial line `cur`. */
  function LinesFrom(s: string, cur: string): (r: seq<string>)
    requires NoLineBreak(cur)
    ensures |r| >= 1
    ensures forall i :: 0 <= i < |r| ==> NoLineBreak(r[i])
    decreases |s|
  {
    if s == [] then [cur]
    else if s[0] == '\r' && |s| > 1 && s[1] == '\n' then [cur] + LinesFrom(s[2..], "")
    else if IsLineBreak(s[0]) then [cur] + LinesFrom(s[1..], "")
    else LinesFrom(s[1..], cur + [s[0]])
  }

  /** Kotlin's `split("\n")`: the text cut at every "\n" only. */
  function SplitNewline(s: string): (r: seq<string>)
    ensures |r| >= 1
    ensures forall i :: 0 <= i < |r| ==> NoNewline(r[i])
  {
    SplitFrom(s, "")
  }

  function SplitFrom(s: string, cur: string): (r: seq<string>)
    requires NoNewline(cur)
    ensures |r| >= 1
    ensures forall i :: 0 <= i < |r| ==> NoNewline(r[i])
    decreases |s|
  {
    if s == [] then [cur]
    else if s[0] == '\n' then [cur] + SplitFrom(s[1..], "")
    else SplitFrom(s[1..], cur + [s[0]])
  }

  lemma {:induction false} LinesFromNormalized(s: string, cur: string)
    requires NoLineBreak(cur)
    ensures NoNewline(cur)
    ensures LinesFrom(s, cur) == SplitFrom(NormalizeBreaks(s), cur)
    decreases |s|
  {
    if s == [] {
    } else if IsLineBreak(s[0]) {
      var rest := if s[0] == '\r' && |s| > 1 && s[1] == '\n' then s[2..] else s[1..];
      LinesFromNormalized(rest, "");
      assert NormalizeBreaks(s) == "\n" + NormalizeBreaks(rest);
      assert ("\n" + NormalizeBreaks(rest))[1..] == NormalizeBreaks(rest);
    } else {
      LinesFromNormalized(s[1..], cur + [s[0]]);
      assert ([s[0]] + NormalizeBreaks(s[1..]))[1..] == NormalizeBreaks(s[1..]);
    }
  }

  /** The pieces put back together with "\n" between them. */
  function JoinLines(xs: seq<string>): string {
    if |xs| == 0 then ""
    else if |xs| == 1 then xs[0]
    else xs[0] + "\n" + JoinLines(xs[1..])
  }

  lemma {:induction false} SplitFromJoin(s: string, cur: string)
    requires NoNewline(cur)
    ensures JoinLines(SplitFrom(s, cur)) == cur + s
    decreases |s|
  {
    if s == [] {
    } else if s[0] == '\n' {
      SplitFromJoin(s[1..], "");
      var rest := SplitFrom(s[1..], "");
      assert SplitFrom(s, cur) == [cur] + rest;
      assert ([cur] + rest)[1..] == rest;
      assert s == "\n" + s[1..];
    } else {
      SplitFromJoin(s[1..], cur + [s[0]]);
      assert cur + [s[0]] + s[1..] == cur + s;
    }
  }

  /** Splitting at "\n" loses nothing: joining the pieces gives the text back. */
  lemma SplitJoin(s: string)
    ensures JoinLines(SplitNewline(s)) == s
  {
    SplitFromJoin(s, "");
  }

  lemma {:induction false} SplitFromAppend(x: string, t: string, cur: string)
    requires NoNewline(cur) && NoNewline(x)
    ensures NoNewline(cur + x)
    ensures SplitFrom(x + t, cur) == SplitFrom(t, cur + x)
    decreases |x|
  {
    if x == [] {
      assert x + t == t;
      assert cur + x == cur;
    } else {
      assert (x + t)[0] == x[0];
      assert (x + t)[1..] == x[1..] + t;
      SplitFromAppend(x[1..], t, cur + [x[0]]);
      assert cur + [x[0]] + x[1..] == cur + x;
    }
  }

  lemma {:induction false} JoinSplitFrom(xs: seq<string>)
    requires |xs| >= 1
    requires forall i :: 0 <= i < |xs| ==> NoNewline(xs[i])
    ensures SplitFrom(JoinLines(xs), "") == xs
    decreases |xs|
  {
    if |xs| == 1 {
      SplitFromAppend(xs[0], "", "");
      assert xs[0] + "" == xs[0];
      assert "" + xs[0] == xs[0];
    } else {
      var rest := JoinLines(xs[1..]);
      assert JoinLines(xs) == xs[0] + ("\n" + rest);
      SplitFromAppend(xs[0], "\n" + rest, "");
      assert "" + xs[0] == xs[0];
      assert ("\n" + rest)[0] == '\n';
      assert ("\n" + rest)[1..] == rest;
      JoinSplitFrom(xs[1..]);
      assert xs == [xs[0]] + xs[1..];
    }
  }

  /** The converse round trip: pieces free of "\n", joined and split again. */
  lemma JoinSplit(xs: seq<string>)
    requires |xs| >= 1
    requires forall i :: 0 <= i < |xs| ==> NoNewline(xs[i])
    ensures SplitNewline(JoinLines(xs)) == xs
  {
    JoinSplitFrom(xs);
  }

  lemma {:induction false} NormalizeWithoutCR(s: string)
    requires forall j :: 0 <= j < |s| ==> s[j] != '\r'
    ensures NormalizeBreaks(s) == s
    decreases |s|
  {
    if s != [] {
      NormalizeWithoutCR(s[1..]);
      assert s == [s[0]] + s[1..];
    }
  }

  /** The lines of a text are its "\n"-pieces once every "\r\n" and every
      lone "\r" has become "\n". */
  lemma LinesIsSplitOfNormalized(s: string)
    ensures Lines(s) == SplitNewline(NormalizeBreaks(s))
  {
    LinesFromNormalized(s, "");
  }

  /** Without a carriage return, `lines()` and `split("\n")` agree. */
  lemma LinesIsSplitWithoutCR(s: string)
    requires forall j :: 0 <= j < |s| ==> s[j] != '\r'
    ensures Lines(s) == SplitNewline(s)
  {
    LinesIsSplitOfNormalized(s);
    NormalizeWithoutCR(s);
  }

  lemma LinesOfCRLF()
    ensures Lines("a\r\nb") == ["a", "b"]
  {
    assert "a\r\nb"[1..] == "\r\nb" && "" + ['a'] == "a" && "" + ['b'] == "b";
    assert "\r\nb"[2..] == "b" && "b"[1..] == "";
    assert LinesFrom("b", "") == LinesFrom("", "b") == ["b"];
    assert LinesFrom("\r\nb", "a") == ["a"] + LinesFrom("b", "");
  }

  lemma SplitOfCRLF()
    ensures SplitNewline("a\r\nb") == ["a\r", "b"]
  {
    assert "a\r\nb"[1..] == "\r\nb" && "" + ['a'] == "a" && "" + ['b'] == "b";
    assert "\r\nb"[1..] == "\nb" && "a" + ['\r'] == "a\r";
    assert "\nb"[1..] == "b" && "b"[1..] == "";
    assert SplitFrom("b", "") == SplitFrom("", "b") == ["b"];
    assert SplitFrom("\nb", "a\r") == ["a\r"] + SplitFrom("b", "");
  }

  /** With one, they differ: "a\r\nb" is two lines but one "\n"-piece
      ending in '\r' followed by "b". */
  lemma LinesAndSplitDiffer()
    ensures Lines("a\r\nb") == ["a", "b"]
    ensures SplitNewline("a\r\nb") == ["a\r", "b"]
  {
    LinesOfCRLF();
    SplitOfCRLF();
  }

  predicate NoDuplicates<T(==)>(s: seq<T>) {
    forall i, j :: 0 <= i < j < |s| ==> s[i] != s[j]
  }

  /** Kotlin's `distinct()`: every element once, at its first occurrence. */
  function Distinct<T(==)>(s: seq<T>): (r: seq<T>)
    ensures |r| <= |s|
  {
    if s == [] then []
    else
      var d := Distinct(s[..|s| - 1]);
      var x := s[|s| - 1];
      if x in d then d else d + [x]
  }

  /** `distinct()` keeps exactly the elements of its input, each once. */
  lemma {:induction false} DistinctElements<T>(s: seq<T>)
    ensures NoDuplicates(Distinct(s))
    ensures forall i :: 0 <= i < |s| ==> s[i] in Distinct(s)
    ensures forall i :: 0 <= i < |Distinct(s)| ==> Distinct(s)[i] in s
  {
    if s != [] {
      var p := s[..|s| - 1];
      var x := s[|s| - 1];
      DistinctElements(p);
      forall i | 0 <= i < |s| ensures s[i] in Distinct(s) {
        if i < |p| {
          assert s[i] == p[i];
        }
      }
      forall i | 0 <= i < |Distinct(s)| ensures Distinct(s)[i] in s {
        if i < |Distinct(p)| {
          assert Distinct(s)[i] == Distinct(p)[i];
          var j :| 0 <= j < |p| && p[j] == Distinct(p)[i];
          assert s[j] == p[j];
        }
      }
    }
  }

  /** The position of the first occurrence of `x` in `s`. */
  function FirstIndex<T(==)>(s: seq<T>, x: T): (k: nat)
    requires x in s
    ensures k < |s| && s[k] == x
    ensures forall j :: 0 <= j < k ==> s[j] != x
  {
    if s[0] == x then 0 else 1 + FirstIndex(s[1..], x)
  }

  lemma FirstIndexPrefix<T>(s: seq<T>, x: T)
    requires |s| > 0 && x in s[..|s| - 1]
    ensures FirstIndex(s, x) == FirstIndex(s[..|s| - 1], x)
  {
    var k := FirstIndex(s[..|s| - 1], x);
    var k' := FirstIndex(s, x);
    assert s[k] == x;
    assert k' <= k;
    assert s[..|s| - 1][k'] == x;
  }

  /** `distinct()` keeps the order of first occurrences. */
  lemma {:induction false} DistinctKeepsFirstOccurrenceOrder<T>(s: seq<T>)
    ensures forall i :: 0 <= i < |Distinct(s)| ==> Distinct(s)[i] in s
    ensures forall i, j :: 0 <= i < j < |Distinct(s)| ==>
      FirstIndex(s, Distinct(s)[i]) < FirstIndex(s, Distinct(s)[j])
  {
    DistinctElements(s);
    if s != [] {
      var p := s[..|s| - 1];
      var x := s[|s| - 1];
      var d := Distinct(p);
      DistinctKeepsFirstOccurrenceOrder(p);
      DistinctElements(p);
      forall y | y in d
        ensures FirstIndex(s, y) == FirstIndex(p, y) < |p|
      {
        FirstIndexPrefix(s, y);
      }
      if x !in d {
        assert x !in p;
        assert FirstIndex(s, x) == |p|;
        assert Distinct(s) == d + [x];
      }
    }
  }

  /** Reversing keeps the elements. */
  lemma ReversedMembers<T>(s: seq<T>)
    ensures forall x :: x in Reversed(s) <==> x in s
  {
    var r := Reversed(s);
    forall x ensures x in r <==> x in s {
      if x in r {
        var k :| 0 <= k < |r| && r[k] == x;
        assert s[|s| - 1 - k] == x;
      }
      if x in s {
        var k :| 0 <= k < |s| && s[k] == x;
        assert r[|s| - 1 - k] == x;
      }
    }
  }

  /** Reversing keeps a sequence free of duplicates. */
  lemma ReversedNoDuplicates<T>(s: seq<T>)
    requires NoDuplicates(s)
    ensures NoDuplicates(Reversed(s))
  {
    var r := Reversed(s);
    forall i, j | 0 <= i < j < |r| ensures r[i] != r[j] {
      assert r[i] == s[|s| - 1 - i] && r[j] == s[|s| - 1 - j];
    }
  }

  /** Reversing a sequence ordered by first occurrence in `s` orders it the
      other way. */
  lemma ReversedOrder<T>(d: seq<T>, s: seq<T>)
    requires forall i :: 0 <= i < |d| ==> d[i] in s
    requires forall i, j :: 0 <= i < j < |d| ==> FirstIndex(s, d[i]) < FirstIndex(s, d[j])
    ensures forall i, j :: 0 <= i < j < |Reversed(d)| ==>
      FirstIndex(s, Reversed(d)[j]) < FirstIndex(s, Reversed(d)[i])
  {
    var r := Reversed(d);
    var n := |d|;
    forall i, j | 0 <= i < j < |r| ensures FirstIndex(s, r[j]) < FirstIndex(s, r[i]) {
      assert r[i] == d[n - 1 - i] && r[j] == d[n - 1 - j];
    }
  }

  /** `distinct()` then `reversed()`: every element of the input exactly
      once, the one whose first occurrence is later coming earlier. */
  lemma {:induction false} ReversedDistinctOrder<T>(s: seq<T>)
    ensures var r := Reversed(Distinct(s));
      && NoDuplicates(r)
      && (forall x :: x in r <==> x in s)
      && (forall i, j :: 0 <= i < j < |r| ==> FirstIndex(s, r[j]) < FirstIndex(s, r[i]))
  {
    DistinctElements(s);
    DistinctKeepsFirstOccurrenceOrder(s);
    ReversedMembers(Distinct(s));
    ReversedNoDuplicates(Distinct(s));
    ReversedOrder(Distinct(s), s);
  }

  /** The prefix of full length is the sequence itself. */
  lemma TakeAll<T>(s: seq<T>)
    ensures s[..|s|] == s
  {
  }

  /** The sequence back to front. */
  function Reversed<T>(s: seq<T>): (r: seq<T>)
    ensures |r| == |s|
    ensures forall i :: 0 <= i < |s| ==> r[i] == s[|s| - 1 - i]
  {
    if s == [] then [] else [s[|s| - 1]] + Reversed(s[..|s| - 1])
  }

  lemma ReversedAppend<T>(a: seq<T>, b: seq<T>)
    ensures Reversed(a + b) == Reversed(b) + Reversed(a)
  {
    assert forall i :: 0 <= i < |a + b| ==> Reversed(a + b)[i] == (Reversed(b) + Reversed(a))[i];
  }
}
