/** Copying the source lines and inserting each class's template before its declaration. */
module Splicer {
  import opened Strings
  import opened AnnotationMap

  function Max(a: int, b: int): int {
    if a < b then b else a
  }

  /** The line mentions `class <key>` or `interface <key>` anywhere, decided by the larger of
      the two `indexOf` results being other than -1. */
  function Declares(line: string, key: string): (r: bool)
    ensures r <==> Contains(line, "class " + key) || Contains(line, "interface " + key)
  {
    Max(IndexOf(line, "class " + key), IndexOf(line, "interface " + key)) != -1
  }

  /** The entry scan that stops at the first key the line declares: its position, or -1. */
  function BestEntry(m: seq<Entry>, line: string): (i: int)
    decreases |m|
    ensures -1 <= i < |m|
    ensures i == -1 <==> forall j :: 0 <= j < |m| ==> !Declares(line, m[j].0)
    ensures i != -1 ==> Declares(line, m[i].0)
    ensures forall j :: 0 <= j < i ==> !Declares(line, m[j].0)
  {
    if |m| == 0 then -1
    else if Declares(line, m[0].0) then 0
    else
      var i := BestEntry(m[1..], line);
      assert forall j :: 0 < j < |m| ==> m[j] == m[1..][j - 1];
      if i == -1 then -1 else i + 1
  }

  /** A line that declares any key of the map receives a template. */
  lemma DeclaredKeyIsMatched(m: seq<Entry>, line: string, e: int)
    requires 0 <= e < |m| && Declares(line, m[e].0)
    ensures BestEntry(m, line) != -1
  {
  }

  /** Whether a template goes before this line. */
  predicate Matched(m: seq<Entry>, line: string) {
    BestEntry(m, line) != -1
  }

  /** What is inserted before a line: the chosen entry's template, or nothing. */
  function Inserted(m: seq<Entry>, line: string): (r: seq<string>)
    ensures |r| == if Matched(m, line) then 1 else 0
  {
    var i := BestEntry(m, line);
    if i == -1 then [] else [m[i].1]
  }

  /** The annotated line sequence. */
  function Splice(lines: seq<string>, m: seq<Entry>): seq<string>
    decreases |lines|
  {
    if |lines| == 0 then []
    else Inserted(m, lines[0]) + [lines[0]] + Splice(lines[1..], m)
  }

  /** The number of lines that receive a template. */
  function MatchCount(lines: seq<string>, m: seq<Entry>): nat
    decreases |lines|
  {
    if |lines| == 0 then 0
    else (if Matched(m, lines[0]) then 1 else 0) + MatchCount(lines[1..], m)
  }

  /** Splicing works line by line, so it distributes over concatenation. */
  lemma {:induction false} SpliceAppend(a: seq<string>, b: seq<string>, m: seq<Entry>)
    ensures Splice(a + b, m) == Splice(a, m) + Splice(b, m)
    decreases |a|
  {
    if |a| > 0 {
      assert (a + b)[0] == a[0];
      assert (a + b)[1..] == a[1..] + b;
      SpliceAppend(a[1..], b, m);
      assert Splice(a + b, m) == Inserted(m, a[0]) + [a[0]] + Splice(a[1..] + b, m);
    } else {
      assert a + b == b;
    }
  }

  /** The number of matched lines adds up over concatenation. */
  lemma {:induction false} MatchCountAppend(a: seq<string>, b: seq<string>, m: seq<Entry>)
    ensures MatchCount(a + b, m) == MatchCount(a, m) + MatchCount(b, m)
    decreases |a|
  {
    if |a| > 0 {
      assert (a + b)[0] == a[0];
      assert (a + b)[1..] == a[1..] + b;
      MatchCountAppend(a[1..], b, m);
    } else {
      assert a + b == b;
    }
  }

  /** The output has one more line than the input for every line that declares a key. */
  lemma {:induction false} SpliceLength(lines: seq<string>, m: seq<Entry>)
    ensures |Splice(lines, m)| == |lines| + MatchCount(lines, m)
    decreases |lines|
  {
    if |lines| > 0 {
      SpliceLength(lines[1..], m);
    }
  }

  /** One more input line adds its template, if any, and then the line itself. */
  lemma SpliceSnoc(a: seq<string>, x: string, m: seq<Entry>)
    ensures Splice(a + [x], m) == Splice(a, m) + Inserted(m, x) + [x]
    ensures MatchCount(a + [x], m) == MatchCount(a, m) + |Inserted(m, x)|
  {
    SpliceAppend(a, [x], m);
    MatchCountAppend(a, [x], m);
    assert [x][1..] == [];
    assert Splice([x], m) == Inserted(m, x) + [x];
  }

  /** Where original line `i` sits in the output: after itself, the lines before it, and
      every template inserted up to and including its own. */
  function Position(lines: seq<string>, m: seq<Entry>, i: int): int
    requires 0 <= i < |lines|
  {
    i + MatchCount(lines[..i + 1], m)
  }

  /** The output of a prefix of the input is a prefix of the output. */
  lemma SplicePrefix(lines: seq<string>, m: seq<Entry>, n: int)
    requires 0 <= n <= |lines|
    ensures |Splice(lines[..n], m)| <= |Splice(lines, m)|
    ensures Splice(lines, m)[..|Splice(lines[..n], m)|] == Splice(lines[..n], m)
  {
    assert lines == lines[..n] + lines[n..];
    SpliceAppend(lines[..n], lines[n..], m);
  }

  /** Each input line moves one place further than the previous one, plus one more when
      it receives a template. */
  lemma PositionStep(lines: seq<string>, m: seq<Entry>, i: int)
    requires 0 <= i < |lines|
    ensures Position(lines, m, i)
            == (if i == 0 then 0 else Position(lines, m, i - 1) + 1)
               + (if Matched(m, lines[i]) then 1 else 0)
  {
    TakeOneMore(lines, i);
    SpliceSnoc(lines[..i], lines[i], m);
    if i == 0 {
      assert lines[..0] == [];
    }
  }

  /** The output of the first `i + 1` lines ends with line `i` and, before it, its template. */
  lemma SplicePrefixEnds(lines: seq<string>, m: seq<Entry>, i: int)
    requires 0 <= i < |lines|
    ensures |Splice(lines[..i + 1], m)| == Position(lines, m, i) + 1
    ensures Splice(lines[..i + 1], m)[Position(lines, m, i)] == lines[i]
    ensures Matched(m, lines[i]) ==>
              Splice(lines[..i + 1], m)[Position(lines, m, i) - 1] == m[BestEntry(m, lines[i])].1
  {
    TakeOneMore(lines, i);
    SpliceSnoc(lines[..i], lines[i], m);
    SpliceLength(lines[..i], m);
  }

  /** Every input line is in the output at its position; a template sits immediately
      before a line that declares a key, and a line that declares none directly follows
      the previous input line (or opens the output). */
  lemma SplicePlacesLines(lines: seq<string>, m: seq<Entry>, i: int)
    requires 0 <= i < |lines|
    ensures Position(lines, m, i) < |Splice(lines, m)|
    ensures Splice(lines, m)[Position(lines, m, i)] == lines[i]
    ensures Position(lines, m, i)
            == (if i == 0 then 0 else Position(lines, m, i - 1) + 1)
               + (if Matched(m, lines[i]) then 1 else 0)
    ensures Matched(m, lines[i]) ==>
              Splice(lines, m)[Position(lines, m, i) - 1] == m[BestEntry(m, lines[i])].1
  {
    PositionStep(lines, m, i);
    SplicePrefixEnds(lines, m, i);
    SplicePrefix(lines, m, i + 1);
  }

  /** Every output line is an input line or the template of some entry. */
  lemma {:induction false} SpliceElements(lines: seq<string>, m: seq<Entry>, j: int)
    requires 0 <= j < |Splice(lines, m)|
    ensures Splice(lines, m)[j] in lines
            || exists k :: 0 <= k < |m| && Splice(lines, m)[j] == m[k].1
    decreases |lines|
  {
    var ins := Inserted(m, lines[0]);
    var rest := Splice(lines[1..], m);
    assert Splice(lines, m) == ins + [lines[0]] + rest;
    if j < |ins| {
      assert Splice(lines, m)[j] == m[BestEntry(m, lines[0])].1;
    } else if j > |ins| {
      SpliceElements(lines[1..], m, j - |ins| - 1);
      assert Splice(lines, m)[j] == rest[j - |ins| - 1];
      assert forall x :: x in lines[1..] ==> x in lines;
    }
  }

  /** Input lines keep their relative order in the output. */
  lemma {:induction false} PositionsIncrease(lines: seq<string>, m: seq<Entry>, i: int, j: int)
    requires 0 <= i < j < |lines|
    ensures Position(lines, m, i) < Position(lines, m, j)
    decreases j - i
  {
    SplicePlacesLines(lines, m, j);
    if i < j - 1 {
      PositionsIncrease(lines, m, i, j - 1);
    }
  }

  /** A file in which no line declares a key is copied unchanged. */
  lemma {:induction false} SpliceWithoutDeclarations(lines: seq<string>, m: seq<Entry>)
    requires forall i :: 0 <= i < |lines| ==> !Matched(m, lines[i])
    ensures Splice(lines, m) == lines
    decreases |lines|
  {
    if |lines| > 0 {
      assert forall i :: 0 <= i < |lines[1..]| ==> lines[1..][i] == lines[i + 1];
      SpliceWithoutDeclarations(lines[1..], m);
    }
  }

  lemma TakeOneMore<T>(s: seq<T>, n: int)
    requires 0 <= n < |s|
    ensures s[..n + 1] == s[..n] + [s[n]]
  {
  }

  /** One more pass of the read loop: the line's template, if any, then the line. */
  lemma SpliceStep(source: seq<string>, m: seq<Entry>, n: int)
    requires 0 <= n < |source|
    ensures Splice(source[..n + 1], m)
            == Splice(source[..n], m)
               + (if BestEntry(m, source[n]) == -1 then [] else [m[BestEntry(m, source[n])].1])
               + [source[n]]
  {
    TakeOneMore(source, n);
    SpliceSnoc(source[..n], source[n], m);
  }

  /** The read loop: append each line, then, if it declares a key, insert that key's
      template just before it. */
  method SpliceLines(source: seq<string>, m: seq<Entry>) returns (lines: seq<string>)
    ensures lines == Splice(source, m)
    ensures |lines| == |source| + MatchCount(source, m)
  {
    lines := [];
    var n := 0;
    while n < |source|
      invariant 0 <= n <= |source|
      invariant lines == Splice(source[..n], m)
    {
      var line := source[n];
      ghost var before := lines;
      lines := lines + [line];
      var best := BestEntry(m, line);
      if best != -1 {
        assert lines[..|lines| - 1] == before && lines[|lines| - 1..] == [line];
        lines := lines[..|lines| - 1] + [m[best].1] + lines[|lines| - 1..];
      }
      SpliceStep(source, m, n);
      n := n + 1;
    }
    assert source[..n] == source;
    SpliceLength(source, m);
  }
}
