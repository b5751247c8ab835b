/** From the loaded classes and the source lines to the annotated lines. */
module Driver {
  import opened Strings
  import opened Metadata
  import opened Render
  import opened AnnotationMap
  import opened Planner
  import opened Splicer

  /** The part of a qualified name after its last dot. */
  function SimpleName(q: string): (r: string)
    ensures '.' !in r
    ensures '.' !in q ==> r == q
    ensures '.' in q ==> exists pkg :: q == pkg + "." + r
  {
    var i := LastIndexOf(q, '.');
    assert i != -1 ==> q == q[..i] + "." + q[i + 1..];
    q[i + 1..]
  }

  /** Qualifying a dot-free name by any package and taking the simple name gives it back. */
  lemma SimpleNameOfQualified(pkg: string, s: string)
    requires '.' !in s
    ensures SimpleName(pkg + "." + s) == s
  {
    var q := pkg + "." + s;
    var r := SimpleName(q);
    assert q[|pkg|] == '.';
    assert q[|pkg| + 1..] == s;
  }

  /** The loop that re-keys every entry by its simple name; `put` overwrites on a clash. */
  function RebuildFrom(acc: seq<Entry>, m: seq<Entry>): (r: seq<Entry>)
    requires UniqueKeys(acc)
    decreases |m|
    ensures UniqueKeys(r)
  {
    if |m| == 0 then acc
    else RebuildFrom(Put(acc, SimpleName(m[0].0), m[0].1), m[1..])
  }

  /** The map keyed by simple names, built into a fresh map. */
  function RebuildSimpleNames(m: seq<Entry>): (r: seq<Entry>)
    ensures UniqueKeys(r)
  {
    RebuildFrom([], m)
  }

  /** The value of the last entry whose key has simple name `s`. */
  function LastWithSimpleName(m: seq<Entry>, s: string): Option<string>
    decreases |m|
  {
    if |m| == 0 then None
    else
      var r := LastWithSimpleName(m[1..], s);
      if r.Some? then r
      else if SimpleName(m[0].0) == s then Some(m[0].1)
      else None
  }

  /** There is no last entry with simple name `s` exactly when no entry has it. */
  lemma {:induction false} LastWithSimpleNameNone(m: seq<Entry>, s: string)
    ensures LastWithSimpleName(m, s).None? <==> forall i :: 0 <= i < |m| ==> SimpleName(m[i].0) != s
    decreases |m|
  {
    if |m| > 0 {
      LastWithSimpleNameNone(m[1..], s);
      assert forall i :: 0 < i < |m| ==> m[i] == m[1..][i - 1];
    }
  }

  /** The last entry with simple name `s` is one that no later entry shares. */
  lemma {:induction false} LastWithSimpleNameSome(m: seq<Entry>, s: string)
    requires LastWithSimpleName(m, s).Some?
    ensures exists i :: 0 <= i < |m| && SimpleName(m[i].0) == s
              && m[i].1 == LastWithSimpleName(m, s).value
              && forall j :: i < j < |m| ==> SimpleName(m[j].0) != s
    decreases |m|
  {
    var t := m[1..];
    var r := LastWithSimpleName(t, s);
    if r.Some? {
      LastWithSimpleNameSome(t, s);
      var i :| 0 <= i < |t| && SimpleName(t[i].0) == s && t[i].1 == r.value
               && forall j :: i < j < |t| ==> SimpleName(t[j].0) != s;
      assert m[i + 1] == t[i];
      forall j | i + 1 < j < |m| ensures SimpleName(m[j].0) != s {
        assert m[j] == t[j - 1];
      }
    } else {
      LastWithSimpleNameNone(t, s);
      forall j | 0 < j < |m| ensures SimpleName(m[j].0) != s {
        assert m[j] == t[j - 1];
      }
    }
  }

  lemma {:induction false} RebuildFromLastWriteWins(acc: seq<Entry>, m: seq<Entry>, s: string)
    requires UniqueKeys(acc)
    ensures Lookup(RebuildFrom(acc, m), s)
            == if LastWithSimpleName(m, s).Some? then LastWithSimpleName(m, s) else Lookup(acc, s)
    decreases |m|
  {
    if |m| > 0 {
      RebuildFromLastWriteWins(Put(acc, SimpleName(m[0].0), m[0].1), m[1..], s);
    }
  }

  /** Under each simple name the rebuilt map holds the value of the last entry with that
      simple name, and nothing under a name no entry has. */
  lemma RebuildLastWriteWins(m: seq<Entry>, s: string)
    ensures Lookup(RebuildSimpleNames(m), s) == LastWithSimpleName(m, s)
  {
    RebuildFromLastWriteWins([], m, s);
  }

  /** The rebuilt keys are exactly the simple names of the original keys. */
  lemma RebuildKeys(m: seq<Entry>)
    ensures Keys(RebuildSimpleNames(m)) == set i | 0 <= i < |m| :: SimpleName(m[i].0)
  {
    var r := RebuildSimpleNames(m);
    forall s | s in Keys(r) ensures s in set i | 0 <= i < |m| :: SimpleName(m[i].0) {
      RebuildLastWriteWins(m, s);
      LastWithSimpleNameSome(m, s);
    }
    forall i | 0 <= i < |m| ensures SimpleName(m[i].0) in Keys(r) {
      RebuildLastWriteWins(m, SimpleName(m[i].0));
      LastWithSimpleNameNone(m, SimpleName(m[i].0));
    }
  }

  /** Every rebuilt entry carries a value of some original entry. */
  lemma RebuildValues(m: seq<Entry>, k: int)
    requires 0 <= k < |RebuildSimpleNames(m)|
    ensures exists i :: 0 <= i < |m| && RebuildSimpleNames(m)[k].1 == m[i].1
  {
    var r := RebuildSimpleNames(m);
    LookupEntry(r, k);
    RebuildLastWriteWins(m, r[k].0);
    LastWithSimpleNameSome(m, r[k].0);
  }

  lemma {:induction false} RebuildFromDotFree(acc: seq<Entry>, m: seq<Entry>)
    requires UniqueKeys(acc + m)
    requires forall i :: 0 <= i < |m| ==> '.' !in m[i].0
    ensures UniqueKeys(acc)
    ensures RebuildFrom(acc, m) == acc + m
    decreases |m|
  {
    assert forall i :: 0 <= i < |acc| ==> (acc + m)[i] == acc[i];
    if |m| > 0 {
      assert m[0].0 !in Keys(acc) by {
        assert (acc + m)[|acc|] == m[0];
        forall i | 0 <= i < |acc| ensures acc[i].0 != m[0].0 {
          assert (acc + m)[i] == acc[i];
        }
      }
      var acc' := acc + [m[0]];
      assert acc' + m[1..] == acc + m;
      assert forall i :: 0 <= i < |m[1..]| ==> m[1..][i] == m[i + 1];
      RebuildFromDotFree(acc', m[1..]);
    }
  }

  /** For keys without a package qualifier the rebuild changes nothing. */
  lemma RebuildDotFree(m: seq<Entry>)
    requires UniqueKeys(m)
    requires forall i :: 0 <= i < |m| ==> '.' !in m[i].0
    ensures RebuildSimpleNames(m) == m
  {
    assert [] + m == m;
    RebuildFromDotFree([], m);
  }

  /** `order` lists every entry of `m` once: the order in which the `HashMap` happens to
      iterate them, which Java leaves unspecified. */
  ghost predicate IterationOrder(order: seq<Entry>, m: seq<Entry>) {
    UniqueKeys(order) && multiset(order) == multiset(m)
  }

  /** The annotated file, splicing in the map's entries in the order the map iterates
      them: one more line for every source line that declares a key. */
  function AnnotateFile(classes: seq<ReflectedType>, order: seq<Entry>, lines: seq<string>)
    : (r: seq<string>)
    requires IterationOrder(order, Plan(classes))
    ensures |r| == |lines| + MatchCount(lines, order)
  {
    SpliceLength(lines, order);
    Splice(lines, order)
  }

  /** Classes are loaded by the base name of their class file, so their names carry no
      package; for such names the simple-name map is the map itself. */
  lemma RebuiltPlanIsPlan(classes: seq<ReflectedType>)
    requires forall j :: 0 <= j < |classes| ==> '.' !in classes[j].name
    ensures RebuildSimpleNames(Plan(classes)) == Plan(classes)
  {
    var m := Plan(classes);
    PlanFirstWriteWins(classes);
    forall i | 0 <= i < |m| ensures '.' !in m[i].0 {
      assert m[i].0 in Keys(m);
    }
    RebuildDotFree(m);
  }

  /** A text holding a character that `s` lacks does not occur in `s`. */
  lemma AbsentCharRulesOut(s: string, sub: string, c: char)
    requires c in sub && c !in s
    ensures !Contains(s, sub)
  {
    var p :| 0 <= p < |sub| && sub[p] == c;
    forall i | 0 <= i
      ensures !OccursAt(s, sub, i)
    {
      if i + |sub| <= |s| {
        assert s[i..i + |sub|][p] == s[i + p];
      }
    }
  }

  /** Every entry, in whatever order the map iterates, is a loaded class's name paired
      with that class's template. */
  lemma OrderedEntryIsTemplate(classes: seq<ReflectedType>, order: seq<Entry>, k: int)
    requires IterationOrder(order, Plan(classes)) && 0 <= k < |order|
    ensures exists c :: c in classes && order[k] == (c.name, ClassTemplate(c))
  {
    var m := Plan(classes);
    assert order[k] in multiset(m);
    var b :| 0 <= b < |m| && m[b] == order[k];
    PlanEntries(classes);
    var w :| 0 <= w < |classes| && m[b] == (classes[w].name, ClassTemplate(classes[w]));
    assert classes[w] in classes;
  }

  /** Every loaded class's name is a key in every iteration order. */
  lemma OrderHasClassKey(classes: seq<ReflectedType>, order: seq<Entry>, c: ReflectedType)
    requires IterationOrder(order, Plan(classes)) && c in classes
    ensures exists e :: 0 <= e < |order| && order[e].0 == c.name
  {
    var m := Plan(classes);
    PlanFirstWriteWins(classes);
    var j :| 0 <= j < |classes| && classes[j] == c;
    assert c.name in Names(classes);
    var b :| 0 <= b < |m| && m[b].0 == c.name;
    assert m[b] in multiset(order);
    var e :| 0 <= e < |order| && order[e] == m[b];
  }

  /** The splice looks for `class <key>` with the qualified name as key: a key with a dot
      never occurs in a line without one, so such keys never match such lines. */
  lemma QualifiedNamesNeverMatch(classes: seq<ReflectedType>, order: seq<Entry>,
                                 lines: seq<string>)
    requires IterationOrder(order, Plan(classes))
    requires forall j :: 0 <= j < |classes| ==> '.' in classes[j].name
    requires forall i :: 0 <= i < |lines| ==> '.' !in lines[i]
    ensures AnnotateFile(classes, order, lines) == lines
  {
    forall i | 0 <= i < |lines| ensures !Matched(order, lines[i]) {
      forall k | 0 <= k < |order| ensures !Declares(lines[i], order[k].0) {
        OrderedEntryIsTemplate(classes, order, k);
        var c :| c in classes && order[k] == (c.name, ClassTemplate(c));
        assert '.' in "class " + c.name && '.' in "interface " + c.name;
        AbsentCharRulesOut(lines[i], "class " + c.name, '.');
        AbsentCharRulesOut(lines[i], "interface " + c.name, '.');
      }
    }
    SpliceWithoutDeclarations(lines, order);
  }

  /** Every line of the annotated file is a source line or the template of a loaded class. */
  lemma AnnotatedLinesComeFromSourceOrTemplates(classes: seq<ReflectedType>, order: seq<Entry>,
                                                lines: seq<string>, j: int)
    requires IterationOrder(order, Plan(classes))
    requires 0 <= j < |AnnotateFile(classes, order, lines)|
    ensures AnnotateFile(classes, order, lines)[j] in lines
            || exists c :: c in classes && AnnotateFile(classes, order, lines)[j] == ClassTemplate(c)
  {
    SpliceElements(lines, order, j);
    if Splice(lines, order)[j] !in lines {
      var k :| 0 <= k < |order| && Splice(lines, order)[j] == order[k].1;
      OrderedEntryIsTemplate(classes, order, k);
    }
  }

  /** A line that declares a loaded class is matched, whatever the iteration order, and the
      line immediately before it in the output is the template of a loaded class. */
  lemma DeclaredClassesGetTemplates(classes: seq<ReflectedType>, order: seq<Entry>,
                                    lines: seq<string>, i: int, c: ReflectedType)
    requires IterationOrder(order, Plan(classes))
    requires 0 <= i < |lines| && c in classes
    requires Declares(lines[i], c.name)
    ensures Matched(order, lines[i])
    ensures 1 <= Position(lines, order, i) < |AnnotateFile(classes, order, lines)|
    ensures exists c' :: c' in classes &&
              AnnotateFile(classes, order, lines)[Position(lines, order, i) - 1] == ClassTemplate(c')
  {
    OrderHasClassKey(classes, order, c);
    var e :| 0 <= e < |order| && order[e].0 == c.name;
    DeclaredKeyIsMatched(order, lines[i], e);
    SplicePlacesLines(lines, order, i);
    OrderedEntryIsTemplate(classes, order, BestEntry(order, lines[i]));
  }

  /** The plan's value under a name is the template of the first class with that name. */
  lemma PlanValueIsFirstTemplate(classes: seq<ReflectedType>, q: int, f: int)
    requires 0 <= q < |Plan(classes)| && FirstOfName(classes, f)
    requires Plan(classes)[q].0 == classes[f].name
    ensures Plan(classes)[q].1 == ClassTemplate(classes[f])
  {
    LookupEntry(Plan(classes), q);
    PlanFirstWriteWins(classes);
  }

  /** Every key of an iteration order is the name of a loaded class. */
  lemma OrderedKeyIsName(classes: seq<ReflectedType>, order: seq<Entry>, k: int)
    requires IterationOrder(order, Plan(classes)) && 0 <= k < |order|
    ensures exists j :: 0 <= j < |classes| && classes[j].name == order[k].0
  {
    var m := Plan(classes);
    assert order[k] in multiset(m);
    var q :| 0 <= q < |m| && m[q] == order[k];
    PlanFirstWriteWins(classes);
    assert m[q].0 in Keys(m);
  }

  /** When a line declares one loaded class name and no other, the scan over any iteration
      order picks the entry holding the first template generated under that name. */
  lemma OnlyDeclaredNameIsChosen(classes: seq<ReflectedType>, order: seq<Entry>,
                                 line: string, f: int)
    requires IterationOrder(order, Plan(classes)) && FirstOfName(classes, f)
    requires Declares(line, classes[f].name)
    requires forall j :: 0 <= j < |classes| && Declares(line, classes[j].name) ==>
               classes[j].name == classes[f].name
    ensures Matched(order, line)
    ensures order[BestEntry(order, line)].1 == ClassTemplate(classes[f])
  {
    var m := Plan(classes);
    assert classes[f] in classes;
    OrderHasClassKey(classes, order, classes[f]);
    var e :| 0 <= e < |order| && order[e].0 == classes[f].name;
    DeclaredKeyIsMatched(order, line, e);
    var b := BestEntry(order, line);
    OrderedKeyIsName(classes, order, b);
    assert order[b].0 == classes[f].name;
    assert order[b] in multiset(m);
    var q :| 0 <= q < |m| && m[q] == order[b];
    PlanValueIsFirstTemplate(classes, q, f);
  }

  /** When a line declares one loaded class name and no other, the template before it is
      that of the first class loaded under the name, whatever the iteration order. */
  lemma OnlyDeclaredClassGetsItsTemplate(classes: seq<ReflectedType>, order: seq<Entry>,
                                         lines: seq<string>, i: int, f: int)
    requires IterationOrder(order, Plan(classes))
    requires 0 <= i < |lines| && FirstOfName(classes, f)
    requires Declares(lines[i], classes[f].name)
    requires forall j :: 0 <= j < |classes| && Declares(lines[i], classes[j].name) ==>
               classes[j].name == classes[f].name
    ensures 1 <= Position(lines, order, i) < |AnnotateFile(classes, order, lines)|
    ensures AnnotateFile(classes, order, lines)[Position(lines, order, i) - 1]
            == ClassTemplate(classes[f])
  {
    OnlyDeclaredNameIsChosen(classes, order, lines[i], f);
    SplicePlacesLines(lines, order, i);
  }
}
