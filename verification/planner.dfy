/** Building the class-name to template map, one loaded class at a time. */
module Planner {
  import opened Strings
  import opened Metadata
  import opened Render
  import opened AnnotationMap

  /** The scan over the map's entries that looks for the class's qualified name. */
  function AlreadyGenerated(m: seq<Entry>, name: string): (r: bool)
    decreases |m|
    ensures r <==> name in Keys(m)
  {
    if |m| == 0 then false
    else
      assert Keys(m) == {m[0].0} + Keys(m[1..]) by {
        assert forall i :: 0 < i < |m| ==> m[i] == m[1..][i - 1];
      }
      m[0].0 == name || AlreadyGenerated(m[1..], name)
  }

  /** Adds the template of `c` under its qualified name unless that name is already a key;
      the first template generated for a name is the one kept. */
  function GenerateAnnotations(c: ReflectedType, m: seq<Entry>): (r: seq<Entry>)
    requires UniqueKeys(m)
    ensures UniqueKeys(r)
    ensures c.name in Keys(m) ==> r == m
    ensures c.name !in Keys(m) ==> r == m + [(c.name, ClassTemplate(c))]
    ensures Keys(r) == Keys(m) + {c.name}
  {
    if AlreadyGenerated(m, c.name) then m
    else Put(m, c.name, ClassTemplate(c))
  }

  /** After generating, the class's name holds its own template if the name was new and
      its old template otherwise; every other name keeps its template. */
  lemma GenerateLookup(c: ReflectedType, m: seq<Entry>)
    requires UniqueKeys(m)
    ensures Lookup(GenerateAnnotations(c, m), c.name)
            == if c.name in Keys(m) then Lookup(m, c.name) else Some(ClassTemplate(c))
    ensures forall k :: k != c.name ==> Lookup(GenerateAnnotations(c, m), k) == Lookup(m, k)
  {
  }

  /** The loop over the compiled class files, feeding each loaded class in turn. */
  function PlanFrom(m: seq<Entry>, classes: seq<ReflectedType>): (r: seq<Entry>)
    requires UniqueKeys(m)
    decreases |classes|
    ensures UniqueKeys(r)
  {
    if |classes| == 0 then m
    else PlanFrom(GenerateAnnotations(classes[0], m), classes[1..])
  }

  /** The templates of all classes of one file, starting from an empty map. */
  function Plan(classes: seq<ReflectedType>): (r: seq<Entry>)
    ensures UniqueKeys(r)
  {
    PlanFrom([], classes)
  }

  /** The class names among `classes`. */
  function Names(classes: seq<ReflectedType>): set<string> {
    set i | 0 <= i < |classes| :: classes[i].name
  }

  lemma NamesCons(classes: seq<ReflectedType>)
    requires |classes| > 0
    ensures Names(classes) == {classes[0].name} + Names(classes[1..])
  {
    var rest := classes[1..];
    forall x | x in Names(classes) ensures x in {classes[0].name} + Names(rest) {
      var i :| 0 <= i < |classes| && classes[i].name == x;
      if i > 0 {
        assert rest[i - 1].name == x;
      }
    }
    forall x | x in Names(rest) ensures x in Names(classes) {
      var i :| 0 <= i < |rest| && rest[i].name == x;
      assert classes[i + 1].name == x;
    }
  }

  /** `classes[i]` is the first class carrying its name. */
  ghost predicate FirstOfName(classes: seq<ReflectedType>, i: int) {
    0 <= i < |classes| && forall j :: 0 <= j < i ==> classes[j].name != classes[i].name
  }

  /** Generating from a map adds exactly the names of the classes to its keys. */
  lemma {:induction false} PlanFromKeys(m: seq<Entry>, classes: seq<ReflectedType>)
    requires UniqueKeys(m)
    ensures Keys(PlanFrom(m, classes)) == Keys(m) + Names(classes)
    decreases |classes|
  {
    if |classes| > 0 {
      PlanFromKeys(GenerateAnnotations(classes[0], m), classes[1..]);
      NamesCons(classes);
    }
  }

  /** Generating from a map never changes the template already stored under a name. */
  lemma {:induction false} PlanFromKeepsExisting(m: seq<Entry>, classes: seq<ReflectedType>, k: string)
    requires UniqueKeys(m) && k in Keys(m)
    ensures Lookup(PlanFrom(m, classes), k) == Lookup(m, k)
    decreases |classes|
  {
    if |classes| > 0 {
      GenerateLookup(classes[0], m);
      PlanFromKeepsExisting(GenerateAnnotations(classes[0], m), classes[1..], k);
    }
  }

  /** The first class of a name after the head is still the first of it in the tail. */
  lemma FirstOfNameTail(classes: seq<ReflectedType>, i: int)
    requires FirstOfName(classes, i) && i > 0
    ensures FirstOfName(classes[1..], i - 1)
    ensures classes[1..][i - 1] == classes[i] && classes[0].name != classes[i].name
  {
    var rest := classes[1..];
    forall j | 0 <= j < i - 1
      ensures rest[j].name != rest[i - 1].name
    {
      assert rest[j] == classes[j + 1];
    }
  }

  /** The head class's template, once generated, survives the rest of the loop. */
  lemma PlanFromHeadTemplate(m: seq<Entry>, classes: seq<ReflectedType>)
    requires UniqueKeys(m) && |classes| > 0 && classes[0].name !in Keys(m)
    ensures Lookup(PlanFrom(m, classes), classes[0].name) == Some(ClassTemplate(classes[0]))
  {
    var m' := GenerateAnnotations(classes[0], m);
    GenerateLookup(classes[0], m);
    PlanFromKeepsExisting(m', classes[1..], classes[0].name);
  }

  /** A name not yet in the map ends up holding the template of the first class with it. */
  lemma {:induction false} PlanFromFirstTemplate(m: seq<Entry>, classes: seq<ReflectedType>, i: int)
    requires UniqueKeys(m)
    requires FirstOfName(classes, i) && classes[i].name !in Keys(m)
    ensures Lookup(PlanFrom(m, classes), classes[i].name) == Some(ClassTemplate(classes[i]))
    decreases |classes|
  {
    if i == 0 {
      PlanFromHeadTemplate(m, classes);
    } else {
      FirstOfNameTail(classes, i);
      PlanFromFirstTemplate(GenerateAnnotations(classes[0], m), classes[1..], i - 1);
    }
  }

  /** The plan has one entry per distinct class name, holding the template of the first
      class with that name. */
  lemma PlanFirstWriteWins(classes: seq<ReflectedType>)
    ensures Keys(Plan(classes)) == Names(classes)
    ensures forall i :: FirstOfName(classes, i) ==>
              Lookup(Plan(classes), classes[i].name) == Some(ClassTemplate(classes[i]))
  {
    PlanFromKeys([], classes);
    forall i | FirstOfName(classes, i)
      ensures Lookup(Plan(classes), classes[i].name) == Some(ClassTemplate(classes[i]))
    {
      PlanFromFirstTemplate([], classes, i);
    }
  }

  /** Every entry of `m` pairs some class of `all` with that class's template. */
  ghost predicate EntriesOf(m: seq<Entry>, all: seq<ReflectedType>) {
    forall k :: 0 <= k < |m| ==>
      exists i :: 0 <= i < |all| && m[k] == (all[i].name, ClassTemplate(all[i]))
  }

  lemma GenerateEntries(c: ReflectedType, m: seq<Entry>, all: seq<ReflectedType>)
    requires UniqueKeys(m) && EntriesOf(m, all) && c in all
    ensures EntriesOf(GenerateAnnotations(c, m), all)
  {
    var m' := GenerateAnnotations(c, m);
    var i :| 0 <= i < |all| && all[i] == c;
    forall k | 0 <= k < |m'|
      ensures exists i :: 0 <= i < |all| && m'[k] == (all[i].name, ClassTemplate(all[i]))
    {
      if k >= |m| {
        assert m'[k] == (all[i].name, ClassTemplate(all[i]));
      } else {
        assert m'[k] == m[k];
      }
    }
  }

  lemma {:induction false} PlanFromEntries(m: seq<Entry>, classes: seq<ReflectedType>,
                                           all: seq<ReflectedType>)
    requires UniqueKeys(m) && EntriesOf(m, all)
    requires forall j :: 0 <= j < |classes| ==> classes[j] in all
    ensures EntriesOf(PlanFrom(m, classes), all)
    decreases |classes|
  {
    if |classes| > 0 {
      GenerateEntries(classes[0], m, all);
      var rest := classes[1..];
      forall j | 0 <= j < |rest| ensures rest[j] in all {
        assert rest[j] == classes[j + 1];
      }
      PlanFromEntries(GenerateAnnotations(classes[0], m), rest, all);
    }
  }

  /** Every entry of the plan is some class's qualified name paired with its template. */
  lemma PlanEntries(classes: seq<ReflectedType>)
    ensures EntriesOf(Plan(classes), classes)
  {
    PlanFromEntries([], classes, classes);
  }
}
