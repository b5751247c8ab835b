/**
 * The `HashMap<String, String>` the helper keeps from class name to template text, as a
 * sequence of entries with distinct keys. The sequence order stands for the map's iteration
 * order, which `HashMap` leaves unspecified.
 */
module AnnotationMap {
  import opened Strings

  type Entry = (string, string)

  ghost predicate UniqueKeys(m: seq<Entry>) {
    forall i, j :: 0 <= i < j < |m| ==> m[i].0 != m[j].0
  }

  function Keys(m: seq<Entry>): set<string> {
    set i | 0 <= i < |m| :: m[i].0
  }

  /** `Map.get`, as an option. */
  function Lookup(m: seq<Entry>, k: string): (r: Option<string>)
    decreases |m|
    ensures r.None? <==> k !in Keys(m)
    ensures r.Some? ==> exists i :: 0 <= i < |m| && m[i] == (k, r.value)
  {
    if |m| == 0 then None
    else if m[0].0 == k then Some(m[0].1)
    else
      var r := Lookup(m[1..], k);
      assert Keys(m) == {m[0].0} + Keys(m[1..]) by {
        assert forall i :: 0 < i < |m| ==> m[i] == m[1..][i - 1];
      }
      if r.Some? then
        var i :| 0 <= i < |m[1..]| && m[1..][i] == (k, r.value);
        assert m[i + 1] == (k, r.value);
        r
      else r
  }

  /** The value stored at a key is the value of the one entry with that key. */
  lemma LookupEntry(m: seq<Entry>, i: int)
    requires UniqueKeys(m) && 0 <= i < |m|
    ensures Lookup(m, m[i].0) == Some(m[i].1)
  {
    var r := Lookup(m, m[i].0);
    var j :| 0 <= j < |m| && m[j] == (m[i].0, r.value);
  }

  /** The position of the entry with key `k`, or -1. */
  function KeyIndex(m: seq<Entry>, k: string): (i: int)
    decreases |m|
    ensures -1 <= i < |m|
    ensures i == -1 <==> k !in Keys(m)
    ensures i != -1 ==> m[i].0 == k
  {
    if |m| == 0 then -1
    else if m[|m| - 1].0 == k then |m| - 1
    else
      var i := KeyIndex(m[..|m| - 1], k);
      assert Keys(m) == Keys(m[..|m| - 1]) + {m[|m| - 1].0} by {
        assert forall j :: 0 <= j < |m| - 1 ==> m[j] == m[..|m| - 1][j];
      }
      i
  }

  /** `Map.put`: replaces the value of an existing key in place, or appends a new entry. */
  function Put(m: seq<Entry>, k: string, v: string): (r: seq<Entry>)
    requires UniqueKeys(m)
    ensures UniqueKeys(r)
    ensures Keys(r) == Keys(m) + {k}
    ensures k !in Keys(m) ==> r == m + [(k, v)]
    ensures |r| == |m| + (if k in Keys(m) then 0 else 1)
    ensures forall i :: 0 <= i < |m| ==> r[i] == (if m[i].0 == k then (k, v) else m[i])
    ensures Lookup(r, k) == Some(v)
    ensures forall k' :: k' != k ==> Lookup(r, k') == Lookup(m, k')
  {
    var i := KeyIndex(m, k);
    var r := if i == -1 then m + [(k, v)] else m[i := (k, v)];
    PutFacts(m, k, v, i, r);
    r
  }

  /** Writing entry `n` (an overwrite, or an append at `n == |m|`) keeps keys distinct and
      adds exactly `k` to them. */
  lemma PutKeys(m: seq<Entry>, k: string, v: string, i: int, r: seq<Entry>)
    requires UniqueKeys(m)
    requires -1 <= i < |m| && (i == -1 <==> k !in Keys(m)) && (i != -1 ==> m[i].0 == k)
    requires r == if i == -1 then m + [(k, v)] else m[i := (k, v)]
    ensures UniqueKeys(r)
    ensures Keys(r) == Keys(m) + {k}
  {
    var n := if i == -1 then |m| else i;
    assert r[n] == (k, v);
    assert forall j :: 0 <= j < |m| && j != n ==> r[j] == m[j];
    forall x | x in Keys(r) ensures x in Keys(m) + {k} {
      var j :| 0 <= j < |r| && r[j].0 == x;
    }
    forall x | x in Keys(m) + {k} ensures x in Keys(r) {
      if x != k {
        var j :| 0 <= j < |m| && m[j].0 == x;
        assert r[j].0 == x;
      }
    }
  }

  lemma PutFacts(m: seq<Entry>, k: string, v: string, i: int, r: seq<Entry>)
    requires UniqueKeys(m)
    requires -1 <= i < |m| && (i == -1 <==> k !in Keys(m)) && (i != -1 ==> m[i].0 == k)
    requires r == if i == -1 then m + [(k, v)] else m[i := (k, v)]
    ensures UniqueKeys(r)
    ensures Keys(r) == Keys(m) + {k}
    ensures Lookup(r, k) == Some(v)
    ensures forall k' :: k' != k ==> Lookup(r, k') == Lookup(m, k')
  {
    PutKeys(m, k, v, i, r);
    var n := if i == -1 then |m| else i;
    assert r[n] == (k, v);
    LookupEntry(r, n);
    forall k' | k' != k
      ensures Lookup(r, k') == Lookup(m, k')
    {
      if k' in Keys(m) {
        var j :| 0 <= j < |m| && m[j].0 == k';
        assert r[j] == m[j];
        LookupEntry(m, j);
        LookupEntry(r, j);
      }
    }
  }
}
