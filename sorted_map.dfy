/**
 * The `TreeMap<String, Integer>` that holds tag counts, modelled as its
 * in-order entry sequence: entries strictly ascending by key under
 * `String.compareTo`, so iteration order is key order and keys are unique.
 */
module SortedMap {
  import opened Options

  datatype Entry = Entry(key: string, count: nat)

  /** `a.compareTo(b) < 0`: lexicographic by character, a proper prefix first. */
  predicate Less(a: string, b: string)
    decreases |a|
  {
    if a == [] then b != []
    else if b == [] then false
    else a[0] < b[0] || (a[0] == b[0] && Less(a[1..], b[1..]))
  }

  lemma {:induction false} LessIrreflexive(a: string)
    ensures !Less(a, a)
    decreases |a|
  {
    if a != [] {
      LessIrreflexive(a[1..]);
    }
  }

  lemma {:induction false} LessTransitive(a: string, b: string, c: string)
    requires Less(a, b) && Less(b, c)
    ensures Less(a, c)
    decreases |a|
  {
    if a != [] && a[0] == b[0] && b[0] == c[0] {
      LessTransitive(a[1..], b[1..], c[1..]);
    }
  }

  /** Any two different strings are ordered one way. */
  lemma {:induction false} LessTotal(a: string, b: string)
    ensures a == b || Less(a, b) || Less(b, a)
    decreases |a|
  {
    if a != [] && b != [] && a[0] == b[0] {
      LessTotal(a[1..], b[1..]);
      if a[1..] == b[1..] {
        assert a == [a[0]] + a[1..] && b == [b[0]] + b[1..];
      }
    }
  }

  lemma LessAsymmetric(a: string, b: string)
    requires Less(a, b)
    ensures !Less(b, a)
  {
    if Less(b, a) {
      LessTransitive(a, b, a);
      LessIrreflexive(a);
    }
  }

  /** The `TreeMap` invariant: keys strictly ascending, hence unique. */
  predicate StrictlySorted(e: seq<Entry>) {
    forall i, j :: 0 <= i < j < |e| ==> Less(e[i].key, e[j].key)
  }

  function Keys(e: seq<Entry>): set<string> {
    set x | x in e :: x.key
  }

  /** `get`: the count stored under `k`, if any. */
  function Find(e: seq<Entry>, k: string): (r: Option<nat>)
    ensures r.Some? <==> k in Keys(e)
    ensures r.Some? ==> Entry(k, r.value) in e
  {
    if e == [] then None
    else if e[0].key == k then Some(e[0].count)
    else
      var r := Find(e[1..], k);
      assert Keys(e) == {e[0].key} + Keys(e[1..]) by {
        assert forall x :: x in e <==> x == e[0] || x in e[1..];
      }
      r
  }

  /** `getOrDefault(k, d)`. */
  function GetOrDefault(e: seq<Entry>, k: string, d: nat): nat {
    match Find(e, k)
    case Some(v) => v
    case None => d
  }

  /** In a sorted map every entry is the one `get` finds for its key. */
  lemma {:induction false} FindEntry(e: seq<Entry>, i: nat)
    requires StrictlySorted(e) && i < |e|
    ensures Find(e, e[i].key) == Some(e[i].count)
  {
    if i > 0 {
      assert Less(e[0].key, e[i].key);
      LessIrreflexive(e[0].key);
      FindEntry(e[1..], i - 1);
    }
  }

  /** In a sorted map the first key is below every later key. */
  lemma HeadBelowRest(e: seq<Entry>)
    requires StrictlySorted(e) && e != []
    ensures forall y :: y in e[1..] ==> Less(e[0].key, y.key)
    ensures e[0].key !in Keys(e[1..])
  {
    forall y | y in e[1..]
      ensures Less(e[0].key, y.key)
    {
      var j :| 0 <= j < |e[1..]| && e[1..][j] == y;
      assert e[j + 1] == y;
    }
    LessIrreflexive(e[0].key);
  }

  /** Putting a key below every key of a sorted map in front keeps it sorted. */
  lemma SortedCons(x: Entry, e: seq<Entry>)
    requires StrictlySorted(e)
    requires forall y :: y in e ==> Less(x.key, y.key)
    ensures StrictlySorted([x] + e)
  {
    var r := [x] + e;
    forall i, j | 0 <= i < j < |r|
      ensures Less(r[i].key, r[j].key)
    {
      assert r[j] == e[j - 1];
      if i > 0 {
        assert r[i] == e[i - 1];
      }
    }
  }

  /** A key below the first key of a sorted map is below all of its keys. */
  lemma BelowAll(e: seq<Entry>, k: string)
    requires StrictlySorted(e) && e != [] && Less(k, e[0].key)
    ensures forall y :: y in e ==> Less(k, y.key)
    ensures k !in Keys(e)
  {
    HeadBelowRest(e);
    forall y | y in e
      ensures Less(k, y.key)
    {
      if y != e[0] {
        assert y in e[1..];
        LessTransitive(k, e[0].key, y.key);
      }
    }
    LessIrreflexive(k);
  }

  /** `put(k, v)`: replaces the entry for `k`, or inserts one at its place in key order. */
  function Put(e: seq<Entry>, k: string, v: nat): (r: seq<Entry>)
    requires StrictlySorted(e)
    ensures StrictlySorted(r)
    ensures forall j :: Find(r, j) == if j == k then Some(v) else Find(e, j)
    ensures forall x :: x in r ==> x == Entry(k, v) || x in e
  {
    if e == [] then [Entry(k, v)]
    else if e[0].key == k then
      HeadBelowRest(e);
      SortedCons(Entry(k, v), e[1..]);
      [Entry(k, v)] + e[1..]
    else if Less(k, e[0].key) then
      BelowAll(e, k);
      SortedCons(Entry(k, v), e);
      [Entry(k, v)] + e
    else
      LessTotal(k, e[0].key);
      HeadBelowRest(e);
      var rest := Put(e[1..], k, v);
      SortedCons(e[0], rest);
      [e[0]] + rest
  }

  /** Sum of all counts. */
  function Total(e: seq<Entry>): nat {
    if e == [] then 0 else e[0].count + Total(e[1..])
  }

  /** `put(k, v)` changes the sum of counts by `v` less the count it replaces. */
  lemma {:induction false} PutTotal(e: seq<Entry>, k: string, v: nat)
    requires StrictlySorted(e)
    ensures Total(Put(e, k, v)) + GetOrDefault(e, k, 0) == Total(e) + v
  {
    if e == [] {
    } else if e[0].key == k {
      assert Put(e, k, v)[1..] == e[1..];
    } else if Less(k, e[0].key) {
      BelowAll(e, k);
      assert Put(e, k, v)[1..] == e;
    } else {
      PutTotal(e[1..], k, v);
      assert Put(e, k, v)[1..] == Put(e[1..], k, v);
    }
  }

  /** A sorted map is determined by what `get` returns: two with the same lookups are equal. */
  lemma {:induction false} SortedExtensional(e1: seq<Entry>, e2: seq<Entry>)
    requires StrictlySorted(e1) && StrictlySorted(e2)
    requires forall k :: Find(e1, k) == Find(e2, k)
    ensures e1 == e2
    decreases |e1| + |e2|
  {
    if e1 != [] {
      FindEntry(e1, 0);
    }
    if e2 != [] {
      FindEntry(e2, 0);
    }
    if e1 != [] && e2 != [] {
      var k1, k2 := e1[0].key, e2[0].key;
      LessTotal(k1, k2);
      BelowAllOrNot(e2, k1);
      BelowAllOrNot(e1, k2);
      HeadBelowRest(e1);
      HeadBelowRest(e2);
      forall k
        ensures Find(e1[1..], k) == Find(e2[1..], k)
      {
        if k != k1 {
          assert Find(e1, k) == Find(e1[1..], k);
          assert Find(e2, k) == Find(e2[1..], k);
        }
      }
      SortedExtensional(e1[1..], e2[1..]);
      assert e1 == [e1[0]] + e1[1..] && e2 == [e2[0]] + e2[1..];
    }
  }

  lemma BelowAllOrNot(e: seq<Entry>, k: string)
    requires StrictlySorted(e) && e != []
    ensures Less(k, e[0].key) ==> k !in Keys(e)
  {
    if Less(k, e[0].key) {
      BelowAll(e, k);
    }
  }
}
