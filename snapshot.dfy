/**
 * The snapshot of the record store (toList in internal/kube_watch.go): the map's values copied into
 * a list in the map's iteration order, then sorted by ascending ID. Go's sort.Slice is modelled by
 * an insertion sort; the source promises only the resulting order, which any sort gives.
 */
module Snapshot {
  import opened Text
  import opened KubeModel

  /** Adjacent records are in ascending ID order. */
  predicate SortedByID(s: seq<Ingress>) {
    forall i :: 0 < i < |s| ==> LessEq(s[i - 1].id, s[i].id)
  }

  /** Insert a record into an ID-ordered list. */
  function Insert(x: Ingress, s: seq<Ingress>): (r: seq<Ingress>)
    requires SortedByID(s)
    ensures |r| == |s| + 1
    ensures multiset(r) == multiset(s) + multiset{x}
    ensures SortedByID(r)
    ensures r[0] == x || (s != [] && r[0] == s[0])
  {
    if s == [] then [x]
    else if LessEq(x.id, s[0].id) then [x] + s
    else
      var t := Insert(x, s[1..]);
      InsertBehind(x, s, t);
      [s[0]] + t
  }

  /** Placing the head of an ordered list before the insertion into its tail keeps the order. */
  lemma InsertBehind(x: Ingress, s: seq<Ingress>, t: seq<Ingress>)
    requires s != [] && SortedByID(s) && !LessEq(x.id, s[0].id)
    requires SortedByID(t) && t != [] && (t[0] == x || (|s| > 1 && t[0] == s[1]))
    requires multiset(t) == multiset(s[1..]) + multiset{x}
    ensures SortedByID([s[0]] + t)
    ensures multiset([s[0]] + t) == multiset(s) + multiset{x}
  {
    LessEqTotal(x.id, s[0].id);
    assert s == [s[0]] + s[1..];
    var r := [s[0]] + t;
    forall i | 0 < i < |r| ensures LessEq(r[i - 1].id, r[i].id) {
      if i > 1 {
        assert r[i - 1] == t[i - 2] && r[i] == t[i - 1];
      }
    }
  }

  /** sort.Slice by ascending ID: an ordered permutation of its input. */
  function SortByID(s: seq<Ingress>): (r: seq<Ingress>)
    ensures |r| == |s|
    ensures multiset(r) == multiset(s)
    ensures SortedByID(r)
  {
    if s == [] then []
    else
      assert s == [s[0]] + s[1..];
      Insert(s[0], SortByID(s[1..]))
  }

  /** Ascending order between adjacent records extends to every pair. */
  lemma {:induction false} SortedPairwise(s: seq<Ingress>, i: nat, j: nat)
    requires SortedByID(s) && i <= j < |s|
    ensures LessEq(s[i].id, s[j].id)
    decreases j - i
  {
    if i == j {
      LessEqTotal(s[i].id, s[i].id);
    } else {
      SortedPairwise(s, i + 1, j);
      LessEqTransitive(s[i].id, s[i + 1].id, s[j].id);
    }
  }

  /** The record is one of the cache's values. */
  ghost predicate Stored(cache: map<string, Ingress>, x: Ingress) {
    x in cache.Values
  }

  /** The record is one of the list's elements. */
  ghost predicate Listed(cp: seq<Ingress>, x: Ingress) {
    x in cp
  }

  /** The keys under which the cache stores the record. */
  ghost function Holders(cache: map<string, Ingress>, x: Ingress): set<string> {
    set u | u in cache && cache[u] == x
  }

  /** How many times the record occurs in the list. */
  ghost function Count(cp: seq<Ingress>, x: Ingress): nat {
    multiset(cp)[x]
  }

  /**
   * What a snapshot of a cache is: each record occurs as many times as there are entries holding
   * it, so every entry is copied exactly once, and the copies are ordered by ascending ID.
   */
  ghost predicate IsSnapshot(cache: map<string, Ingress>, cp: seq<Ingress>) {
    && |cp| == |cache|
    && (forall i {:trigger Stored(cache, cp[i])} :: 0 <= i < |cp| ==> Stored(cache, cp[i]))
    && (forall u {:trigger Listed(cp, cache[u])} :: u in cache ==> Listed(cp, cache[u]))
    && (forall x {:trigger Count(cp, x)} :: Count(cp, x) == |Holders(cache, x)|)
    && SortedByID(cp)
  }

  /** Before any key is taken, no holder is counted. */
  lemma HoldersNone(cache: map<string, Ingress>, x: Ingress)
    ensures |Holders(cache, x) - cache.Keys| == 0
  {
    assert Holders(cache, x) - cache.Keys == {};
  }

  /** Appending a record counts it once more and no other record. */
  lemma CountAppend(cp: seq<Ingress>, v: Ingress, x: Ingress)
    ensures Count(cp + [v], x) == Count(cp, x) + (if v == x then 1 else 0)
  {
    assert multiset(cp + [v]) == multiset(cp) + multiset{v};
  }

  /** Taking one more key of the cache adds one holder of its record and of no other. */
  lemma HoldersStep(cache: map<string, Ingress>, keys: set<string>, u0: string, x: Ingress)
    requires u0 in keys && keys <= cache.Keys
    ensures |Holders(cache, x) - (keys - {u0})| == |Holders(cache, x) - keys| + (if cache[u0] == x then 1 else 0)
  {
    var h := Holders(cache, x);
    if cache[u0] == x {
      assert h - (keys - {u0}) == (h - keys) + {u0};
      assert u0 !in h - keys;
    } else {
      assert h - (keys - {u0}) == h - keys;
    }
  }

  /** Two snapshots of the same cache hold the same records, as often each: they differ at most in order. */
  lemma SnapshotsAgree(cache: map<string, Ingress>, a: seq<Ingress>, b: seq<Ingress>)
    requires IsSnapshot(cache, a) && IsSnapshot(cache, b)
    ensures multiset(a) == multiset(b)
  {
    forall x ensures multiset(a)[x] == multiset(b)[x] {
      assert Count(a, x) == Count(b, x);
    }
  }

  /** toList: copy the values in some iteration order, then sort them by ID. */
  method ToList(cache: map<string, Ingress>) returns (cp: seq<Ingress>)
    ensures IsSnapshot(cache, cp)
    ensures forall i, j :: 0 <= i <= j < |cp| ==> LessEq(cp[i].id, cp[j].id)
  {
    var unsorted := CopyValues(cache);
    cp := SortByID(unsorted);
    SameElements(cp, unsorted);
    forall x ensures Count(cp, x) == |Holders(cache, x)| {
      assert Count(cp, x) == Count(unsorted, x);
    }
    forall i | 0 <= i < |cp| ensures Stored(cache, cp[i]) {
      assert cp[i] in unsorted;
    }
    forall u | u in cache ensures Listed(cp, cache[u]) {
      assert cache[u] in unsorted;
    }
    SortedAll(cp);
  }

  /** The records of the entries outside `keys` have been copied into the list, each once. */
  ghost predicate CopiedExcept(cache: map<string, Ingress>, keys: set<string>, cp: seq<Ingress>) {
    && keys <= cache.Keys
    && |cp| + |keys| == |cache|
    && (forall i :: 0 <= i < |cp| ==> cp[i] in cache.Values)
    && (forall u :: u in cache && u !in keys ==> cache[u] in cp)
    && (forall x {:trigger Count(cp, x)} :: Count(cp, x) == |Holders(cache, x) - keys|)
  }

  lemma CopiedNone(cache: map<string, Ingress>)
    ensures CopiedExcept(cache, cache.Keys, [])
  {
    forall x ensures Count([], x) == |Holders(cache, x) - cache.Keys| {
      HoldersNone(cache, x);
    }
  }

  /** Copying the record of one more key keeps the copy exact. */
  lemma CopiedStep(cache: map<string, Ingress>, keys: set<string>, cp: seq<Ingress>, u: string)
    requires CopiedExcept(cache, keys, cp) && u in keys
    ensures CopiedExcept(cache, keys - {u}, cp + [cache[u]])
  {
    forall x ensures Count(cp + [cache[u]], x) == |Holders(cache, x) - (keys - {u})| {
      HoldersStep(cache, keys, u, x);
      CountAppend(cp, cache[u], x);
    }
  }

  /** Once every key is taken, the list holds each entry's record exactly once. */
  lemma CopiedAll(cache: map<string, Ingress>, cp: seq<Ingress>)
    requires CopiedExcept(cache, {}, cp)
    ensures |cp| == |cache|
    ensures forall i :: 0 <= i < |cp| ==> cp[i] in cache.Values
    ensures forall u :: u in cache ==> cache[u] in cp
    ensures forall x {:trigger Count(cp, x)} :: Count(cp, x) == |Holders(cache, x)|
  {
    forall x ensures Count(cp, x) == |Holders(cache, x)| {
      assert Holders(cache, x) - {} == Holders(cache, x);
    }
  }

  /** The range loop of toList: each entry's record appended once, in the map's iteration order. */
  method CopyValues(cache: map<string, Ingress>) returns (cp: seq<Ingress>)
    ensures |cp| == |cache|
    ensures forall i :: 0 <= i < |cp| ==> cp[i] in cache.Values
    ensures forall u :: u in cache ==> cache[u] in cp
    ensures forall x {:trigger Count(cp, x)} :: Count(cp, x) == |Holders(cache, x)|
  {
    var keys := cache.Keys;
    cp := [];
    CopiedNone(cache);
    while keys != {}
      invariant CopiedExcept(cache, keys, cp)
      decreases |keys|
    {
      var u :| u in keys;
      CopiedStep(cache, keys, cp, u);
      cp := cp + [cache[u]];
      keys := keys - {u};
    }
    CopiedAll(cache, cp);
  }

  lemma SameElements(a: seq<Ingress>, b: seq<Ingress>)
    requires multiset(a) == multiset(b)
    ensures |a| == |b|
    ensures forall x :: x in a <==> x in b
  {
    assert |a| == |multiset(a)|;
    forall x ensures x in a <==> x in b {
      assert x in a <==> x in multiset(a);
    }
  }

  lemma SortedAll(s: seq<Ingress>)
    requires SortedByID(s)
    ensures forall i, j :: 0 <= i <= j < |s| ==> LessEq(s[i].id, s[j].id)
  {
    forall i, j | 0 <= i <= j < |s|
      ensures LessEq(s[i].id, s[j].id)
    {
      SortedPairwise(s, i, j);
    }
  }
}
