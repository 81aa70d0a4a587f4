/** Canonical ordering of keyword arguments. Both cache-key derivations sort the
    `(name, value)` pairs of a dictionary by name before serialising them, so that the
    order in which the caller wrote the keyword arguments never reaches the hash. */
module Canonical {
  import opened PyText

  /** The items of a Python dictionary: no name occurs twice. */
  predicate KeysUnique<V>(kv: seq<(string, V)>) {
    forall i, j :: 0 <= i < j < |kv| ==> kv[i].0 != kv[j].0
  }

  /** Strictly increasing names, in Python's string order. */
  predicate StrictlySorted<V>(kv: seq<(string, V)>) {
    forall i, j :: 0 <= i < j < |kv| ==> LexLess(kv[i].0, kv[j].0)
  }

  function Insert<V>(x: (string, V), s: seq<(string, V)>): (r: seq<(string, V)>)
    ensures multiset(r) == multiset(s) + multiset{x}
    decreases |s|
  {
    if s == [] || !LexLess(s[0].0, x.0) then [x] + s
    else
      assert s == [s[0]] + s[1..];
      [s[0]] + Insert(x, s[1..])
  }

  /** `sorted(d.items())` for a dictionary with distinct names (an insertion sort by name). */
  function SortByKey<V>(kv: seq<(string, V)>): (r: seq<(string, V)>)
    ensures multiset(r) == multiset(kv)
    decreases |kv|
  {
    if kv == [] then []
    else
      assert kv == [kv[0]] + kv[1..];
      Insert(kv[0], SortByKey(kv[1..]))
  }

  lemma {:induction false} InsertSorted<V>(x: (string, V), s: seq<(string, V)>)
    requires StrictlySorted(s)
    requires forall e :: e in s ==> e.0 != x.0
    ensures StrictlySorted(Insert(x, s))
    decreases |s|
  {
    if s == [] || !LexLess(s[0].0, x.0) {
      if s != [] {
        LexLessTotal(s[0].0, x.0);
        forall k | 0 <= k < |s| ensures LexLess(x.0, s[k].0) {
          if k > 0 { LexLessTransitive(x.0, s[0].0, s[k].0); }
        }
      }
    } else {
      InsertSorted(x, s[1..]);
      var r := Insert(x, s);
      var t := Insert(x, s[1..]);
      assert r == [s[0]] + t;
      InsertAbove(x, s[1..], s[0].0) by {
        forall e | e in s[1..] ensures LexLess(s[0].0, e.0) {
          var k :| 0 <= k < |s[1..]| && s[1..][k] == e;
          assert s[k + 1] == e;
        }
      }
      forall i, j | 0 <= i < j < |r| ensures LexLess(r[i].0, r[j].0) {
        if i == 0 { assert r[j] == t[j - 1]; assert t[j - 1] in t; }
        else { assert r[i] == t[i - 1] && r[j] == t[j - 1]; }
      }
    }
  }

  /** Inserting a pair above a bound into pairs above that bound keeps them all above it. */
  lemma InsertAbove<V>(x: (string, V), s: seq<(string, V)>, lo: string)
    requires LexLess(lo, x.0)
    requires forall e :: e in s ==> LexLess(lo, e.0)
    ensures forall e :: e in Insert(x, s) ==> LexLess(lo, e.0)
  {
    forall e | e in Insert(x, s) ensures LexLess(lo, e.0) {
      assert e in multiset(Insert(x, s));
      assert e in multiset(s) + multiset{x};
    }
  }

  /** Sorting the items of a dictionary yields names in strictly increasing order. */
  lemma {:induction false} SortByKeySorted<V>(kv: seq<(string, V)>)
    requires KeysUnique(kv)
    ensures StrictlySorted(SortByKey(kv))
    decreases |kv|
  {
    if kv != [] {
      var tail := kv[1..];
      assert KeysUnique(tail) by {
        forall i, j | 0 <= i < j < |tail| ensures tail[i].0 != tail[j].0 {
          assert tail[i] == kv[i + 1] && tail[j] == kv[j + 1];
        }
      }
      SortByKeySorted(tail);
      var st := SortByKey(tail);
      forall e | e in st ensures e.0 != kv[0].0 {
        assert e in multiset(st);
        assert e in multiset(tail);
        var k :| 0 <= k < |tail| && tail[k] == e;
        assert kv[k + 1] == e;
      }
      InsertSorted(kv[0], st);
    }
  }

  /** Two strictly sorted sequences holding the same pairs are the same sequence. */
  lemma {:induction false} SortedPermutationsEqual<V>(a: seq<(string, V)>, b: seq<(string, V)>)
    requires StrictlySorted(a) && StrictlySorted(b)
    requires multiset(a) == multiset(b)
    ensures a == b
    decreases |a|
  {
    if a == [] {
      assert |multiset(b)| == 0;
    } else {
      SortedHeadsEqual(a, b);
      SortedTail(a);
      SortedTail(b);
      SameTail(a, b);
      SortedPermutationsEqual(a[1..], b[1..]);
      assert a == [a[0]] + a[1..] && b == [b[0]] + b[1..];
    }
  }

  lemma SortedTail<V>(a: seq<(string, V)>)
    requires StrictlySorted(a) && a != []
    ensures StrictlySorted(a[1..])
  {
    forall i, j | 0 <= i < j < |a| - 1 ensures LexLess(a[1..][i].0, a[1..][j].0) {
      assert a[1..][i] == a[i + 1] && a[1..][j] == a[j + 1];
    }
  }

  lemma SameTail<V>(a: seq<(string, V)>, b: seq<(string, V)>)
    requires a != [] && b != [] && a[0] == b[0] && multiset(a) == multiset(b)
    ensures multiset(a[1..]) == multiset(b[1..])
  {
    assert a == [a[0]] + a[1..] && b == [b[0]] + b[1..];
    assert multiset(a) == multiset{a[0]} + multiset(a[1..]);
    assert multiset(b) == multiset{b[0]} + multiset(b[1..]);
    assert multiset(a[1..]) == multiset(a) - multiset{a[0]};
    assert multiset(b[1..]) == multiset(b) - multiset{b[0]};
  }

  /** Two non-empty strictly sorted permutations of each other start with the same pair. */
  lemma SortedHeadsEqual<V>(a: seq<(string, V)>, b: seq<(string, V)>)
    requires StrictlySorted(a) && StrictlySorted(b)
    requires multiset(a) == multiset(b) && a != []
    ensures b != [] && a[0] == b[0]
  {
    assert a[0] in multiset(a);
    assert a[0] in b;
    assert b[0] in multiset(b);
    assert b[0] in a;
    if a[0] != b[0] {
      var i :| 0 <= i < |a| && a[i] == b[0];
      var j :| 0 <= j < |b| && b[j] == a[0];
      assert LexLess(a[0].0, b[0].0);
      assert LexLess(b[0].0, a[0].0);
      LexLessAsymmetric(a[0].0, b[0].0);
      assert false;
    }
  }

  /** The canonical form of a dictionary does not depend on the order of its items. */
  lemma SortByKeyOrderIndependent<V>(kv1: seq<(string, V)>, kv2: seq<(string, V)>)
    requires KeysUnique(kv1) && KeysUnique(kv2)
    requires multiset(kv1) == multiset(kv2)
    ensures SortByKey(kv1) == SortByKey(kv2)
  {
    SortByKeySorted(kv1);
    SortByKeySorted(kv2);
    SortedPermutationsEqual(SortByKey(kv1), SortByKey(kv2));
  }
}
