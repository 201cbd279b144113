/** Sequence vocabulary: duplicate-free enumerations of a set, subsequences, flattening. */
module Seqs {

  predicate NoDup<T(==)>(s: seq<T>) {
    forall i, j :: 0 <= i < j < |s| ==> s[i] != s[j]
  }

  /**
   * `order` lists every element of `keys` exactly once: one possible iteration order of a
   * Go map with those keys.
   */
  ghost predicate IsEnumeration<T(!new)>(order: seq<T>, keys: set<T>) {
    NoDup(order) && forall x :: x in order <==> x in keys
  }

  /** `sub` is `s` with some elements dropped and the rest in their original order. */
  predicate IsSubsequence<T(==)>(sub: seq<T>, s: seq<T>)
    decreases |s|
  {
    if sub == [] then true
    else if s == [] then false
    else if sub[0] == s[0] then IsSubsequence(sub[1..], s[1..])
    else IsSubsequence(sub, s[1..])
  }

  /** lo.Flatten(lo.Map(ks, f)). */
  function FlatMap<K, V>(f: K -> seq<V>, ks: seq<K>): seq<V>
    decreases |ks|
  {
    if ks == [] then [] else f(ks[0]) + FlatMap(f, ks[1..])
  }

  /** Whatever one key contributes is part of the flattened whole. */
  lemma {:induction false} FlatMapContains<K, V>(f: K -> seq<V>, ks: seq<K>, i: int, x: V)
    requires 0 <= i < |ks| && x in f(ks[i])
    ensures x in FlatMap(f, ks)
    decreases |ks|
  {
    if i > 0 {
      assert ks[1..][i - 1] == ks[i];
      FlatMapContains(f, ks[1..], i - 1, x);
    }
  }

  lemma {:induction false} FlatMapAppend<K, V>(f: K -> seq<V>, a: seq<K>, b: seq<K>)
    ensures FlatMap(f, a + b) == FlatMap(f, a) + FlatMap(f, b)
    decreases |a|
  {
    if a == [] {
      assert a + b == b;
    } else {
      assert (a + b)[0] == a[0] && (a + b)[1..] == a[1..] + b;
      FlatMapAppend(f, a[1..], b);
      calc {
        FlatMap(f, a + b);
        f(a[0]) + FlatMap(f, a[1..] + b);
        f(a[0]) + (FlatMap(f, a[1..]) + FlatMap(f, b));
      }
    }
  }

  /** The elements of `b` other than the one at `j`, still duplicate-free and in order. */
  lemma RemoveAt<K>(b: seq<K>, j: int)
    requires NoDup(b) && 0 <= j < |b|
    ensures NoDup(b[..j] + b[j + 1..])
    ensures forall x :: x in b[..j] + b[j + 1..] <==> x in b && x != b[j]
  {
    var rest := b[..j] + b[j + 1..];
    forall p, q | 0 <= p < q < |rest| ensures rest[p] != rest[q] {
      var p' := if p < j then p else p + 1;
      var q' := if q < j then q else q + 1;
      assert rest[p] == b[p'] && rest[q] == b[q'];
    }
    forall x ensures x in rest <==> x in b && x != b[j] {
      if x in rest {
        var i :| 0 <= i < |rest| && rest[i] == x;
        var i' := if i < j then i else i + 1;
        assert b[i'] == x && i' != j;
      }
      if x in b && x != b[j] {
        var m :| 0 <= m < |b| && b[m] == x;
        if m < j { assert rest[m] == x; } else { assert rest[m - 1] == x; }
      }
    }
  }

  lemma HeadMember<K>(b: seq<K>)
    ensures b == [] || b[0] in b
  {
  }

  lemma FirstTwoDistinct<K>(s: seq<K>)
    requires NoDup(s)
    ensures |s| < 2 || s[0] != s[1]
  {
  }

  /** An enumeration of a one-element set is that element alone. */
  lemma SingletonEnumeration<K>(s: seq<K>, k: K)
    requires NoDup(s) && forall x :: x in s <==> x == k
    ensures s == [k]
  {
    assert k in s;
    forall i | 0 <= i < |s| ensures s[i] == k {
      assert s[i] in s;
    }
    FirstTwoDistinct(s);
  }

  /** Flattening `b` is flattening its element `j` plus flattening the rest, as multisets. */
  lemma FlatMapRemove<K, V>(f: K -> seq<V>, b: seq<K>, j: int)
    requires 0 <= j < |b|
    ensures multiset(FlatMap(f, b)) == multiset(f(b[j])) + multiset(FlatMap(f, b[..j] + b[j + 1..]))
  {
    var pre, post := b[..j], b[j + 1..];
    assert b == pre + [b[j]] + post;
    FlatMapAppend(f, pre + [b[j]], post);
    FlatMapAppend(f, pre, [b[j]]);
    FlatMapAppend(f, pre, post);
    assert FlatMap(f, [b[j]]) == f(b[j]) by {
      assert [b[j]][1..] == [];
    }
    calc {
      multiset(FlatMap(f, b));
      multiset(FlatMap(f, pre) + f(b[j]) + FlatMap(f, post));
      multiset(FlatMap(f, pre)) + multiset(f(b[j])) + multiset(FlatMap(f, post));
      multiset(f(b[j])) + multiset(FlatMap(f, pre + post));
    }
  }

  /**
   * Flattening over two enumerations of the same set yields the same multiset: the output
   * of a map-driven loop is fixed up to the order Go happens to iterate the map in.
   */
  lemma {:induction false} FlatMapPermutation<K, V>(f: K -> seq<V>, a: seq<K>, b: seq<K>)
    requires NoDup(a) && NoDup(b)
    requires forall x :: x in a <==> x in b
    ensures multiset(FlatMap(f, a)) == multiset(FlatMap(f, b))
    decreases |a|
  {
    if a == [] {
      HeadMember(b);
    } else {
      var k := a[0];
      assert k in b;
      var j :| 0 <= j < |b| && b[j] == k;
      var rest := b[..j] + b[j + 1..];
      RemoveAt(b, j);
      RemoveAt(a, 0);
      assert a[1..] == a[..0] + a[1..];
      forall x ensures x in a[1..] <==> x in rest {
        assert x in a[1..] <==> x in a && x != k;
        assert x in rest <==> x in b && x != k;
      }
      FlatMapPermutation(f, a[1..], rest);
      FlatMapRemove(f, b, j);
      FlatMapRemove(f, a, 0);
    }
  }
}
