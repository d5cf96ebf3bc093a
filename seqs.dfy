/** Sequence folds the translation stages are specified with. */
module Seqs {
  import opened Wrappers

  /** A prefix one element longer is the shorter prefix and that element. */
  lemma TakeSnoc<T>(s: seq<T>, i: nat)
    requires i < |s|
    ensures s[..i + 1] == s[..i] + [s[i]]
    ensures s[..i + 1][..i] == s[..i]
  {
  }

  lemma TakeAll<T>(s: seq<T>)
    ensures s[..|s|] == s
  {
  }

  /** The values of `f` over `s`, in order, skipping the absent ones (a filter-map). */
  function Collect<A, B>(s: seq<A>, f: A -> Option<B>): seq<B>
  {
    if s == [] then [] else
      var rest := Collect(s[..|s| - 1], f);
      match f(s[|s| - 1])
      case Some(b) => rest + [b]
      case None => rest
  }

  lemma CollectSnoc<A, B>(s: seq<A>, x: A, f: A -> Option<B>)
    ensures Collect(s + [x], f) == Collect(s, f) + (if f(x).Some? then [f(x).value] else [])
  {
    assert (s + [x])[..|s|] == s;
  }

  /** An element is collected iff some input element maps to it. */
  lemma {:induction false} CollectMember<A, B>(s: seq<A>, f: A -> Option<B>, b: B)
    ensures b in Collect(s, f) <==> exists i :: 0 <= i < |s| && f(s[i]) == Some(b)
  {
    if s != [] {
      var p := s[..|s| - 1];
      CollectMember(p, f, b);
      assert s == p + [s[|s| - 1]];
      CollectSnoc(p, s[|s| - 1], f);
      if exists i :: 0 <= i < |p| && f(p[i]) == Some(b) {
        var i :| 0 <= i < |p| && f(p[i]) == Some(b);
        assert s[i] == p[i];
      }
      if exists i :: 0 <= i < |s| && f(s[i]) == Some(b) {
        var i :| 0 <= i < |s| && f(s[i]) == Some(b);
        if i < |p| { assert p[i] == s[i]; }
      }
    }
  }

  /** The key of every element in `s`. */
  function KeySet<T(==), K(==)>(s: seq<T>, key: T -> K): set<K>
  {
    set x | x in s :: key(x)
  }

  /** The last index of an element with key `k` (a scan that keeps its last match). */
  function LastIndex<T, K(==)>(s: seq<T>, key: T -> K, k: K): (r: Option<nat>)
    ensures r.Some? ==> r.value < |s| && key(s[r.value]) == k &&
                        forall j :: r.value < j < |s| ==> key(s[j]) != k
    ensures r.None? ==> forall j :: 0 <= j < |s| ==> key(s[j]) != k
  {
    if s == [] then None
    else if key(s[|s| - 1]) == k then Some(|s| - 1)
    else LastIndex(s[..|s| - 1], key, k)
  }

  /** `s` keeping only the first element of each key, in order of first occurrence. */
  function FirstOccurrences<T(==), K(==)>(s: seq<T>, key: T -> K): seq<T>
  {
    if s == [] then [] else
      var rest := FirstOccurrences(s[..|s| - 1], key);
      if key(s[|s| - 1]) in KeySet(rest, key) then rest else rest + [s[|s| - 1]]
  }

  lemma FirstOccurrencesSnoc<T, K>(s: seq<T>, x: T, key: T -> K)
    ensures FirstOccurrences(s + [x], key)
         == if key(x) in KeySet(FirstOccurrences(s, key), key)
            then FirstOccurrences(s, key) else FirstOccurrences(s, key) + [x]
  {
    assert (s + [x])[..|s|] == s;
  }

  lemma KeySetSnoc<T, K>(s: seq<T>, x: T, key: T -> K)
    ensures KeySet(s + [x], key) == KeySet(s, key) + {key(x)}
  {
    forall k | k in KeySet(s + [x], key)
      ensures k in KeySet(s, key) + {key(x)}
    {
      var y :| y in s + [x] && key(y) == k;
      if y != x { assert y in s; }
    }
    forall k | k in KeySet(s, key)
      ensures k in KeySet(s + [x], key)
    {
      var y :| y in s && key(y) == k;
      assert y in s + [x];
    }
    assert x in s + [x];
  }

  lemma KeySetConcat<T, K>(a: seq<T>, b: seq<T>, key: T -> K)
    ensures KeySet(a + b, key) == KeySet(a, key) + KeySet(b, key)
  {
    forall k | k in KeySet(a + b, key)
      ensures k in KeySet(a, key) + KeySet(b, key)
    {
      var y :| y in a + b && key(y) == k;
      if y in a { assert k in KeySet(a, key); } else { assert y in b; }
    }
    forall k | k in KeySet(a, key) + KeySet(b, key)
      ensures k in KeySet(a + b, key)
    {
      if k in KeySet(a, key) {
        var y :| y in a && key(y) == k;
        assert y in a + b;
      } else {
        var y :| y in b && key(y) == k;
        assert y in a + b;
      }
    }
  }

  /** No two elements of `s` share a key. */
  ghost predicate KeysDistinct<T, K>(s: seq<T>, key: T -> K)
  {
    forall i, j :: 0 <= i < j < |s| ==> key(s[i]) != key(s[j])
  }

  /** Index of the first element of `s` with key `k`. */
  function FirstIndex<T(==), K(==)>(s: seq<T>, key: T -> K, k: K): (i: nat)
    requires k in KeySet(s, key)
    ensures i < |s| && key(s[i]) == k
    ensures forall j :: 0 <= j < i ==> key(s[j]) != k
  {
    if key(s[0]) == k then 0 else
      assert s[0] in s;
      assert k in KeySet(s[1..], key) by {
        var x :| x in s && key(x) == k;
        assert x != s[0];
      }
      1 + FirstIndex(s[1..], key, k)
  }

  /** The keys kept are exactly the keys of the input. */
  lemma {:induction false} FirstOccurrencesKeySet<T, K>(s: seq<T>, key: T -> K)
    ensures KeySet(FirstOccurrences(s, key), key) == KeySet(s, key)
  {
    if s != [] {
      var p, x := s[..|s| - 1], s[|s| - 1];
      assert s == p + [x];
      FirstOccurrencesKeySet(p, key);
      FirstOccurrencesSnoc(p, x, key);
      KeySetSnoc(p, x, key);
      KeySetSnoc(FirstOccurrences(p, key), x, key);
    }
  }

  /** Each key is kept once. */
  lemma {:induction false} FirstOccurrencesDistinct<T, K>(s: seq<T>, key: T -> K)
    ensures KeysDistinct(FirstOccurrences(s, key), key)
  {
    if s != [] {
      var p, x := s[..|s| - 1], s[|s| - 1];
      assert s == p + [x];
      FirstOccurrencesDistinct(p, key);
      FirstOccurrencesSnoc(p, x, key);
      var r := FirstOccurrences(p, key);
      if key(x) !in KeySet(r, key) {
        forall i | 0 <= i < |r|
          ensures key((r + [x])[i]) != key(x)
        {
          assert (r + [x])[i] == r[i] && r[i] in r;
        }
      }
    }
  }

  /** Only elements of the input are kept. */
  lemma {:induction false} FirstOccurrencesSubset<T, K>(s: seq<T>, key: T -> K)
    ensures forall x :: x in FirstOccurrences(s, key) ==> x in s
  {
    if s != [] {
      var p, x := s[..|s| - 1], s[|s| - 1];
      assert s == p + [x];
      FirstOccurrencesSubset(p, key);
      FirstOccurrencesSnoc(p, x, key);
    }
  }

  /** The keys kept are exactly the keys of the input, each once. */
  lemma FirstOccurrencesKeys<T, K>(s: seq<T>, key: T -> K)
    ensures KeySet(FirstOccurrences(s, key), key) == KeySet(s, key)
    ensures KeysDistinct(FirstOccurrences(s, key), key)
    ensures forall x :: x in FirstOccurrences(s, key) ==> x in s
  {
    FirstOccurrencesKeySet(s, key);
    FirstOccurrencesDistinct(s, key);
    FirstOccurrencesSubset(s, key);
  }

  /** Each kept element is the input's first element with that key. */
  lemma {:induction false} FirstOccurrencesAreFirstAt<T, K>(s: seq<T>, key: T -> K)
    ensures forall k :: 0 <= k < |FirstOccurrences(s, key)| ==>
              key(FirstOccurrences(s, key)[k]) in KeySet(s, key) &&
              FirstOccurrences(s, key)[k] == s[FirstIndex(s, key, key(FirstOccurrences(s, key)[k]))]
  {
    if s != [] {
      var p, x := s[..|s| - 1], s[|s| - 1];
      assert s == p + [x];
      FirstOccurrencesAreFirstAt(p, key);
      FirstOccurrencesKeySet(p, key);
      FirstOccurrencesSnoc(p, x, key);
      var r, rp := FirstOccurrences(s, key), FirstOccurrences(p, key);
      forall k | 0 <= k < |r|
        ensures key(r[k]) in KeySet(s, key)
        ensures r[k] == s[FirstIndex(s, key, key(r[k]))]
      {
        assert r[k] in r;
        if k < |rp| {
          assert r[k] == rp[k] && rp[k] in rp;
          FirstIndexPrefix(p, [x], key, key(r[k]));
        } else {
          assert r[k] == x && key(x) !in KeySet(p, key);
          FirstIndexLast(p, x, key);
        }
      }
    }
  }

  /** The kept elements appear in the order of their first occurrences. */
  lemma {:induction false} FirstOccurrencesOrdered<T, K>(s: seq<T>, key: T -> K)
    ensures forall k1, k2 :: 0 <= k1 < k2 < |FirstOccurrences(s, key)| ==>
              key(FirstOccurrences(s, key)[k1]) in KeySet(s, key) &&
              key(FirstOccurrences(s, key)[k2]) in KeySet(s, key) &&
              FirstIndex(s, key, key(FirstOccurrences(s, key)[k1]))
                < FirstIndex(s, key, key(FirstOccurrences(s, key)[k2]))
  {
    FirstOccurrencesKeySet(s, key);
    if s != [] {
      var p, x := s[..|s| - 1], s[|s| - 1];
      assert s == p + [x];
      FirstOccurrencesOrdered(p, key);
      FirstOccurrencesKeySet(p, key);
      FirstOccurrencesSnoc(p, x, key);
      var r, rp := FirstOccurrences(s, key), FirstOccurrences(p, key);
      forall k1, k2 | 0 <= k1 < k2 < |r|
        ensures key(r[k1]) in KeySet(s, key) && key(r[k2]) in KeySet(s, key)
        ensures FirstIndex(s, key, key(r[k1])) < FirstIndex(s, key, key(r[k2]))
      {
        assert r[k1] in r && r[k2] in r;
        assert k1 < |rp| && r[k1] == rp[k1] && rp[k1] in rp;
        FirstIndexPrefix(p, [x], key, key(r[k1]));
        if k2 < |rp| {
          assert r[k2] == rp[k2] && rp[k2] in rp;
          FirstIndexPrefix(p, [x], key, key(r[k2]));
        } else {
          assert r[k2] == x && key(x) !in KeySet(p, key);
          FirstIndexLast(p, x, key);
        }
      }
    }
  }

  lemma FirstOccurrencesAreFirst<T, K>(s: seq<T>, key: T -> K)
    ensures forall k :: 0 <= k < |FirstOccurrences(s, key)| ==>
              key(FirstOccurrences(s, key)[k]) in KeySet(s, key) &&
              FirstOccurrences(s, key)[k] == s[FirstIndex(s, key, key(FirstOccurrences(s, key)[k]))]
    ensures forall k1, k2 :: 0 <= k1 < k2 < |FirstOccurrences(s, key)| ==>
              key(FirstOccurrences(s, key)[k1]) in KeySet(s, key) &&
              key(FirstOccurrences(s, key)[k2]) in KeySet(s, key) &&
              FirstIndex(s, key, key(FirstOccurrences(s, key)[k1]))
                < FirstIndex(s, key, key(FirstOccurrences(s, key)[k2]))
  {
    FirstOccurrencesAreFirstAt(s, key);
    FirstOccurrencesOrdered(s, key);
  }

  lemma FirstIndexPrefix<T, K>(p: seq<T>, q: seq<T>, key: T -> K, k: K)
    requires k in KeySet(p, key)
    ensures k in KeySet(p + q, key)
    ensures FirstIndex(p + q, key, k) == FirstIndex(p, key, k)
  {
    var i := FirstIndex(p, key, k);
    assert (p + q)[i] == p[i] && (p + q)[i] in p + q;
    FirstIndexUnique(p + q, key, k, i);
  }

  lemma FirstIndexLast<T, K>(p: seq<T>, x: T, key: T -> K)
    requires key(x) !in KeySet(p, key)
    ensures key(x) in KeySet(p + [x], key)
    ensures FirstIndex(p + [x], key, key(x)) == |p|
  {
    assert (p + [x])[|p|] == x;
    forall j | 0 <= j < |p|
      ensures key((p + [x])[j]) != key(x)
    {
      assert (p + [x])[j] == p[j] && p[j] in p;
    }
    FirstIndexUnique(p + [x], key, key(x), |p|);
  }

  /** The first index is characterised by its two properties. */
  lemma FirstIndexUnique<T, K>(s: seq<T>, key: T -> K, k: K, i: nat)
    requires i < |s| && key(s[i]) == k
    requires forall j :: 0 <= j < i ==> key(s[j]) != k
    ensures k in KeySet(s, key) && FirstIndex(s, key, k) == i
  {
    assert s[i] in s;
  }

  /** `f` applied to every element of `s`, in order. */
  function Map<A, B>(s: seq<A>, f: A -> B): (r: seq<B>)
    ensures |r| == |s|
    ensures forall i :: 0 <= i < |s| ==> r[i] == f(s[i])
  {
    if s == [] then [] else Map(s[..|s| - 1], f) + [f(s[|s| - 1])]
  }

  lemma MapSnoc<A, B>(s: seq<A>, x: A, f: A -> B)
    ensures Map(s + [x], f) == Map(s, f) + [f(x)]
  {
    assert (s + [x])[..|s|] == s;
  }

  /** The keys of `s`, listed, are exactly its key set. */
  lemma MapKeySet<T, K>(s: seq<T>, key: T -> K, k: K)
    ensures k in Map(s, key) <==> k in KeySet(s, key)
  {
    if k in Map(s, key) {
      var j :| 0 <= j < |s| && Map(s, key)[j] == k;
      assert s[j] in s;
    }
    if k in KeySet(s, key) {
      var x :| x in s && key(x) == k;
      var j :| 0 <= j < |s| && s[j] == x;
      assert Map(s, key)[j] == k;
    }
  }

  /** The identity, as the key of a sequence deduplicated by its elements. */
  function Identity<T>(x: T): T { x }

  /** `s` when it is non-empty, `current` otherwise: a list key is written only when it has entries. */
  function SetIfNonEmpty<T>(current: Option<seq<T>>, s: seq<T>): Option<seq<T>>
  {
    if |s| > 0 then Some(s) else current
  }
}
