/**
 * Generic sequence helpers: filtering (Python list comprehensions), flattening, and the
 * insertion-ordered "dictionary of lists" that the source builds with `defaultdict(list)`.
 */
module Seqs {

  /** The elements of a sequence as a set (Python's `set(xs)`). */
  function Elems<T(!new)>(s: seq<T>): (r: set<T>)
    ensures forall x :: x in r <==> x in s
  {
    set x | x in s
  }

  lemma ElemsEmpty<T(!new)>(s: seq<T>)
    ensures Elems(s) == {} <==> s == []
  {
    if s != [] {
      assert s[0] in Elems(s);
    }
  }

  ghost predicate NoDup<T>(s: seq<T>) {
    forall i, j :: 0 <= i < j < |s| ==> s[i] != s[j]
  }

  /** `[x for x in s if p(x)]`. */
  function Filter<T(!new)>(s: seq<T>, p: T -> bool): (r: seq<T>)
    ensures |r| <= |s|
    ensures forall x :: x in r <==> x in s && p(x)
    ensures multiset(r) <= multiset(s)
    ensures (forall i :: 0 <= i < |s| ==> p(s[i])) ==> r == s
    ensures (forall i :: 0 <= i < |s| ==> !p(s[i])) ==> r == []
  {
    if s == [] then []
    else
      assert s == [s[0]] + s[1..];
      (if p(s[0]) then [s[0]] else []) + Filter(s[1..], p)
  }

  /** Concatenation of a sequence of sequences. */
  function Flatten<T>(ss: seq<seq<T>>): seq<T> {
    if ss == [] then [] else ss[0] + Flatten(ss[1..])
  }

  lemma {:induction false} FlattenAppend<T>(a: seq<seq<T>>, b: seq<seq<T>>)
    ensures Flatten(a + b) == Flatten(a) + Flatten(b)
  {
    if a != [] {
      assert (a + b)[0] == a[0];
      assert (a + b)[1..] == a[1..] + b;
      FlattenAppend(a[1..], b);
    } else {
      assert a + b == b;
    }
  }

  lemma {:induction false} FlattenMember<T>(ss: seq<seq<T>>, x: T)
    ensures x in Flatten(ss) <==> exists i :: 0 <= i < |ss| && x in ss[i]
  {
    if ss != [] {
      FlattenMember(ss[1..], x);
      if x in Flatten(ss[1..]) {
        var i :| 0 <= i < |ss[1..]| && x in ss[1..][i];
        assert x in ss[i + 1];
      }
      if exists i :: 0 <= i < |ss| && x in ss[i] {
        var i :| 0 <= i < |ss| && x in ss[i];
        if i > 0 {
          assert x in ss[1..][i - 1];
        }
      }
    }
  }

  /** `list(s)`: the elements of a set in some order, each once. */
  method ListOfSet<T(==)>(s: set<T>) returns (r: seq<T>)
    ensures forall x :: x in r <==> x in s
    ensures NoDup(r) && |r| == |s|
  {
    r := [];
    var rest := s;
    while rest != {}
      invariant forall x :: x in s <==> x in r || x in rest
      invariant forall x :: x in r ==> x !in rest
      invariant NoDup(r) && |r| + |rest| == |s|
      decreases |rest|
    {
      var x :| x in rest;
      r := r + [x];
      rest := rest - {x};
    }
  }

  function Min(a: int, b: int): int {
    if a <= b then a else b
  }

  function Max(a: int, b: int): int {
    if a >= b then a else b
  }

  // ---------------------------------------------------------------------------------------
  // An insertion-ordered dictionary of lists, specified by the sequence of (key, value)
  // appends that built it: `d = defaultdict(list); for k, v in pairs: d[k].append(v)`.
  // ---------------------------------------------------------------------------------------

  /** The keys of the dictionary built from `ps`, in first-insertion order. */
  function KeysOf<K(==), V>(ps: seq<(K, V)>): seq<K> {
    if ps == [] then []
    else
      var ks := KeysOf(ps[..|ps| - 1]);
      var k := ps[|ps| - 1].0;
      if k in ks then ks else ks + [k]
  }

  /** The list stored under key `k` in the dictionary built from `ps`. */
  function ValuesFor<K(==), V>(ps: seq<(K, V)>, k: K): seq<V> {
    if ps == [] then []
    else ValuesFor(ps[..|ps| - 1], k) + (if ps[|ps| - 1].0 == k then [ps[|ps| - 1].1] else [])
  }

  /** All appended values, in order. */
  function ValuesOf<K, V>(ps: seq<(K, V)>): seq<V> {
    if ps == [] then [] else ValuesOf(ps[..|ps| - 1]) + [ps[|ps| - 1].1]
  }

  /** The dictionary's lists concatenated in the order of `ks`. */
  function BucketContents<K(==), V>(ps: seq<(K, V)>, ks: seq<K>): seq<V> {
    if ks == [] then [] else ValuesFor(ps, ks[0]) + BucketContents(ps, ks[1..])
  }

  /** The dictionary `m` with key order `keys` is the one built by appending `ps`. */
  ghost predicate Tracks<K(!new), V>(keys: seq<K>, m: map<K, seq<V>>, ps: seq<(K, V)>) {
    && keys == KeysOf(ps)
    && (forall k :: k in m <==> k in keys)
    && (forall k :: k in m ==> m[k] == ValuesFor(ps, k))
  }

  lemma TracksEmpty<K(!new), V>(ps: seq<(K, V)>)
    requires ps == []
    ensures Tracks([], map[], ps)
  {
  }

  /** One `d[k].append(v)` step keeps `Tracks`. */
  lemma TracksAppend<K(!new), V>(keys: seq<K>, m: map<K, seq<V>>, ps: seq<(K, V)>, k: K, v: V)
    requires Tracks(keys, m, ps)
    ensures k in m ==> Tracks(keys, m[k := m[k] + [v]], ps + [(k, v)])
    ensures k !in m ==> Tracks(keys + [k], m[k := [v]], ps + [(k, v)])
  {
    assert (ps + [(k, v)])[..|ps|] == ps;
    ValuesForSpec(ps, k);
  }

  lemma {:induction false} KeysOfSpec<K(!new), V>(ps: seq<(K, V)>)
    ensures NoDup(KeysOf(ps))
    ensures forall k :: k in KeysOf(ps) <==> exists i :: 0 <= i < |ps| && ps[i].0 == k
  {
    if ps != [] {
      var init := ps[..|ps| - 1];
      KeysOfSpec(init);
      forall k | k in KeysOf(ps)
        ensures exists i :: 0 <= i < |ps| && ps[i].0 == k
      {
        if k in KeysOf(init) {
          var i :| 0 <= i < |init| && init[i].0 == k;
          assert ps[i].0 == k;
        } else {
          assert ps[|ps| - 1].0 == k;
        }
      }
      forall k | exists i :: 0 <= i < |ps| && ps[i].0 == k
        ensures k in KeysOf(ps)
      {
        var i :| 0 <= i < |ps| && ps[i].0 == k;
        if i < |ps| - 1 {
          assert init[i].0 == k;
        }
      }
    }
  }

  lemma ValuesForNonEmpty<K(!new), V>(ps: seq<(K, V)>, k: K)
    requires k in KeysOf(ps)
    ensures |ValuesFor(ps, k)| > 0
  {
    ValuesForSpec(ps, k);
  }

  lemma {:induction false} ValuesForSpec<K(!new), V>(ps: seq<(K, V)>, k: K)
    ensures forall v :: v in ValuesFor(ps, k) <==> (k, v) in ps
    ensures |ValuesFor(ps, k)| > 0 <==> k in KeysOf(ps)
  {
    if ps != [] {
      var init := ps[..|ps| - 1];
      ValuesForSpec(init, k);
      assert ps == init + [ps[|ps| - 1]];
      forall v
        ensures v in ValuesFor(ps, k) <==> (k, v) in ps
      {
        if (k, v) in ps {
          var i :| 0 <= i < |ps| && ps[i] == (k, v);
          if i < |ps| - 1 {
            assert init[i] == (k, v);
          }
        }
      }
    }
  }

  lemma ValuesForAppend<K(!new), V>(ps: seq<(K, V)>, k: K, v: V, j: K)
    ensures ValuesFor(ps + [(k, v)], j) == ValuesFor(ps, j) + (if j == k then [v] else [])
  {
    assert (ps + [(k, v)])[..|ps|] == ps;
  }

  lemma {:induction false} BucketContentsOther<K(!new), V>(ps: seq<(K, V)>, ks: seq<K>, k: K, v: V)
    requires k !in ks
    ensures BucketContents(ps + [(k, v)], ks) == BucketContents(ps, ks)
  {
    if ks != [] {
      ValuesForAppend(ps, k, v, ks[0]);
      BucketContentsOther(ps, ks[1..], k, v);
    }
  }

  lemma {:induction false} BucketContentsAppend<K(!new), V>(ps: seq<(K, V)>, ks: seq<K>, k: K, v: V)
    requires NoDup(ks)
    requires k in ks
    ensures multiset(BucketContents(ps + [(k, v)], ks)) == multiset(BucketContents(ps, ks)) + multiset{v}
  {
    if ks[0] == k {
      BucketContentsAppendHead(ps, ks, k, v);
    } else {
      assert k in ks[1..];
      assert NoDup(ks[1..]);
      BucketContentsAppend(ps, ks[1..], k, v);
      BucketContentsAppendTail(ps, ks, k, v);
    }
  }

  lemma BucketContentsAppendHead<K(!new), V>(ps: seq<(K, V)>, ks: seq<K>, k: K, v: V)
    requires NoDup(ks)
    requires ks != [] && ks[0] == k
    ensures multiset(BucketContents(ps + [(k, v)], ks)) == multiset(BucketContents(ps, ks)) + multiset{v}
  {
    var ps' := ps + [(k, v)];
    ValuesForAppend(ps, k, v, k);
    var head, head' := ValuesFor(ps, k), ValuesFor(ps', k);
    var tail, tail' := BucketContents(ps, ks[1..]), BucketContents(ps', ks[1..]);
    assert k !in ks[1..];
    BucketContentsOther(ps, ks[1..], k, v);
    assert head' == head + [v];
    assert BucketContents(ps', ks) == head' + tail';
    assert BucketContents(ps, ks) == head + tail;
    assert tail' == tail;
  }

  lemma BucketContentsAppendTail<K(!new), V>(ps: seq<(K, V)>, ks: seq<K>, k: K, v: V)
    requires ks != [] && ks[0] != k
    requires multiset(BucketContents(ps + [(k, v)], ks[1..])) == multiset(BucketContents(ps, ks[1..])) + multiset{v}
    ensures multiset(BucketContents(ps + [(k, v)], ks)) == multiset(BucketContents(ps, ks)) + multiset{v}
  {
    var ps' := ps + [(k, v)];
    ValuesForAppend(ps, k, v, ks[0]);
    var head, head' := ValuesFor(ps, ks[0]), ValuesFor(ps', ks[0]);
    var tail, tail' := BucketContents(ps, ks[1..]), BucketContents(ps', ks[1..]);
    assert head' == head;
    assert BucketContents(ps', ks) == head + tail';
    assert BucketContents(ps, ks) == head + tail;
  }

  /**
   * Conservation: the dictionary's lists, concatenated in key order, hold every appended
   * value exactly as often as it was appended.
   */
  lemma {:induction false} BucketsConserve<K(!new), V>(ps: seq<(K, V)>)
    ensures multiset(BucketContents(ps, KeysOf(ps))) == multiset(ValuesOf(ps))
  {
    if ps != [] {
      var init := ps[..|ps| - 1];
      var (k, v) := ps[|ps| - 1];
      assert ps == init + [(k, v)];
      BucketsConserve(init);
      KeysOfSpec(init);
      var ks := KeysOf(init);
      if k in ks {
        BucketContentsAppend(init, ks, k, v);
      } else {
        BucketContentsOther(init, ks, k, v);
        ValuesForSpec(init, k);
        ValuesForAppend(init, k, v, k);
        BucketContentsSnoc(ps, ks, k);
      }
    }
  }

  lemma BucketContentsLast<K(!new), V>(ps: seq<(K, V)>, ks: seq<K>)
    requires ks != []
    ensures BucketContents(ps, ks) == BucketContents(ps, ks[..|ks| - 1]) + ValuesFor(ps, ks[|ks| - 1])
  {
    assert ks == ks[..|ks| - 1] + [ks[|ks| - 1]];
    BucketContentsSnoc(ps, ks[..|ks| - 1], ks[|ks| - 1]);
  }

  lemma {:induction false} BucketContentsSnoc<K(!new), V>(ps: seq<(K, V)>, ks: seq<K>, k: K)
    ensures BucketContents(ps, ks + [k]) == BucketContents(ps, ks) + ValuesFor(ps, k)
  {
    if ks != [] {
      assert (ks + [k])[1..] == ks[1..] + [k];
      BucketContentsSnoc(ps, ks[1..], k);
    }
  }

  /** A value listed under two different keys is in the concatenated lists at least twice. */
  lemma {:induction false} BucketContentsTwice<K(!new), V>(ps: seq<(K, V)>, ks: seq<K>, k1: K, k2: K, v: V)
    requires k1 != k2 && k1 in ks && k2 in ks
    requires v in ValuesFor(ps, k1) && v in ValuesFor(ps, k2)
    ensures multiset(BucketContents(ps, ks))[v] >= 2
  {
    if ks[0] == k1 {
      BucketContentsHas(ps, ks[1..], k2, v);
    } else if ks[0] == k2 {
      BucketContentsHas(ps, ks[1..], k1, v);
    } else {
      BucketContentsTwice(ps, ks[1..], k1, k2, v);
    }
  }

  lemma {:induction false} BucketContentsHas<K(!new), V>(ps: seq<(K, V)>, ks: seq<K>, k: K, v: V)
    requires k in ks && v in ValuesFor(ps, k)
    ensures v in BucketContents(ps, ks)
  {
    if ks[0] != k {
      BucketContentsHas(ps, ks[1..], k, v);
    }
  }

  // ---------------------------------------------------------------------------------------
  // Key lists and first-occurrence order
  // ---------------------------------------------------------------------------------------

  /** A sequence without repeats holds each of its elements exactly once. */
  lemma {:induction false} NoDupCount<T>(s: seq<T>, x: T)
    requires NoDup(s)
    ensures multiset(s)[x] == if x in s then 1 else 0
  {
    if s != [] {
      var init := s[..|s| - 1];
      assert s == init + [s[|s| - 1]];
      assert NoDup(init) by {
        forall i, j | 0 <= i < j < |init|
          ensures init[i] != init[j]
        {
          assert init[i] == s[i] && init[j] == s[j];
        }
      }
      NoDupCount(init, x);
    }
  }

  /** A sequence without repeats has as many elements as its set of elements. */
  lemma {:induction false} NoDupCard<T(!new)>(s: seq<T>)
    requires NoDup(s)
    ensures |Elems(s)| == |s|
  {
    if s != [] {
      var init := s[..|s| - 1];
      var x := s[|s| - 1];
      assert s == init + [x];
      assert NoDup(init) by {
        forall i, j | 0 <= i < j < |init|
          ensures init[i] != init[j]
        {
          assert init[i] == s[i] && init[j] == s[j];
        }
      }
      NoDupCard(init);
      assert Elems(s) == Elems(init) + {x};
    }
  }

  /** The index of the first occurrence of `x` in `s`. */
  function FirstIndex<T(==)>(s: seq<T>, x: T): (i: nat)
    requires x in s
    ensures i < |s| && s[i] == x
    ensures forall j :: 0 <= j < i ==> s[j] != x
  {
    if s[0] == x then 0 else 1 + FirstIndex(s[1..], x)
  }

  /** The elements of `s` occur in `ref`, and `s` lists them in the order they first occur there. */
  ghost predicate InFirstOrder<T>(s: seq<T>, ref: seq<T>) {
    && (forall i :: 0 <= i < |s| ==> s[i] in ref)
    && (forall i, j :: 0 <= i < j < |s| ==> s[i] in ref && s[j] in ref && FirstIndex(ref, s[i]) < FirstIndex(ref, s[j]))
  }

  lemma FirstIndexAppend<T>(s: seq<T>, t: seq<T>, x: T)
    requires x in s
    ensures FirstIndex(s + t, x) == FirstIndex(s, x)
  {
    var a, b := FirstIndex(s + t, x), FirstIndex(s, x);
    assert (s + t)[b] == x;
    assert a <= b;
    assert s[a] == x;
  }

  lemma FirstIndexNew<T>(s: seq<T>, x: T)
    requires x !in s
    ensures FirstIndex(s + [x], x) == |s|
  {
    var a := FirstIndex(s + [x], x);
    assert a >= |s|;
  }

  /** The key of each append, in order. */
  function Firsts<K, V>(ps: seq<(K, V)>): (r: seq<K>)
    ensures |r| == |ps|
    ensures forall i :: 0 <= i < |ps| ==> r[i] == ps[i].0
  {
    if ps == [] then [] else Firsts(ps[..|ps| - 1]) + [ps[|ps| - 1].0]
  }

  lemma FirstsAppend<K, V>(a: seq<(K, V)>, b: seq<(K, V)>)
    ensures Firsts(a + b) == Firsts(a) + Firsts(b)
  {
    assert forall i :: 0 <= i < |a + b| ==> Firsts(a + b)[i] == (Firsts(a) + Firsts(b))[i];
  }

  /** The dictionary's keys are in the order in which they were first appended to. */
  lemma {:induction false} KeysOfInFirstOrder<K(!new), V>(ps: seq<(K, V)>)
    ensures InFirstOrder(KeysOf(ps), Firsts(ps))
  {
    if ps != [] {
      var init := ps[..|ps| - 1];
      var k := ps[|ps| - 1].0;
      var ks := KeysOf(init);
      var fs := Firsts(init);
      KeysOfInFirstOrder(init);
      KeysOfSpec(init);
      assert Firsts(ps) == fs + [k];
      assert forall x :: x in ks <==> x in fs by {
        forall x
          ensures x in ks <==> x in fs
        {
          if x in fs {
            var i :| 0 <= i < |fs| && fs[i] == x;
            assert init[i].0 == x;
          }
          if x in ks {
            var i :| 0 <= i < |init| && init[i].0 == x;
            assert fs[i] == x;
          }
        }
      }
      forall x | x in ks
        ensures FirstIndex(fs + [k], x) == FirstIndex(fs, x)
      {
        FirstIndexAppend(fs, [k], x);
      }
      if k !in ks {
        FirstIndexNew(fs, k);
        InFirstOrderSnoc(ks, k, fs + [k]);
      }
    }
  }

  /** Appending an element first listed after all others keeps the order. */
  lemma InFirstOrderSnoc<T>(s: seq<T>, x: T, ref: seq<T>)
    requires InFirstOrder(s, ref) && x in ref
    requires forall y :: y in s ==> y in ref && FirstIndex(ref, y) < FirstIndex(ref, x)
    ensures InFirstOrder(s + [x], ref)
  {
    var s' := s + [x];
    forall i, j | 0 <= i < j < |s'|
      ensures s'[i] in ref && s'[j] in ref && FirstIndex(ref, s'[i]) < FirstIndex(ref, s'[j])
    {
      if j < |s| {
        assert s'[i] == s[i] && s'[j] == s[j];
      } else {
        assert s'[i] == s[i];
      }
    }
  }
}
