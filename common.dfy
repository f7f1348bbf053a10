/** Small shared vocabulary: optional values, results, Python-style slicing and
    filtering, and insertion-ordered dictionaries represented as association lists. */
module Common {

  datatype Option<+T> = None | Some(value: T)

  datatype Result<+T, +E> = Ok(value: T) | Err(error: E)

  function Min(a: int, b: int): int { if a <= b then a else b }

  function Max(a: int, b: int): int { if a >= b then a else b }

  /** Python's `s[:n]` for a non-negative `n`. */
  function Take<T>(s: seq<T>, n: nat): (r: seq<T>)
    ensures |r| == Min(n, |s|)
    ensures r <= s
  {
    if n < |s| then s[..n] else s
  }

  /** A list comprehension `[x for x in s if p(x)]`. */
  function Filter<T>(s: seq<T>, p: T -> bool): (r: seq<T>)
    ensures |r| <= |s|
    ensures forall x :: x in r ==> x in s && p(x)
    ensures forall x :: x in s && p(x) ==> x in r
  {
    if s == [] then [] else (if p(s[0]) then [s[0]] else []) + Filter(s[1..], p)
  }

  lemma FilterAppend<T>(a: seq<T>, b: seq<T>, p: T -> bool)
    ensures Filter(a + b, p) == Filter(a, p) + Filter(b, p)
  {
    if a != [] {
      assert (a + b)[0] == a[0] && (a + b)[1..] == a[1..] + b;
      FilterAppend(a[1..], b, p);
    } else {
      assert a + b == b;
    }
  }

  /** One step of a loop that filters `s` from the front. */
  lemma FilterStep<T>(s: seq<T>, i: nat, p: T -> bool, kept: bool)
    requires i < |s| && kept == p(s[i])
    ensures Filter(s[..i + 1], p) == Filter(s[..i], p) + (if kept then [s[i]] else [])
  {
    assert s[..i + 1] == s[..i] + [s[i]];
    FilterAppend(s[..i], [s[i]], p);
    assert Filter([s[i]], p) == (if kept then [s[i]] else []);
  }

  /** A weaker condition keeps at least as many elements. */
  lemma {:induction false} FilterWeaker<T>(s: seq<T>, p: T -> bool, q: T -> bool)
    requires forall i :: 0 <= i < |s| ==> p(s[i]) ==> q(s[i])
    ensures |Filter(s, p)| <= |Filter(s, q)|
  {
    if s != [] {
      assert forall i :: 0 <= i < |s[1..]| ==> s[1..][i] == s[i + 1];
      FilterWeaker(s[1..], p, q);
    }
  }

  /** Two conditions no element meets together keep at most all elements between them. */
  lemma {:induction false} FilterDisjoint<T>(s: seq<T>, p: T -> bool, q: T -> bool)
    requires forall i :: 0 <= i < |s| ==> !(p(s[i]) && q(s[i]))
    ensures |Filter(s, p)| + |Filter(s, q)| <= |s|
  {
    if s != [] {
      assert forall i :: 0 <= i < |s[1..]| ==> s[1..][i] == s[i + 1];
      FilterDisjoint(s[1..], p, q);
    }
  }

  /** `a` is obtained from `b` by deleting elements, keeping the order of the rest. */
  predicate IsSubsequence<T(==)>(a: seq<T>, b: seq<T>)
    decreases |b|
  {
    if a == [] then true
    else if b == [] then false
    else (a[0] == b[0] && IsSubsequence(a[1..], b[1..])) || IsSubsequence(a, b[1..])
  }

  lemma {:induction false} FilterIsSubsequence<T>(s: seq<T>, p: T -> bool)
    ensures IsSubsequence(Filter(s, p), s)
  {
    if s != [] {
      FilterIsSubsequence(s[1..], p);
      var r := Filter(s, p);
      if p(s[0]) {
        assert r[0] == s[0] && r[1..] == Filter(s[1..], p);
      } else {
        assert r == Filter(s[1..], p);
      }
    }
  }

  /** Concatenation of a list of lists, in order. */
  function Flatten<T>(ss: seq<seq<T>>): seq<T>
  {
    if ss == [] then [] else Flatten(ss[..|ss| - 1]) + ss[|ss| - 1]
  }

  lemma {:induction false} FlattenAppend<T>(a: seq<seq<T>>, b: seq<seq<T>>)
    ensures Flatten(a + b) == Flatten(a) + Flatten(b)
    decreases |b|
  {
    if b == [] {
      assert a + b == a;
    } else {
      var c := a + b;
      assert c[..|c| - 1] == a + b[..|b| - 1];
      FlattenAppend(a, b[..|b| - 1]);
    }
  }

  lemma SliceSplit<T>(s: seq<T>, a: int, b: int, c: int)
    requires 0 <= a <= b <= c <= |s|
    ensures s[a..c] == s[a..b] + s[b..c]
  {
  }

  lemma FlattenCons<T>(c: seq<T>, rest: seq<seq<T>>)
    ensures Flatten([c] + rest) == c + Flatten(rest)
  {
    FlattenAppend([c], rest);
    assert [c][..0] == [];
  }

  function SeqMap<T, U>(f: T -> U, s: seq<T>): (r: seq<U>)
    ensures |r| == |s| && forall i :: 0 <= i < |s| ==> r[i] == f(s[i])
  {
    seq(|s|, i requires 0 <= i < |s| => f(s[i]))
  }

  lemma SeqMapAppend<T, U>(f: T -> U, a: seq<T>, b: seq<T>)
    ensures SeqMap(f, a + b) == SeqMap(f, a) + SeqMap(f, b)
  {
  }

  /** One step of a loop that appends `f(x)` for each `x` of `s` meeting `p`. */
  lemma MapFilterStep<T, U>(s: seq<T>, i: nat, p: T -> bool, f: T -> U)
    requires i < |s|
    ensures SeqMap(f, Filter(s[..i + 1], p)) ==
      SeqMap(f, Filter(s[..i], p)) + (if p(s[i]) then [f(s[i])] else [])
  {
    FilterStep(s, i, p, p(s[i]));
    SeqMapAppend(f, Filter(s[..i], p), if p(s[i]) then [s[i]] else []);
  }

  /** The elements of `SeqMap(f, Filter(s, p))` are the images of the elements of `s`
      meeting `p`. */
  lemma MapFilterMembership<T, U>(s: seq<T>, p: T -> bool, f: T -> U, y: U)
    ensures y in SeqMap(f, Filter(s, p)) <==> exists i :: 0 <= i < |s| && p(s[i]) && f(s[i]) == y
  {
    var kept := Filter(s, p);
    if y in SeqMap(f, kept) {
      var j :| 0 <= j < |kept| && f(kept[j]) == y;
      assert kept[j] in s;
      var i :| 0 <= i < |s| && s[i] == kept[j];
    }
    if exists i :: 0 <= i < |s| && p(s[i]) && f(s[i]) == y {
      var i :| 0 <= i < |s| && p(s[i]) && f(s[i]) == y;
      assert s[i] in kept;
      var j :| 0 <= j < |kept| && kept[j] == s[i];
      assert SeqMap(f, kept)[j] == y;
    }
  }

  /** Keys of an insertion-ordered dictionary, in insertion order. */
  function KeysOf<K, V>(d: seq<(K, V)>): (r: seq<K>)
    ensures |r| == |d| && forall i :: 0 <= i < |d| ==> r[i] == d[i].0
  {
    seq(|d|, i requires 0 <= i < |d| => d[i].0)
  }

  predicate DistinctKeys<K(==), V>(d: seq<(K, V)>)
  {
    forall i, j :: 0 <= i < j < |d| ==> d[i].0 != d[j].0
  }

  /** `d.get(k)`: the value stored under `k`, if any. */
  function Lookup<K(==), V>(d: seq<(K, V)>, k: K): (r: Option<V>)
    ensures r.None? <==> k !in KeysOf(d)
    ensures r.Some? ==> (k, r.value) in d
  {
    if d == [] then None
    else if d[0].0 == k then Some(d[0].1)
    else Lookup(d[1..], k)
  }

  /** The position of `k` among the keys, as `k in d` finds it. */
  function IndexOfKey<K(==), V>(d: seq<(K, V)>, k: K): (r: Option<nat>)
    ensures r.None? <==> k !in KeysOf(d)
    ensures r.Some? ==> r.value < |d| && d[r.value].0 == k
  {
    if d == [] then None
    else if d[0].0 == k then Some(0)
    else match IndexOfKey(d[1..], k)
      case None => None
      case Some(i) => Some(i + 1)
  }

  function SumInts(s: seq<int>): int
  {
    if s == [] then 0 else s[0] + SumInts(s[1..])
  }

  lemma {:induction false} SumIntsAppend(a: seq<int>, b: seq<int>)
    ensures SumInts(a + b) == SumInts(a) + SumInts(b)
  {
    if a != [] {
      assert (a + b)[0] == a[0] && (a + b)[1..] == a[1..] + b;
      SumIntsAppend(a[1..], b);
    } else {
      assert a + b == b;
    }
  }

  /** `v` is what `max(s, key=key)` returns: an element of `s` whose key no element
      exceeds, and the first such, so every earlier element has a smaller key. */
  ghost predicate FirstMaximum<T>(s: seq<T>, key: T -> real, v: T)
  {
    exists i :: 0 <= i < |s| && s[i] == v &&
      (forall j :: 0 <= j < |s| ==> key(s[j]) <= key(s[i])) &&
      (forall j :: 0 <= j < i ==> key(s[j]) < key(s[i]))
  }

  /** The position `max(s, key=key)` returns: a maximal element, the first of them. */
  function FirstMaxIndex<T>(s: seq<T>, key: T -> real): (r: nat)
    requires |s| > 0
    ensures r < |s|
    ensures forall j :: 0 <= j < |s| ==> key(s[j]) <= key(s[r])
    ensures forall j :: 0 <= j < r ==> key(s[j]) < key(s[r])
  {
    if |s| == 1 then 0
    else
      var m := FirstMaxIndex(s[..|s| - 1], key);
      if key(s[|s| - 1]) > key(s[m]) then |s| - 1 else m
  }
}
