/** Counting dictionaries as analyze_repository_data (backend/app/github.py) builds them:
    `d[k] = d.get(k, 0) + 1` over a stream of keys, the items sorted by count with
    `sorted(d.items(), key=lambda x: x[1], reverse=True)`, and the sums over the top 10%
    and the bottom 50% of that ranking. A dictionary is the list of its items in
    insertion order, which is the order Python iterates it in. */
module Counting {
  import opened Common

  // ---------------------------------------------------------------------------
  // Counting
  // ---------------------------------------------------------------------------

  /** `d.get(k, 0)`. */
  function CountOf<K(==)>(d: seq<(K, nat)>, k: K): nat
  {
    match Lookup(d, k)
    case None => 0
    case Some(n) => n
  }

  /** The sum of the counts, `sum(d.values())`. */
  function CountSum<K>(d: seq<(K, nat)>): nat
  {
    if d == [] then 0 else d[0].1 + CountSum(d[1..])
  }

  lemma {:induction false} CountSumAppend<K>(a: seq<(K, nat)>, b: seq<(K, nat)>)
    ensures CountSum(a + b) == CountSum(a) + CountSum(b)
  {
    if a != [] {
      assert (a + b)[0] == a[0] && (a + b)[1..] == a[1..] + b;
      CountSumAppend(a[1..], b);
    } else {
      assert a + b == b;
    }
  }

  /** `d[k] = d.get(k, 0) + 1`: an existing key keeps its place, a new one goes last. */
  function Increment<K(==)>(d: seq<(K, nat)>, k: K): seq<(K, nat)>
  {
    if d == [] then [(k, 1)]
    else if d[0].0 == k then [(k, d[0].1 + 1)] + d[1..]
    else [d[0]] + Increment(d[1..], k)
  }

  /** Incrementing adds the key at the end when it is new and otherwise keeps the keys. */
  lemma {:induction false} IncrementKeys<K>(d: seq<(K, nat)>, k: K)
    ensures KeysOf(Increment(d, k)) == if k in KeysOf(d) then KeysOf(d) else KeysOf(d) + [k]
  {
    if d != [] && d[0].0 != k {
      IncrementKeys(d[1..], k);
      assert KeysOf(d) == [d[0].0] + KeysOf(d[1..]);
      assert KeysOf(Increment(d, k)) == [d[0].0] + KeysOf(Increment(d[1..], k));
      assert k in KeysOf(d) <==> k in KeysOf(d[1..]);
    }
  }

  /** Incrementing raises the count of `k` by one and no other count. */
  lemma {:induction false} IncrementCount<K>(d: seq<(K, nat)>, k: K, j: K)
    ensures CountOf(Increment(d, k), j) == CountOf(d, j) + (if j == k then 1 else 0)
  {
    if d != [] && d[0].0 != k {
      IncrementCount(d[1..], k, j);
    }
  }

  lemma {:induction false} IncrementSum<K>(d: seq<(K, nat)>, k: K)
    ensures CountSum(Increment(d, k)) == CountSum(d) + 1
  {
    if d != [] && d[0].0 != k {
      IncrementSum(d[1..], k);
    }
  }

  /** The dictionary the counting loop builds from `keys`. */
  function Tally<K(==)>(keys: seq<K>): seq<(K, nat)>
  {
    if keys == [] then [] else Increment(Tally(keys[..|keys| - 1]), keys[|keys| - 1])
  }

  /** Every key seen is stored once, in the order of first appearance... */
  lemma {:induction false} TallyKeys<K>(keys: seq<K>)
    ensures DistinctKeys(Tally(keys))
    ensures forall k :: k in KeysOf(Tally(keys)) <==> k in keys
  {
    if keys != [] {
      var init := keys[..|keys| - 1];
      var last := keys[|keys| - 1];
      var t := Tally(init);
      var t2 := Tally(keys);
      assert t2 == Increment(t, last);
      TallyKeys(init);
      IncrementKeys(t, last);
      assert keys == init + [last];
      var ks, ks2 := KeysOf(t), KeysOf(t2);
      forall i, j | 0 <= i < j < |t2|
        ensures t2[i].0 != t2[j].0
      {
        assert ks2[i] == t2[i].0 && ks2[j] == t2[j].0;
        if last in ks {
          assert ks2[i] == t[i].0 && ks2[j] == t[j].0;
        } else if j < |t| {
          assert ks2[i] == t[i].0 && ks2[j] == t[j].0;
        } else {
          assert ks2[j] == last && ks2[i] == ks[i];
        }
      }
    }
  }

  /** ...with the number of times it occurs... */
  lemma {:induction false} TallyCounts<K>(keys: seq<K>, k: K)
    ensures CountOf(Tally(keys), k) == multiset(keys)[k]
  {
    if keys != [] {
      var init := keys[..|keys| - 1];
      var last := keys[|keys| - 1];
      TallyCounts(init, k);
      IncrementCount(Tally(init), last, k);
      assert keys == init + [last];
    }
  }

  /** ...so the counts add up to the number of keys... */
  lemma {:induction false} TallySum<K>(keys: seq<K>)
    ensures CountSum(Tally(keys)) == |keys|
  {
    if keys != [] {
      TallySum(keys[..|keys| - 1]);
      IncrementSum(Tally(keys[..|keys| - 1]), keys[|keys| - 1]);
    }
  }

  /** ...and there are as many entries as distinct keys. */
  lemma TallySize<K>(keys: seq<K>)
    ensures |Tally(keys)| == |set k | k in keys|
  {
    var t := Tally(keys);
    TallyKeys(keys);
    DistinctCard(KeysOf(t));
    assert (set k | k in KeysOf(t)) == (set k | k in keys);
  }

  lemma {:induction false} DistinctCard<K>(s: seq<K>)
    requires forall i, j :: 0 <= i < j < |s| ==> s[i] != s[j]
    ensures |set x | x in s| == |s|
  {
    if s != [] {
      var init := s[..|s| - 1];
      DistinctCard(init);
      assert (set x | x in s) == (set x | x in init) + {s[|s| - 1]};
      assert s[|s| - 1] !in init;
    }
  }

  // ---------------------------------------------------------------------------
  // Ranking by count
  // ---------------------------------------------------------------------------

  predicate RankedByCount<K>(s: seq<(K, nat)>)
  {
    forall i, j :: 0 <= i < j < |s| ==> s[i].1 >= s[j].1
  }

  /** Places `x` before the first item whose count is not larger, so that items with
      equal counts stay in their original order, as Python's stable sort keeps them. */
  function InsertByCount<K(==)>(x: (K, nat), s: seq<(K, nat)>): (r: seq<(K, nat)>)
    ensures multiset(r) == multiset(s) + multiset{x}
    ensures CountSum(r) == x.1 + CountSum(s)
  {
    if s == [] || s[0].1 <= x.1 then [x] + s
    else
      var rest := InsertByCount(x, s[1..]);
      assert s == [s[0]] + s[1..];
      [s[0]] + rest
  }

  /** Inserting an item whose count is within a bound keeps every count within it. */
  lemma {:induction false} InsertByCountBounded<K>(x: (K, nat), s: seq<(K, nat)>, m: nat)
    requires x.1 <= m && forall i :: 0 <= i < |s| ==> s[i].1 <= m
    ensures forall i :: 0 <= i < |InsertByCount(x, s)| ==> InsertByCount(x, s)[i].1 <= m
  {
    if s != [] && s[0].1 > x.1 {
      InsertByCountBounded(x, s[1..], m);
    }
  }

  lemma PrependRanked<K>(h: (K, nat), rest: seq<(K, nat)>)
    requires RankedByCount(rest) && forall i :: 0 <= i < |rest| ==> rest[i].1 <= h.1
    ensures RankedByCount([h] + rest)
  {
    var r := [h] + rest;
    forall i, j | 0 <= i < j < |r|
      ensures r[i].1 >= r[j].1
    {
      assert r[j] == rest[j - 1];
      if i > 0 {
        assert r[i] == rest[i - 1];
      }
    }
  }

  lemma {:induction false} InsertByCountRanked<K>(x: (K, nat), s: seq<(K, nat)>)
    requires RankedByCount(s)
    ensures RankedByCount(InsertByCount(x, s))
  {
    if s != [] && s[0].1 > x.1 {
      InsertByCountRanked(x, s[1..]);
      InsertByCountBounded(x, s[1..], s[0].1);
      PrependRanked(s[0], InsertByCount(x, s[1..]));
    } else {
      PrependRanked(x, s);
    }
  }

  /** `sorted(d.items(), key=lambda x: x[1], reverse=True)`. */
  function Rank<K(==)>(d: seq<(K, nat)>): (r: seq<(K, nat)>)
    ensures multiset(r) == multiset(d)
    ensures CountSum(r) == CountSum(d)
  {
    if d == [] then []
    else
      assert d == [d[0]] + d[1..];
      InsertByCount(d[0], Rank(d[1..]))
  }

  lemma {:induction false} RankOrdered<K>(d: seq<(K, nat)>)
    ensures RankedByCount(Rank(d))
  {
    if d != [] {
      RankOrdered(d[1..]);
      InsertByCountRanked(d[0], Rank(d[1..]));
    }
  }

  lemma RankLength<K>(d: seq<(K, nat)>)
    ensures |Rank(d)| == |d|
  {
    assert |multiset(Rank(d))| == |multiset(d)|;
  }

  /** The ranking is in descending order of count and holds exactly the same items. */
  lemma RankSorted<K>(d: seq<(K, nat)>)
    ensures RankedByCount(Rank(d)) && multiset(Rank(d)) == multiset(d) && |Rank(d)| == |d|
  {
    RankOrdered(d);
    RankLength(d);
  }

  /** The items whose count is `c`, in their order in `s`. */
  function WithCount<K>(s: seq<(K, nat)>, c: nat): seq<(K, nat)>
  {
    if s == [] then []
    else (if s[0].1 == c then [s[0]] else []) + WithCount(s[1..], c)
  }

  /** Inserting `x` puts it ahead of every item with the same count, and leaves the
      order of those items alone. */
  lemma {:induction false} InsertByCountStable<K>(x: (K, nat), s: seq<(K, nat)>, c: nat)
    ensures WithCount(InsertByCount(x, s), c) == (if x.1 == c then [x] else []) + WithCount(s, c)
  {
    if s == [] || s[0].1 <= x.1 {
      assert ([x] + s)[1..] == s;
    } else {
      var rest := InsertByCount(x, s[1..]);
      InsertByCountStable(x, s[1..], c);
      assert ([s[0]] + rest)[1..] == rest;
    }
  }

  /** The ranking is stable: for every count, the items with that count appear in the
      ranking in the order the dictionary holds them. */
  lemma {:induction false} RankStable<K>(d: seq<(K, nat)>, c: nat)
    ensures WithCount(Rank(d), c) == WithCount(d, c)
  {
    if d != [] {
      RankStable(d[1..], c);
      InsertByCountStable(d[0], Rank(d[1..]), c);
    }
  }

  // ---------------------------------------------------------------------------
  // commit_distribution
  // ---------------------------------------------------------------------------

  /** 'top_10_percent': the counts of the first max(1, n // 10) ranked items. */
  function TopTenPercent<K>(ranked: seq<(K, nat)>): nat
  {
    CountSum(Take(ranked, Max(1, |ranked| / 10)))
  }

  /** 'bottom_50_percent': the counts from position n // 2 on. */
  function BottomFiftyPercent<K>(ranked: seq<(K, nat)>): nat
  {
    CountSum(ranked[|ranked| / 2..])
  }

  /** Both sums are parts of the total, they do not overlap once there are two authors,
      and the top sum is at least the largest count. */
  lemma CommitDistributionBounds<K>(d: seq<(K, nat)>)
    ensures TopTenPercent(Rank(d)) <= CountSum(d) && BottomFiftyPercent(Rank(d)) <= CountSum(d)
    ensures |d| >= 2 ==> TopTenPercent(Rank(d)) + BottomFiftyPercent(Rank(d)) <= CountSum(d)
    ensures forall i :: 0 <= i < |d| ==> TopTenPercent(Rank(d)) >= d[i].1
  {
    var r := Rank(d);
    RankSorted(d);
    RankedSums(r);
    forall i | 0 <= i < |d|
      ensures TopTenPercent(r) >= d[i].1
    {
      assert d[i] in multiset(r);
    }
  }

  lemma RankedSums<K>(r: seq<(K, nat)>)
    requires RankedByCount(r)
    ensures TopTenPercent(r) <= CountSum(r) && BottomFiftyPercent(r) <= CountSum(r)
    ensures |r| >= 2 ==> TopTenPercent(r) + BottomFiftyPercent(r) <= CountSum(r)
    ensures forall e :: e in r ==> TopTenPercent(r) >= e.1
  {
    var n := |r|;
    var a := Max(1, n / 10);
    if n > 0 {
      assert Take(r, a) == r[..a];
      SplitSums(r, a, n / 2);
      assert CountSum(r[..a]) >= r[0].1 by {
        assert r[..a][0] == r[0];
      }
    }
  }

  /** Cutting at `a` and at `h` splits the total into the three parts. */
  lemma SplitSums<K>(r: seq<(K, nat)>, a: nat, h: nat)
    requires a <= |r| && h <= |r|
    ensures CountSum(r[..a]) <= CountSum(r) && CountSum(r[h..]) <= CountSum(r)
    ensures a <= h ==> CountSum(r[..a]) + CountSum(r[h..]) <= CountSum(r)
  {
    assert r == r[..a] + r[a..];
    CountSumAppend(r[..a], r[a..]);
    assert r == r[..h] + r[h..];
    CountSumAppend(r[..h], r[h..]);
    if a <= h {
      assert r[a..] == r[a..h] + r[h..];
      CountSumAppend(r[a..h], r[h..]);
    }
  }

  /** `top / topSize >= bottom / bottomSize` for positive sizes, without division. */
  predicate AverageAtLeast(top: nat, topSize: nat, bottom: nat, bottomSize: nat)
  {
    top * bottomSize >= bottom * topSize
  }

  /** Per author, the top group's average is at least the bottom group's. The top
      group has max(1, n // 10) authors and the bottom group n - n // 2. */
  lemma {:induction false} TopAverageAtLeastBottomAverage<K>(d: seq<(K, nat)>)
    requires |d| >= 2
    ensures AverageAtLeast(TopTenPercent(Rank(d)), Max(1, |d| / 10), BottomFiftyPercent(Rank(d)), |d| - |d| / 2)
  {
    RankOrdered(d);
    RankLength(d);
    RankedAverages(Rank(d), |d|);
  }

  lemma {:induction false} RankedAverages<K>(r: seq<(K, nat)>, n: nat)
    requires RankedByCount(r) && |r| == n && n >= 2
    ensures AverageAtLeast(TopTenPercent(r), Max(1, n / 10), BottomFiftyPercent(r), n - n / 2)
  {
    var a := Max(1, n / 10);
    var m := r[a - 1].1;
    assert Take(r, a) == r[..a];
    SumAtLeast(r[..a], m);
    SumAtMost(r[n / 2..], m);
    AverageStep(TopTenPercent(r), BottomFiftyPercent(r), a, n - n / 2, m);
  }

  lemma AverageStep(top: int, bottom: int, a: int, b: int, m: int)
    requires a >= 0 && b >= 0 && top >= a * m && bottom <= b * m
    ensures top * b >= bottom * a
  {
    MulMono(top, a * m, b);
    MulMono(b * m, bottom, a);
    assert a * m * b == b * m * a;
  }

  lemma {:induction false} SumAtLeast<K>(s: seq<(K, nat)>, m: int)
    requires forall i :: 0 <= i < |s| ==> s[i].1 >= m
    ensures CountSum(s) >= |s| * m
  {
    if s != [] {
      SumAtLeast(s[1..], m);
    }
  }

  lemma {:induction false} SumAtMost<K>(s: seq<(K, nat)>, m: int)
    requires forall i :: 0 <= i < |s| ==> s[i].1 <= m
    ensures CountSum(s) <= |s| * m
  {
    if s != [] {
      SumAtMost(s[1..], m);
    }
  }

  lemma MulMono(x: int, y: int, z: int)
    requires x >= y && z >= 0
    ensures x * z >= y * z
  {
  }

  lemma MulAssoc(x: int, y: int, z: int)
    ensures x * (y * z) == (x * y) * z
  {
  }

  /** `sorted(d.items(), key=lambda x: x[1], reverse=True)[:n]`. */
  function TopOf<K(==)>(d: seq<(K, nat)>, n: nat): seq<(K, nat)>
  {
    Take(Rank(d), n)
  }

  lemma PrefixLargest<K>(r: seq<(K, nat)>, m: nat)
    requires RankedByCount(r) && m <= |r|
    ensures RankedByCount(r[..m]) && multiset(r[..m]) <= multiset(r)
    ensures forall x, y :: x in r && x !in r[..m] && y in r[..m] ==> x.1 <= y.1
  {
    assert r == r[..m] + r[m..];
    assert multiset(r) == multiset(r[..m]) + multiset(r[m..]);
    forall x, y | x in r && x !in r[..m] && y in r[..m]
      ensures x.1 <= y.1
    {
      var j :| 0 <= j < |r| && r[j] == x;
      var i :| 0 <= i < m && r[..m][i] == y;
      assert j >= m;
      assert r[i] == y;
    }
  }

  /** The first `n` of the ranking are the `n` largest counts: they come from `d`, in
      descending order, and every item of `d` left out counts no more than any of them. */
  lemma {:induction false} TopOfLargest<K>(d: seq<(K, nat)>, n: nat)
    ensures |TopOf(d, n)| == Min(n, |d|)
    ensures RankedByCount(TopOf(d, n)) && multiset(TopOf(d, n)) <= multiset(d)
    ensures forall x, y :: x in d && x !in TopOf(d, n) && y in TopOf(d, n) ==> x.1 <= y.1
  {
    var r := Rank(d);
    RankOrdered(d);
    RankLength(d);
    var m := Min(n, |d|);
    assert TopOf(d, n) == r[..m];
    PrefixLargest(r, m);
    forall x | x in d
      ensures x in r
    {
      assert x in multiset(d);
    }
  }
}
