/** The two diagnostic histograms the compositor keeps: a dictionary from pixel
    offset to occurrences (`_offsets`) and a fixed array of per-view sample
    counts (`_counts`). Both only ever grow by one per sample. */
module Histograms {

  /** Number of occurrences of v in s. */
  function Count<T(==)>(s: seq<T>, v: T): (n: nat)
    ensures n <= |s|
  {
    if |s| == 0 then 0 else Count(s[..|s| - 1], v) + (if s[|s| - 1] == v then 1 else 0)
  }

  /** A value occurs a positive number of times exactly when it is present. */
  lemma {:induction false} CountPositive<T>(s: seq<T>, v: T)
    ensures Count(s, v) > 0 <==> v in s
  {
    if |s| > 0 {
      CountPositive(s[..|s| - 1], v);
      assert s == s[..|s| - 1] + [s[|s| - 1]];
    }
  }

  /** Counting distributes over concatenation. */
  lemma {:induction false} CountAppend<T>(a: seq<T>, b: seq<T>, v: T)
    ensures Count(a + b, v) == Count(a, v) + Count(b, v)
  {
    if |b| == 0 {
      assert a + b == a;
    } else {
      assert (a + b)[..|a + b| - 1] == a + b[..|b| - 1];
      CountAppend(a, b[..|b| - 1], v);
    }
  }

  /** Counting one more element. */
  lemma CountSnoc<T>(s: seq<T>, x: T, v: T)
    ensures Count(s + [x], v) == Count(s, v) + (if x == v then 1 else 0)
  {
    assert (s + [x])[..|s|] == s;
  }

  /** The dictionary's value for k, zero when k was never seen. */
  function Lookup(m: map<int, int>, k: int): int
  {
    if k in m then m[k] else 0
  }

  /** `if (!d.ContainsKey(k)) d.Add(k, 0); d[k] = d[k] + 1;` */
  function Bump(m: map<int, int>, k: int): map<int, int>
  {
    m[k := Lookup(m, k) + 1]
  }

  /** A bump raises key k by one, adding it with count 0 first when absent,
      and leaves every other key as it was. */
  lemma BumpAt(m: map<int, int>, k: int, j: int)
    ensures Bump(m, k).Keys == m.Keys + {k}
    ensures Lookup(Bump(m, k), j) == Lookup(m, j) + (if j == k then 1 else 0)
  {
  }

  /** The dictionary after bumping every key of `keys`, in order. */
  function Tally(m: map<int, int>, keys: seq<int>): map<int, int>
  {
    if |keys| == 0 then m else Bump(Tally(m, keys[..|keys| - 1]), keys[|keys| - 1])
  }

  /** Each key's value grows by the number of times the key was bumped. */
  lemma {:induction false} TallyAt(m: map<int, int>, keys: seq<int>, k: int)
    ensures Lookup(Tally(m, keys), k) == Lookup(m, k) + Count(keys, k)
  {
    if |keys| > 0 {
      TallyAt(m, keys[..|keys| - 1], k);
    }
  }

  /** A key is present afterwards exactly when it was present before or was bumped. */
  lemma {:induction false} TallyKeys(m: map<int, int>, keys: seq<int>, k: int)
    ensures k in Tally(m, keys) <==> k in m || k in keys
  {
    if |keys| > 0 {
      var init := keys[..|keys| - 1];
      TallyKeys(m, init, k);
      assert keys == init + [keys[|keys| - 1]];
    }
  }

  /** Bumping a sequence of keys in two parts is bumping them all. */
  lemma {:induction false} TallyAppend(m: map<int, int>, a: seq<int>, b: seq<int>)
    ensures Tally(m, a + b) == Tally(Tally(m, a), b)
  {
    if |b| == 0 {
      assert a + b == a;
    } else {
      assert (a + b)[..|a + b| - 1] == a + b[..|b| - 1];
      TallyAppend(m, a, b[..|b| - 1]);
    }
  }

  /** Tallying one more key is one more bump. */
  lemma TallySnoc(m: map<int, int>, keys: seq<int>, k: int)
    ensures Tally(m, keys + [k]) == Bump(Tally(m, keys), k)
  {
    assert (keys + [k])[..|keys|] == keys;
  }

  lemma NonEmpty(s: set<int>)
    requires s != {}
    ensures exists k :: k in s
  {
    assert (forall k :: k !in s) ==> s == {};
  }

  /** Total of the dictionary's values over the given keys. */
  ghost function SumOver(m: map<int, int>, keys: set<int>): int
    requires keys <= m.Keys
  {
    if keys == {} then 0
    else
      NonEmpty(keys);
      var k :| k in keys;
      m[k] + SumOver(m, keys - {k})
  }

  /** Total of all the dictionary's values. */
  ghost function MapSum(m: map<int, int>): int
  {
    SumOver(m, m.Keys)
  }

  /** The total does not depend on the key taken out first. */
  lemma {:induction false} SumOverRemove(m: map<int, int>, keys: set<int>, k: int)
    requires keys <= m.Keys && k in keys
    ensures SumOver(m, keys) == m[k] + SumOver(m, keys - {k})
    decreases keys
  {
    var j :| j in keys && SumOver(m, keys) == m[j] + SumOver(m, keys - {j});
    if j != k {
      SumOverRemove(m, keys - {j}, k);
      SumOverRemove(m, keys - {k}, j);
      assert keys - {j} - {k} == keys - {k} - {j};
    }
  }

  /** Two dictionaries that agree on some keys have the same total over them. */
  lemma {:induction false} SumOverAgree(m1: map<int, int>, m2: map<int, int>, keys: set<int>)
    requires keys <= m1.Keys && keys <= m2.Keys
    requires forall k :: k in keys ==> m1[k] == m2[k]
    ensures SumOver(m1, keys) == SumOver(m2, keys)
    decreases keys
  {
    if keys != {} {
      NonEmpty(keys);
      var k :| k in keys;
      SumOverRemove(m1, keys, k);
      SumOverRemove(m2, keys, k);
      SumOverAgree(m1, m2, keys - {k});
    }
  }

  /** One bump adds one to the total. */
  lemma MapSumBump(m: map<int, int>, k: int)
    ensures MapSum(Bump(m, k)) == MapSum(m) + 1
  {
    var r := Bump(m, k);
    var rest := m.Keys - {k};
    SumOverRemove(r, r.Keys, k);
    assert r.Keys - {k} == rest;
    SumOverAgree(r, m, rest);
    if k in m {
      SumOverRemove(m, m.Keys, k);
    } else {
      assert rest == m.Keys;
    }
  }

  /** Bumping n keys adds n to the total. */
  lemma {:induction false} MapSumTally(m: map<int, int>, keys: seq<int>)
    ensures MapSum(Tally(m, keys)) == MapSum(m) + |keys|
  {
    if |keys| > 0 {
      MapSumTally(m, keys[..|keys| - 1]);
      MapSumBump(Tally(m, keys[..|keys| - 1]), keys[|keys| - 1]);
    }
  }

  /** Total of the per-view counts. */
  function Sum(s: seq<int>): int
  {
    if |s| == 0 then 0 else Sum(s[..|s| - 1]) + s[|s| - 1]
  }

  /** `counts[i]++` adds one to the total. */
  lemma {:induction false} SumBump(s: seq<int>, i: nat)
    requires i < |s|
    ensures Sum(s[i := s[i] + 1]) == Sum(s) + 1
  {
    var t := s[i := s[i] + 1];
    if i < |s| - 1 {
      assert t[..|t| - 1] == s[..|s| - 1][i := s[i] + 1];
      SumBump(s[..|s| - 1], i);
    } else {
      assert t[..|t| - 1] == s[..|s| - 1];
    }
  }

  /** The per-view counts after `counts[i]++` for every index of `indices`, in
      order. In the program an index outside the counts would throw; it cannot
      arise, since every view index is at most 7 (Lens.ViewIndex), and it is
      skipped here only to keep the function total. */
  function TallyCounts(s: seq<int>, indices: seq<int>): (r: seq<int>)
    ensures |r| == |s|
  {
    if |indices| == 0 then s
    else
      var t := TallyCounts(s, indices[..|indices| - 1]);
      var i := indices[|indices| - 1];
      if 0 <= i < |t| then t[i := t[i] + 1] else t
  }

  /** Each count grows by the number of times its index was sampled. */
  lemma {:induction false} TallyCountsAt(s: seq<int>, indices: seq<int>, i: nat)
    requires i < |s|
    ensures TallyCounts(s, indices)[i] == s[i] + Count(indices, i)
  {
    if |indices| > 0 {
      TallyCountsAt(s, indices[..|indices| - 1], i);
    }
  }

  /** When every index is in range, the counts' total grows by the number of
      samples. */
  lemma {:induction false} TallyCountsSum(s: seq<int>, indices: seq<int>)
    requires forall j :: 0 <= j < |indices| ==> 0 <= indices[j] < |s|
    ensures Sum(TallyCounts(s, indices)) == Sum(s) + |indices|
  {
    if |indices| > 0 {
      var init := indices[..|indices| - 1];
      TallyCountsSum(s, init);
      SumBump(TallyCounts(s, init), indices[|indices| - 1]);
    }
  }

  /** Counts that grew, index by index, by the occurrences of that index
      among in-range samples total the old counts plus the number of samples. */
  lemma CountsSum(s: seq<int>, t: seq<int>, indices: seq<int>)
    requires |t| == |s|
    requires forall v :: 0 <= v < |s| ==> t[v] == s[v] + Count(indices, v)
    requires forall j :: 0 <= j < |indices| ==> 0 <= indices[j] < |s|
    ensures Sum(t) == Sum(s) + |indices|
  {
    forall v | 0 <= v < |s|
      ensures t[v] == TallyCounts(s, indices)[v]
    {
      TallyCountsAt(s, indices, v);
    }
    assert t == TallyCounts(s, indices);
    TallyCountsSum(s, indices);
  }

  /** Counting one more in-range index is one more increment. */
  lemma TallyCountsSnoc(s: seq<int>, indices: seq<int>, i: nat)
    requires i < |s|
    ensures TallyCounts(s, indices + [i]) == TallyCounts(s, indices)[i := TallyCounts(s, indices)[i] + 1]
  {
    assert (indices + [i])[..|indices|] == indices;
  }

  /** Counting a sequence of indices in two parts is counting them all. */
  lemma {:induction false} TallyCountsAppend(s: seq<int>, a: seq<int>, b: seq<int>)
    ensures TallyCounts(s, a + b) == TallyCounts(TallyCounts(s, a), b)
  {
    if |b| == 0 {
      assert a + b == a;
    } else {
      assert (a + b)[..|a + b| - 1] == a + b[..|b| - 1];
      TallyCountsAppend(s, a, b[..|b| - 1]);
    }
  }
}
