/** List helpers of the chequeparser utilities: random samples of a list,
    splitting a list by a target test, and cutting a list into runs of
    given sizes. */
module Misc {
  import opened Wrappers
  import opened Numeric
  import opened PyList

  /** A possible outcome of `random.sample(range(n), k)`: k distinct positions below n. */
  predicate IsDraw(indices: seq<nat>, n: nat, k: nat) {
    |indices| == k && Distinct(indices) && forall i :: 0 <= i < |indices| ==> indices[i] < n
  }

  /** The elements of pool at some draw of k distinct positions. */
  ghost predicate SampleOf<T>(samples: seq<T>, pool: seq<T>, k: nat) {
    exists idx :: IsDraw(idx, |pool|, k) && samples == Pick(pool, idx)
  }

  /** get_samples: k is clamped to the list's length, a negative k is a
      ValueError, and otherwise k distinct positions are drawn at random
      (any draw may come out) and returned with the elements there. */
  method GetSamples<T>(source: seq<T>, k: int := 5) returns (r: Result<(seq<T>, seq<nat>)>)
    ensures r.Err? <==> k < 0
    ensures r.Err? ==> r.error == ValueError
    ensures r.Ok? ==> IsDraw(r.value.1, |source|, Min(k, |source|)) && r.value.0 == Pick(source, r.value.1)
  {
    var kk := k;
    if kk > |source| {
      kk := |source|;
    }
    if kk < 0 {
      return Err(ValueError);
    }
    assert IsDraw(Range(kk), |source|, kk);
    var indices: seq<nat> :| IsDraw(indices, |source|, kk);
    assert IsDraw(indices, |source|, kk);
    return Ok((Pick(source, indices), indices));
  }

  /** The positions of a sequence, as a set. */
  function Elements(s: seq<nat>): (r: set<nat>)
    ensures forall x :: x in r <==> x in s
  {
    set i | 0 <= i < |s| :: s[i]
  }

  /** A sequence without repeats has as many elements as positions. */
  lemma {:induction false} DistinctCard(s: seq<nat>)
    requires Distinct(s)
    ensures |Elements(s)| == |s|
  {
    if s != [] {
      var init := s[..|s| - 1];
      DistinctCard(init);
      assert Elements(s) == Elements(init) + {s[|s| - 1]};
    }
  }

  /** {0, ..., n-1}. */
  function Below(n: nat): (r: set<nat>)
    ensures |r| == n
    ensures forall x :: x in r <==> 0 <= x < n
  {
    if n == 0 then {}
    else
      var r := Below(n - 1) + {n - 1};
      assert n - 1 !in Below(n - 1);
      r
  }

  /** A draw of as many positions as the list has takes every position, so
      `get_samples(l, k)` with k at least len(l) returns all of l, shuffled. */
  lemma {:induction false} FullDrawCoversAll(indices: seq<nat>, n: nat)
    requires IsDraw(indices, n, n)
    ensures forall j :: 0 <= j < n ==> j in indices
  {
    DistinctCard(indices);
    var e := Elements(indices);
    assert e <= Below(n);
    forall j | 0 <= j < n ensures j in indices {
      if j !in indices {
        assert e <= Below(n) - {j};
        assert |Below(n) - {j}| == n - 1;
        SubsetCard(e, Below(n) - {j});
      }
    }
  }

  lemma {:induction false} SubsetCard(a: set<nat>, b: set<nat>)
    requires a <= b
    ensures |a| <= |b|
  {
    assert b == a + (b - a);
  }

  /** A sample is drawn from the pool: its size is the requested one, each
      element comes from the pool, and no position is taken twice. */
  lemma {:induction false} SampleFromPool<T>(samples: seq<T>, pool: seq<T>, k: nat)
    requires SampleOf(samples, pool, k)
    ensures |samples| == k <= |pool|
    ensures forall i :: 0 <= i < |samples| ==> samples[i] in pool
    ensures Distinct(pool) ==> Distinct(samples)
  {
    var idx :| IsDraw(idx, |pool|, k) && samples == Pick(pool, idx);
    DistinctCard(idx);
    SubsetCard(Elements(idx), Below(|pool|));
    forall i | 0 <= i < |samples| ensures samples[i] in pool {
      assert samples[i] == pool[idx[i]];
    }
    if Distinct(pool) {
      PickDistinct(pool, idx);
    }
  }

  /** The negation of the target test: the items filter_list sets aside. */
  function Negate<T>(tgt: T -> bool): T -> bool {
    x => !tgt(x)
  }

  /** filter_list: each item passing the target test is mapped by the
      condition into the output list, in order; of the other items a random
      sample of num_samples is returned (all of them when fewer). A negative
      num_samples fails in get_samples, after the loop. */
  method FilterList<T, U>(source: seq<T>, tgt: T -> bool, cond: T -> U, numSamples: int := 5)
    returns (r: Result<(seq<U>, seq<T>)>)
    ensures r.Err? <==> numSamples < 0
    ensures r.Err? ==> r.error == ValueError
    ensures r.Ok? ==> r.value.0 == Map(Filter(source, tgt), cond)
    ensures r.Ok? ==> var rejected := Filter(source, Negate(tgt));
      SampleOf(r.value.1, rejected, Min(numSamples, |rejected|))
  {
    var final: seq<U> := [];
    var samples: seq<T> := [];
    for i := 0 to |source|
      invariant final == Map(Filter(source[..i], tgt), cond)
      invariant samples == Filter(source[..i], Negate(tgt))
    {
      var item := source[i];
      assert source[..i + 1] == source[..i] + [item];
      FilterSnoc(source[..i], item, tgt);
      FilterSnoc(source[..i], item, Negate(tgt));
      if tgt(item) {
        MapSnoc(Filter(source[..i], tgt), item, cond);
        final := final + [cond(item)];
      } else {
        samples := samples + [item];
      }
    }
    assert source[..|source|] == source;
    var drawn := GetSamples(samples, numSamples);
    if drawn.Err? {
      return Err(drawn.error);
    }
    r := Ok((final, drawn.value.0));
  }

  lemma MapSnoc<T, U>(s: seq<T>, x: T, f: T -> U)
    ensures Map(s + [x], f) == Map(s, f) + [f(x)]
  {
  }

  /** The runs partition_list cuts: run i is the slice of the given size that
      starts where the sizes before it add up to. */
  function Parts<T>(source: seq<T>, sizes: seq<int>): (r: seq<seq<T>>)
    ensures |r| == |sizes|
  {
    if sizes == [] then []
    else
      var init := sizes[..|sizes| - 1];
      Parts(source, init) + [PySlice(source, Sum(init), Sum(init) + sizes[|sizes| - 1])]
  }

  /** partition_list: the sizes must add up to the list's length (an
      AssertionError otherwise); the runs are cut by a moving start index. */
  method PartitionList<T>(source: seq<T>, sizes: seq<int>) returns (r: Result<seq<seq<T>>>)
    ensures r.Err? <==> Sum(sizes) != |source|
    ensures r.Err? ==> r.error == AssertionError
    ensures r.Ok? ==> r.value == Parts(source, sizes)
  {
    if Sum(sizes) != |source| {
      return Err(AssertionError);
    }
    var partitions: seq<seq<T>> := [];
    var idx := 0;
    for i := 0 to |sizes|
      invariant idx == Sum(sizes[..i])
      invariant partitions == Parts(source, sizes[..i])
    {
      assert sizes[..i + 1][..i] == sizes[..i];
      partitions := partitions + [PySlice(source, idx, idx + sizes[i])];
      idx := idx + sizes[i];
    }
    assert sizes[..|sizes|] == sizes;
    r := Ok(partitions);
  }

  /** With sizes that are not negative and add up to at most the list's length,
      the runs have the given sizes and, concatenated, give the list's prefix
      of that total length. */
  lemma {:induction false} PartsPrefix<T>(source: seq<T>, sizes: seq<int>)
    requires forall i :: 0 <= i < |sizes| ==> sizes[i] >= 0
    requires Sum(sizes) <= |source|
    ensures 0 <= Sum(sizes)
    ensures forall i :: 0 <= i < |sizes| ==> |Parts(source, sizes)[i]| == sizes[i]
    ensures Flatten(Parts(source, sizes)) == source[..Sum(sizes)]
  {
    if sizes != [] {
      var init, last := sizes[..|sizes| - 1], sizes[|sizes| - 1];
      PartsPrefix(source, init);
      var a := Sum(init);
      assert 0 <= a <= a + last <= |source|;
      FlattenAppend(Parts(source, init), [source[a..a + last]]);
      assert Flatten([source[a..a + last]]) == source[a..a + last] + Flatten([]);
      assert source[..a] + source[a..a + last] == source[..a + last];
    }
  }

  /** A successful partition_list with sizes that are not negative cuts the
      whole list into runs of exactly the given sizes. */
  lemma {:induction false} PartsPartition<T>(source: seq<T>, sizes: seq<int>)
    requires forall i :: 0 <= i < |sizes| ==> sizes[i] >= 0
    requires Sum(sizes) == |source|
    ensures forall i :: 0 <= i < |sizes| ==> |Parts(source, sizes)[i]| == sizes[i]
    ensures Flatten(Parts(source, sizes)) == source
  {
    PartsPrefix(source, sizes);
    assert source[..|source|] == source;
  }

  /** The example of partition_list's documentation. */
  lemma PartitionExample()
    ensures Parts([1, 2, 3, 5], [1, 3]) == [[1], [2, 3, 5]]
  {
    var s := [1, 2, 3, 5];
    assert [1, 3][..1] == [1];
    assert [1][..0] == [];
    assert Sum([1]) == 1;
    assert Parts(s, [1]) == [s[0..1]];
    assert s[0..1] == [1] && s[1..4] == [2, 3, 5];
  }
}
