/** Python list semantics (indexing, slicing, comprehension filters) and the
    sequence vocabulary the rest of the model states its contracts in. */
module PyList {
  import opened Wrappers

  /** Python's `s[i]` on a list of length n: negative indices count from the
      end; anything else out of range is an IndexError (None here). */
  function PyIndex(n: nat, i: int): (r: Option<nat>)
    ensures r.Some? <==> -(n as int) <= i < n
    ensures r.Some? ==> r.value < n && (r.value as int == i || r.value as int == i + n)
  {
    if 0 <= i < n then Some(i) else if -(n as int) <= i < 0 then Some(i + n) else None
  }

  /** Where a slice bound i lands in a list of length n. */
  function SliceBound(i: int, n: nat): (r: nat)
    ensures r <= n
    ensures 0 <= i <= n ==> r == i
    ensures -(n as int) <= i < 0 ==> r as int == i + n
    ensures i < -(n as int) ==> r == 0
    ensures n < i ==> r == n
  {
    if i < 0 then (if i + n < 0 then 0 else i + n) else if i > n then n else i
  }

  /** Python's `s[i:j]` (step 1), including negative and out-of-range bounds. */
  function PySlice<T>(s: seq<T>, i: int, j: int): (r: seq<T>)
    ensures |r| <= |s|
    ensures 0 <= i <= j <= |s| ==> r == s[i..j]
    ensures 0 <= i <= |s| <= j ==> r == s[i..]
    ensures 0 <= j <= i ==> r == []
  {
    var a, b := SliceBound(i, |s|), SliceBound(j, |s|);
    if a < b then s[a..b] else []
  }

  /** A negative slice bound counts from the end of the list; one before the
      start is clamped to it. */
  lemma PySliceFromEnd<T>(s: seq<T>, i: int, j: int)
    ensures -|s| <= i < 0 && 0 <= j <= |s| && i + |s| <= j ==> PySlice(s, i, j) == s[i + |s|..j]
    ensures -|s| <= i <= j < 0 ==> PySlice(s, i, j) == s[i + |s|..j + |s|]
    ensures 0 <= i <= j + |s| && -|s| <= j < 0 ==> PySlice(s, i, j) == s[i..j + |s|]
    ensures i < -|s| && 0 <= j <= |s| ==> PySlice(s, i, j) == s[..j]
    ensures -|s| <= j < 0 && j + |s| <= i ==> PySlice(s, i, j) == []
  {
  }

  /** Slicing two lists of equal length with the same bounds gives equally long results. */
  lemma PySliceSameLength<A, B>(s: seq<A>, t: seq<B>, i: int, j: int)
    requires |s| == |t|
    ensures |PySlice(s, i, j)| == |PySlice(t, i, j)|
  {
  }

  /** The concatenation of a list of lists. */
  function Flatten<T>(ss: seq<seq<T>>): seq<T>
  {
    if ss == [] then [] else ss[0] + Flatten(ss[1..])
  }

  lemma {:induction false} FlattenAppend<T>(ss: seq<seq<T>>, tt: seq<seq<T>>)
    ensures Flatten(ss + tt) == Flatten(ss) + Flatten(tt)
  {
    if ss != [] {
      assert (ss + tt)[0] == ss[0];
      assert (ss + tt)[1..] == ss[1..] + tt;
      FlattenAppend(ss[1..], tt);
    } else {
      assert ss + tt == tt;
    }
  }

  /** No element occurs twice. */
  predicate Distinct<T(==)>(s: seq<T>) {
    forall i, j :: 0 <= i < j < |s| ==> s[i] != s[j]
  }

  lemma {:induction false} PySliceDistinct<T>(s: seq<T>, i: int, j: int)
    requires Distinct(s)
    ensures Distinct(PySlice(s, i, j))
  {
  }

  /** [0, 1, ..., n-1], i.e. Python's `range(n)`. */
  function Range(n: nat): (r: seq<nat>)
    ensures |r| == n && forall i :: 0 <= i < n ==> r[i] == i
  {
    seq(n, i => i)
  }

  /** The elements of s at the given positions, `[s[i] for i in idx]`. */
  function Pick<T>(s: seq<T>, idx: seq<nat>): (r: seq<T>)
    requires forall i :: 0 <= i < |idx| ==> idx[i] < |s|
    ensures |r| == |idx| && forall i :: 0 <= i < |idx| ==> r[i] == s[idx[i]]
  {
    seq(|idx|, i requires 0 <= i < |idx| => s[idx[i]])
  }

  /** Picking distinct positions of a list without repeats gives a list without repeats. */
  lemma {:induction false} PickDistinct<T>(s: seq<T>, idx: seq<nat>)
    requires forall i :: 0 <= i < |idx| ==> idx[i] < |s|
    requires Distinct(s) && Distinct(idx)
    ensures Distinct(Pick(s, idx))
  {
    var r := Pick(s, idx);
    forall i, j | 0 <= i < j < |r| ensures r[i] != r[j] {
      assert idx[i] != idx[j];
    }
  }

  /** `[x for x in s if p(x)]`. */
  function Filter<T>(s: seq<T>, p: T -> bool): (r: seq<T>)
    ensures |r| <= |s|
    ensures forall i :: 0 <= i < |r| ==> p(r[i])
    ensures IsSubsequence(r, s)
  {
    if s == [] then []
    else if p(s[0]) then [s[0]] + Filter(s[1..], p)
    else Filter(s[1..], p)
  }

  /** The comprehension takes its elements from s ... */
  lemma {:induction false} FilterFrom<T>(s: seq<T>, p: T -> bool)
    ensures forall i :: 0 <= i < |Filter(s, p)| ==> Filter(s, p)[i] in s
  {
    if s != [] {
      FilterFrom(s[1..], p);
    }
  }

  /** ... and keeps every element of s that satisfies p. */
  lemma {:induction false} FilterKeeps<T>(s: seq<T>, p: T -> bool)
    ensures forall i :: 0 <= i < |s| && p(s[i]) ==> s[i] in Filter(s, p)
  {
    if s != [] {
      FilterKeeps(s[1..], p);
      var r := Filter(s, p);
      forall i | 0 <= i < |s| && p(s[i]) ensures s[i] in r {
        if i > 0 {
          assert s[i] == s[1..][i - 1];
        }
      }
    }
  }

  /** An element is kept exactly when it is in s and satisfies p. */
  lemma {:induction false} FilterExact<T>(s: seq<T>, p: T -> bool)
    ensures forall x :: x in Filter(s, p) <==> x in s && p(x)
  {
    FilterFrom(s, p);
    FilterKeeps(s, p);
    forall x | x in Filter(s, p) ensures x in s {
      var i :| 0 <= i < |Filter(s, p)| && Filter(s, p)[i] == x;
    }
  }

  /** Each element satisfying p is kept as often as it occurs in s; the others not at all. */
  lemma {:induction false} FilterMultiset<T>(s: seq<T>, p: T -> bool)
    ensures forall x :: multiset(Filter(s, p))[x] == if p(x) then multiset(s)[x] else 0
  {
    if s != [] {
      FilterMultiset(s[1..], p);
      assert s == [s[0]] + s[1..];
    }
  }

  /** Two predicates that agree on s keep the same elements. */
  lemma {:induction false} FilterCongruent<T>(s: seq<T>, p: T -> bool, q: T -> bool)
    requires forall i :: 0 <= i < |s| ==> p(s[i]) == q(s[i])
    ensures Filter(s, p) == Filter(s, q)
  {
    if s != [] {
      FilterCongruent(s[1..], p, q);
    }
  }

  /** Filtering a list extended by x: x is appended exactly when it satisfies p. */
  lemma {:induction false} FilterSnoc<T>(s: seq<T>, x: T, p: T -> bool)
    ensures Filter(s + [x], p) == Filter(s, p) + (if p(x) then [x] else [])
  {
    if s == [] {
      assert [x][1..] == [];
    } else {
      assert (s + [x])[1..] == s[1..] + [x];
      FilterSnoc(s[1..], x, p);
    }
  }

  /** r is obtained from s by deleting elements, keeping the order of the rest. */
  ghost predicate IsSubsequence<T>(r: seq<T>, s: seq<T>)
    decreases |s|
  {
    if r == [] then true
    else if s == [] then false
    else if r[0] == s[0] then IsSubsequence(r[1..], s[1..])
    else IsSubsequence(r, s[1..])
  }

  /** Matching a list's first element against an earlier copy of it only helps. */
  lemma {:induction false} SubsequenceDropHead<T>(r: seq<T>, s: seq<T>)
    requires r != [] && IsSubsequence(r, s)
    ensures IsSubsequence(r[1..], s)
    decreases |s|, 1
  {
    if r[0] != s[0] {
      SubsequenceDropHead(r, s[1..]);
    }
    SubsequenceWeaken(r[1..], s);
  }

  lemma {:induction false} SubsequenceWeaken<T>(r: seq<T>, s: seq<T>)
    requires s != [] && IsSubsequence(r, s[1..])
    ensures IsSubsequence(r, s)
    decreases |s|, 0
  {
    if r != [] && r[0] == s[0] {
      SubsequenceDropHead(r, s[1..]);
    }
  }

  /** Deleting elements twice is deleting elements once. */
  lemma {:induction false} SubsequenceTrans<T>(r: seq<T>, s: seq<T>, t: seq<T>)
    requires IsSubsequence(r, s) && IsSubsequence(s, t)
    ensures IsSubsequence(r, t)
    decreases |t|
  {
    if r != [] && t != [] {
      if s[0] == t[0] {
        if r[0] == s[0] {
          SubsequenceTrans(r[1..], s[1..], t[1..]);
        } else {
          SubsequenceTrans(r, s[1..], t[1..]);
        }
      } else {
        SubsequenceTrans(r, s, t[1..]);
        SubsequenceWeaken(r, t);
      }
    }
  }

  /** Filtering with a predicate that holds everywhere in s keeps all of s. */
  lemma {:induction false} FilterAll<T>(s: seq<T>, p: T -> bool)
    requires forall i :: 0 <= i < |s| ==> p(s[i])
    ensures Filter(s, p) == s
  {
    if s != [] {
      FilterAll(s[1..], p);
    }
  }

  /** `[f(x) for x in s]`. */
  function Map<T, U>(s: seq<T>, f: T -> U): (r: seq<U>)
    ensures |r| == |s| && forall i :: 0 <= i < |s| ==> r[i] == f(s[i])
  {
    seq(|s|, i requires 0 <= i < |s| => f(s[i]))
  }

  /** A loop that applies a step that may raise to each element in order,
      collecting the results: the first error ends it. */
  function MapAll<T, U>(s: seq<T>, f: T -> Result<U>): (r: Result<seq<U>>)
    ensures r.Ok? ==> |r.value| == |s| && forall i :: 0 <= i < |s| ==> f(s[i]) == Ok(r.value[i])
    ensures r.Err? <==> exists i :: 0 <= i < |s| && f(s[i]).Err?
  {
    if s == [] then Ok([])
    else
      var init := s[..|s| - 1];
      match MapAll(init, f)
      case Err(e) =>
        var i :| 0 <= i < |init| && f(init[i]).Err?;
        assert s[i] == init[i];
        Err(e)
      case Ok(us) =>
        match f(s[|s| - 1])
        case Err(e) => Err(e)
        case Ok(u) =>
          assert forall i :: 0 <= i < |init| ==> s[i] == init[i];
          Ok(us + [u])
  }

  /** A failed walk fails with the error of its first failing element. */
  lemma {:induction false} MapAllFirstErr<T, U>(s: seq<T>, i: nat, f: T -> Result<U>)
    requires i < |s| && MapAll(s[..i], f).Ok? && f(s[i]).Err?
    ensures MapAll(s, f) == Err(f(s[i]).error)
  {
    var init := s[..|s| - 1];
    if |s| == i + 1 {
      assert init == s[..i];
    } else {
      assert init[..i] == s[..i] && init[i] == s[i];
      MapAllFirstErr(init, i, f);
    }
  }

  /** One more successful step extends the collected results. */
  lemma {:induction false} MapAllSnoc<T, U>(s: seq<T>, i: nat, us: seq<U>, u: U, f: T -> Result<U>)
    requires i < |s| && MapAll(s[..i], f) == Ok(us) && f(s[i]) == Ok(u)
    ensures MapAll(s[..i + 1], f) == Ok(us + [u])
  {
    assert s[..i + 1][..i] == s[..i];
  }

  /** `str.lower` restricted to ASCII letters. */
  function Lower(s: string): (r: string)
    ensures |r| == |s|
    ensures forall i :: 0 <= i < |s| ==> r[i] == (if 'A' <= s[i] <= 'Z' then (s[i] as int + 32) as char else s[i])
  {
    seq(|s|, i requires 0 <= i < |s| => if 'A' <= s[i] <= 'Z' then (s[i] as int + 32) as char else s[i])
  }

  /** Python's `sum` on a list of integers. */
  function Sum(s: seq<int>): int
  {
    if s == [] then 0 else Sum(s[..|s| - 1]) + s[|s| - 1]
  }
}
