/** Sorting positions by a real-valued key (Python's stable `sorted(..., key=...)`,
    numpy's `argsort`) and numpy's `median`. */
module Sorting {
  import opened PyList

  /** s is in ascending order of key. */
  predicate SortedBy<T>(s: seq<T>, key: T -> real) {
    forall i, j :: 0 <= i < j < |s| ==> key(s[i]) <= key(s[j])
  }

  /** Insert x after every element whose key is not greater than x's. */
  function InsertBy<T>(x: T, s: seq<T>, key: T -> real): (r: seq<T>)
    ensures |r| == |s| + 1
  {
    if s == [] then [x]
    else if key(x) < key(s[0]) then [x] + s
    else [s[0]] + InsertBy(x, s[1..], key)
  }

  /** Inserting adds exactly x. */
  lemma {:induction false} InsertByPermutes<T>(x: T, s: seq<T>, key: T -> real)
    ensures multiset(InsertBy(x, s, key)) == multiset(s) + multiset{x}
  {
    if s != [] && key(s[0]) <= key(x) {
      InsertByPermutes(x, s[1..], key);
      assert s == [s[0]] + s[1..];
    }
  }

  /** Inserting into a sorted list keeps it sorted. */
  lemma {:induction false} InsertBySorted<T>(x: T, s: seq<T>, key: T -> real)
    requires SortedBy(s, key)
    ensures SortedBy(InsertBy(x, s, key), key)
  {
    if s != [] && key(s[0]) <= key(x) {
      var rest := InsertBy(x, s[1..], key);
      InsertBySorted(x, s[1..], key);
      InsertByPermutes(x, s[1..], key);
      forall k | 0 <= k < |rest| ensures key(s[0]) <= key(rest[k]) {
        assert rest[k] in multiset(rest);
        assert rest[k] in multiset(s[1..]) || rest[k] == x;
        if rest[k] != x {
          var m :| 0 <= m < |s[1..]| && s[1..][m] == rest[k];
          assert s[m + 1] == rest[k];
        }
      }
    }
  }

  /** Python's stable `sorted(s, key=key)`, by insertion from the left. */
  function SortBy<T>(s: seq<T>, key: T -> real): (r: seq<T>)
    ensures |r| == |s|
  {
    if s == [] then [] else InsertBy(s[|s| - 1], SortBy(s[..|s| - 1], key), key)
  }

  /** SortBy rearranges s: every element keeps its number of occurrences. */
  lemma {:induction false} SortByPermutes<T>(s: seq<T>, key: T -> real)
    ensures multiset(SortBy(s, key)) == multiset(s)
  {
    if s != [] {
      SortByPermutes(s[..|s| - 1], key);
      InsertByPermutes(s[|s| - 1], SortBy(s[..|s| - 1], key), key);
      assert s == s[..|s| - 1] + [s[|s| - 1]];
    }
  }

  /** The result of SortBy is in ascending order of key. */
  lemma {:induction false} SortBySorted<T>(s: seq<T>, key: T -> real)
    ensures SortedBy(SortBy(s, key), key)
  {
    if s != [] {
      SortBySorted(s[..|s| - 1], key);
      InsertBySorted(s[|s| - 1], SortBy(s[..|s| - 1], key), key);
    }
  }

  /** The elements whose key is k. */
  function KeyIs<T>(key: T -> real, k: real): T -> bool {
    x => key(x) == k
  }

  /** In a sorted list, x lands behind every element of equal key. */
  lemma {:induction false} InsertByStable<T>(x: T, s: seq<T>, key: T -> real, k: real)
    requires SortedBy(s, key)
    ensures Filter(InsertBy(x, s, key), KeyIs(key, k))
         == Filter(s, KeyIs(key, k)) + (if key(x) == k then [x] else [])
  {
    var p := KeyIs(key, k);
    if s == [] {
      assert [x][1..] == [];
    } else if key(x) < key(s[0]) {
      assert ([x] + s)[1..] == s;
      if key(x) == k {
        NoneOfKey(s, key, k);
      }
    } else {
      assert SortedBy(s[1..], key);
      InsertByStable(x, s[1..], key, k);
      assert ([s[0]] + InsertBy(x, s[1..], key))[1..] == InsertBy(x, s[1..], key);
    }
  }

  /** A sorted list whose first key exceeds k has no element of key k. */
  lemma {:induction false} NoneOfKey<T>(s: seq<T>, key: T -> real, k: real)
    requires SortedBy(s, key) && s != [] && k < key(s[0])
    ensures Filter(s, KeyIs(key, k)) == []
  {
    if |s| > 1 {
      assert SortedBy(s[1..], key) && key(s[0]) <= key(s[1..][0]);
      NoneOfKey(s[1..], key, k);
    }
  }

  /** SortBy is stable: the elements of any one key keep their order in s. */
  lemma {:induction false} SortByStable<T>(s: seq<T>, key: T -> real, k: real)
    ensures Filter(SortBy(s, key), KeyIs(key, k)) == Filter(s, KeyIs(key, k))
  {
    if s != [] {
      var init, last := s[..|s| - 1], s[|s| - 1];
      SortByStable(init, key, k);
      SortBySorted(init, key);
      InsertByStable(last, SortBy(init, key), key, k);
      assert s == init + [last];
      FilterSnoc(init, last, KeyIs(key, k));
    }
  }

  /** Looking a position up in keys (positions past the end do not occur). */
  function KeyOf(keys: seq<real>): nat -> real {
    (i: nat) => if i < |keys| then keys[i] else 0.0
  }

  /** numpy's `keys.argsort()`: the positions 0..n-1 in ascending key order. numpy's
      default sort is not stable, so the contract fixes only the order of keys;
      sorting `range(n)` stably is one admissible answer. */
  function ArgSort(keys: seq<real>): (r: seq<nat>)
    ensures multiset(r) == multiset(Range(|keys|)) && |r| == |keys|
    ensures forall k :: 0 <= k < |r| ==> r[k] < |keys|
    ensures forall i, j :: 0 <= i < j < |r| ==> keys[r[i]] <= keys[r[j]]
  {
    var r := SortBy<nat>(Range(|keys|), KeyOf(keys));
    SortBySorted(Range(|keys|), KeyOf(keys));
    SortByPermutes(Range(|keys|), KeyOf(keys));
    forall k | 0 <= k < |r| ensures r[k] < |keys| {
      assert r[k] in multiset(Range(|keys|));
    }
    r
  }

  /** The values of s in ascending order. */
  function SortedValues(s: seq<real>): (t: seq<real>)
    ensures |t| == |s| && multiset(t) == multiset(s)
    ensures forall i, j :: 0 <= i < j < |t| ==> t[i] <= t[j]
  {
    SortBySorted(s, x => x);
    SortByPermutes(s, x => x);
    SortBy(s, x => x)
  }

  /** numpy's `median`: the middle value of the sorted values, or the mean of the
      two middle values when their number is even. */
  function Median(s: seq<real>): (m: real)
    requires |s| > 0
    ensures var t := SortedValues(s);
      t[0] <= m <= t[|t| - 1] && (|s| % 2 == 1 ==> m == t[|s| / 2])
      && (|s| % 2 == 0 ==> m == (t[|s| / 2 - 1] + t[|s| / 2]) / 2.0)
  {
    var t := SortedValues(s);
    var n := |t|;
    if n % 2 == 1 then t[n / 2] else (t[n / 2 - 1] + t[n / 2]) / 2.0
  }

  /** The median of a list lies between its smallest and its largest value. */
  lemma {:induction false} MedianBetween(s: seq<real>)
    requires |s| > 0
    ensures exists i :: 0 <= i < |s| && s[i] <= Median(s)
    ensures exists j :: 0 <= j < |s| && Median(s) <= s[j]
  {
    var t := SortedValues(s);
    assert t[0] in multiset(s);
    assert t[|t| - 1] in multiset(s);
    var i :| 0 <= i < |s| && s[i] == t[0];
    var j :| 0 <= j < |s| && s[j] == t[|t| - 1];
  }
}
