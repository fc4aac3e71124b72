/** The base dataset of ocrtoolkit: a list of items with unique names, a
    lookup table from names and positions to positions, and the derived
    datasets (batches, key selections, empty copies) it builds without
    changing itself. The per-item image transforms are not part of this
    model; an item is returned as stored. */
module DatasetBase {
  import opened Wrappers
  import opened Numeric
  import opened PyList

  /** A key of the lookup table `item_keys`: a position or a name. */
  datatype Key = IntKey(i: int) | NameKey(s: string)

  /** The subscript of `ds[key]`: a key or a slice. */
  datatype Subscript = At(key: Key) | Slice(lo: Option<int>, hi: Option<int>)

  /** The argument of `get_as_ds`: a slice, a single position (the only
      non-iterable key, wrapped in a tuple), a list of keys, or a string
      (which Python iterates character by character). */
  datatype Selection =
    | SliceSel(lo: Option<int>, hi: Option<int>)
    | One(i: int)
    | Many(keys: seq<Key>)
    | Chars(text: string)

  /** The first position of s in names. */
  function IndexOf(names: seq<string>, s: string): (r: nat)
    requires s in names
    ensures r < |names| && names[r] == s
    ensures forall j :: 0 <= j < r ==> names[j] != s
  {
    if names[0] == s then 0 else 1 + IndexOf(names[1..], s)
  }

  /** In a list without repeats, a name's first position is its only one. */
  lemma {:induction false} IndexOfDistinct(names: seq<string>, i: nat)
    requires Distinct(names) && i < |names|
    ensures IndexOf(names, names[i]) == i
  {
  }

  function NameKeys(names: seq<string>): set<Key> {
    set i | 0 <= i < |names| :: NameKey(names[i])
  }

  function IntKeys(n: nat): set<Key> {
    set i | 0 <= i < n :: IntKey(i)
  }

  /** Where a key of the table points. */
  function KeyPosition(names: seq<string>, k: Key): nat {
    match k
    case IntKey(i) => if i >= 0 then i else 0
    case NameKey(s) => if s in names then IndexOf(names, s) else 0
  }

  /** `item_keys` as setup builds it: each name maps to its position, then each
      position 0..n-1 maps to itself. */
  function ItemKeys(names: seq<string>, n: nat): (m: map<Key, nat>)
    requires Distinct(names)
    ensures forall k :: k in m <==> (k.NameKey? && k.s in names) || (k.IntKey? && 0 <= k.i < n)
    ensures forall i :: 0 <= i < |names| ==> m[NameKey(names[i])] == i
    ensures forall i :: 0 <= i < n ==> m[IntKey(i)] == i
  {
    var m := map k | k in NameKeys(names) + IntKeys(n) :: KeyPosition(names, k);
    forall k ensures k in m <==> (k.NameKey? && k.s in names) || (k.IntKey? && 0 <= k.i < n) {
      if k.NameKey? && k.s in names {
        var i :| 0 <= i < |names| && names[i] == k.s;
        assert k == NameKey(names[i]);
      }
      if k.IntKey? && 0 <= k.i < n {
        assert k in IntKeys(n);
      }
    }
    forall i | 0 <= i < |names| ensures m[NameKey(names[i])] == i {
      IndexOfDistinct(names, i);
    }
    m
  }

  /** The number of batches of size bs: `ceil(n / bs)` (true division). */
  function NumBatches(n: nat, bs: int): (r: int)
    requires bs != 0
    ensures bs > 0 ==> (r - 1) * bs < n <= r * bs
  {
    var c := Ceil(n as real / bs as real);
    CeilBounds(n, bs, c);
    c
  }

  lemma {:induction false} CeilBounds(n: nat, bs: int, c: int)
    requires bs != 0 && c as real - 1.0 < n as real / bs as real <= c as real
    ensures bs > 0 ==> (c - 1) * bs < n <= c * bs
  {
    if bs > 0 {
      var q, b := n as real / bs as real, bs as real;
      assert q * b == n as real;
      ScaleLt(c as real - 1.0, q, b);
      ScaleLe(q, c as real, b);
      RealOfProduct(c - 1, bs);
      RealOfProduct(c, bs);
    }
  }

  lemma RealOfProduct(a: int, b: int)
    ensures (a * b) as real == a as real * b as real
  {
  }

  lemma ScaleLt(x: real, y: real, s: real)
    requires x < y && s > 0.0
    ensures x * s < y * s
  {
    assert y * s - x * s == (y - x) * s;
  }

  lemma ScaleLe(x: real, y: real, s: real)
    requires x <= y && s > 0.0
    ensures x * s <= y * s
  {
    assert y * s - x * s == (y - x) * s;
  }

  /** The slice bounds of `batch(bs, bs_idx)` on n items: bs is clamped to n, a
      negative index counts back from the number of batches, and the end is
      clamped to n. A negative index with a clamped size of 0 divides by zero,
      so it is excluded. */
  function BatchBounds(n: nat, bs: int, idx: int): (r: (int, int))
    requires Min(bs, n) != 0 || idx >= 0
    ensures 0 <= r.0 && r.1 <= n
    ensures bs > 0 && n > 0 ==> r.1 - r.0 <= Min(bs, n)
  {
    var b := Min(bs, n);
    var k := if idx < 0 then idx + NumBatches(n, b) else idx;
    var start := Max(0, k * b);
    (start, Min(n, start + b))
  }

  /** The items of `batch(bs, bs_idx)`. */
  function BatchOf<T>(s: seq<T>, bs: int, idx: int): seq<T>
    requires Min(bs, |s|) != 0 || idx >= 0
  {
    var (start, end) := BatchBounds(|s|, bs, idx);
    PySlice(s, start, end)
  }

  /** A negative batch index names the same batch as that index plus the
      number of batches. */
  lemma {:induction false} BatchNegativeWraps(n: nat, bs: int, idx: int)
    requires bs > 0 && n > 0 && -NumBatches(n, Min(bs, n)) <= idx < 0
    ensures BatchBounds(n, bs, idx) == BatchBounds(n, bs, idx + NumBatches(n, Min(bs, n)))
  {
  }

  /** An index below minus the number of batches is wrapped only once and
      lands on the first batch. */
  lemma {:induction false} BatchFarNegative(n: nat, bs: int, idx: int)
    requires bs > 0 && n > 0 && idx < -NumBatches(n, Min(bs, n))
    ensures BatchBounds(n, bs, idx) == BatchBounds(n, bs, 0)
  {
    var b := Min(bs, n);
    var k := idx + NumBatches(n, b);
    assert k * b < 0;
  }

  /** Batch bs_idx of a non-empty list, for 0 <= bs_idx < num_batches, is the
      full run of bs items from bs_idx·bs, cut short only at the end of the list. */
  lemma {:induction false} BatchIsRun<T>(s: seq<T>, bs: int, idx: int)
    requires bs > 0 && |s| > 0 && 0 <= idx < NumBatches(|s|, Min(bs, |s|))
    ensures var b := Min(bs, |s|);
      && idx * b < |s|
      && BatchOf(s, bs, idx) == s[idx * b .. Min(|s|, idx * b + b)]
      && |BatchOf(s, bs, idx)| > 0
  {
    var b := Min(bs, |s|);
    var nb := NumBatches(|s|, b);
    assert idx * b <= (nb - 1) * b;
  }

  /** A batch index at or past the number of batches gives no items. */
  lemma {:induction false} BatchPastEnd<T>(s: seq<T>, bs: int, idx: int)
    requires bs > 0 && |s| > 0 && idx >= NumBatches(|s|, Min(bs, |s|))
    ensures BatchOf(s, bs, idx) == []
  {
    var b := Min(bs, |s|);
    var nb := NumBatches(|s|, b);
    assert idx * b >= nb * b;
  }

  /** `batch(4, -1)` on ten items is `batch(4, 2)`: the last two items. */
  lemma BatchExample<T>(s: seq<T>)
    requires |s| == 10
    ensures BatchOf(s, 4, -1) == BatchOf(s, 4, 2) == s[8..]
  {
    assert NumBatches(10, 4) == 3 by {
      var r := NumBatches(10, 4);
      assert (r - 1) * 4 < 10 <= r * 4;
    }
  }

  /** The batches with indices k, k+1, ... up to the number of batches. */
  function BatchesFrom<T>(s: seq<T>, bs: int, k: nat): seq<seq<T>>
    requires bs > 0 && |s| > 0
    decreases NumBatches(|s|, Min(bs, |s|)) - k
  {
    if k >= NumBatches(|s|, Min(bs, |s|)) then []
    else [BatchOf(s, bs, k)] + BatchesFrom(s, bs, k + 1)
  }

  /** Walking the batches from index k covers the list from position k·bs on. */
  lemma {:induction false} BatchesFromCover<T>(s: seq<T>, bs: int, k: nat)
    requires bs > 0 && |s| > 0
    ensures Flatten(BatchesFrom(s, bs, k)) == s[Min(|s|, k * Min(bs, |s|))..]
    decreases NumBatches(|s|, Min(bs, |s|)) - k
  {
    var b := Min(bs, |s|);
    var nb := NumBatches(|s|, b);
    if k >= nb {
      PastLastBatch(|s|, b, k);
    } else {
      var lo, hi := k * b, Min(|s|, k * b + b);
      var rest := BatchesFrom(s, bs, k + 1);
      assert 0 <= lo < |s| && BatchesFrom(s, bs, k) == [s[lo..hi]] + rest && Min(|s|, (k + 1) * b) == hi by {
        BatchStep(s, bs, k);
      }
      assert Flatten(rest) == s[hi..] by {
        BatchesFromCover(s, bs, k + 1);
      }
      CoverStep(s, lo, hi, rest);
    }
  }

  lemma {:induction false} CoverStep<T>(s: seq<T>, lo: nat, hi: nat, rest: seq<seq<T>>)
    requires lo <= hi <= |s| && lo < |s| && Flatten(rest) == s[hi..]
    ensures Flatten([s[lo..hi]] + rest) == s[Min(|s|, lo)..]
  {
    FlattenCons(s[lo..hi], rest);
    assert s[lo..hi] + s[hi..] == s[lo..];
  }

  /** One step of the walk: batch k is the run from k·b, and the walk goes on
      where that run ends. */
  lemma {:induction false} BatchStep<T>(s: seq<T>, bs: int, k: nat)
    requires bs > 0 && |s| > 0 && k < NumBatches(|s|, Min(bs, |s|))
    ensures var b := Min(bs, |s|);
      && 0 <= k * b < |s|
      && BatchesFrom(s, bs, k) == [s[k * b .. Min(|s|, k * b + b)]] + BatchesFrom(s, bs, k + 1)
      && Min(|s|, (k + 1) * b) == Min(|s|, k * b + b)
  {
    BatchIsRun(s, bs, k);
    NextStart(k, Min(bs, |s|));
  }

  lemma {:induction false} PastLastBatch(n: nat, b: int, k: nat)
    requires b > 0 && k >= NumBatches(n, b)
    ensures Min(n, k * b) == n
  {
    var nb := NumBatches(n, b);
    assert k * b >= nb * b;
  }

  lemma NextStart(k: nat, b: int)
    ensures (k + 1) * b == k * b + b
  {
  }

  lemma {:induction false} FlattenCons<T>(x: seq<T>, rest: seq<seq<T>>)
    ensures Flatten([x] + rest) == x + Flatten(rest)
  {
    assert ([x] + rest)[1..] == rest;
  }

  /** There are num_batches batches and, concatenated, they are the whole list. */
  lemma {:induction false} BatchesPartition<T>(s: seq<T>, bs: int)
    requires bs > 0 && |s| > 0
    ensures Flatten(BatchesFrom(s, bs, 0)) == s
    ensures |BatchesFrom(s, bs, 0)| == NumBatches(|s|, Min(bs, |s|))
  {
    BatchesFromCover(s, bs, 0);
    BatchesCount(s, bs, 0);
  }

  lemma {:induction false} BatchesCount<T>(s: seq<T>, bs: int, k: nat)
    requires bs > 0 && |s| > 0 && k <= NumBatches(|s|, Min(bs, |s|))
    ensures |BatchesFrom(s, bs, k)| == NumBatches(|s|, Min(bs, |s|)) - k
    decreases NumBatches(|s|, Min(bs, |s|)) - k
  {
    if k < NumBatches(|s|, Min(bs, |s|)) {
      BatchesCount(s, bs, k + 1);
    }
  }

  /** `ds[key]` (key resolution only): slices are refused, a negative int
      counts from the end, and a key missing from the table is an IndexError. */
  function GetItem<T>(items: seq<T>, itemKeys: map<Key, nat>, sub: Subscript): (r: Result<T>)
    ensures sub.Slice? ==> r == Err(NotImplementedError)
    ensures r.Err? && sub.At? ==> r.error == IndexError
    ensures r.Ok? ==> r.value in items
  {
    match sub
    case Slice(_, _) => Err(NotImplementedError)
    case At(key) =>
      var k := if key.IntKey? && key.i < 0 then IntKey(|items| + key.i) else key;
      if k !in itemKeys then Err(IndexError)
      else if itemKeys[k] < |items| then Ok(items[itemKeys[k]])
      else Err(IndexError)
  }

  /** With the table setup builds, an integer key is Python list indexing. */
  lemma {:induction false} GetItemByPosition<T>(items: seq<T>, names: seq<string>, i: int)
    requires Distinct(names) && |names| == |items|
    ensures var r := GetItem(items, ItemKeys(names, |items|), At(IntKey(i)));
      match PyIndex(|items|, i)
      case Some(p) => r == Ok(items[p])
      case None => r == Err(IndexError)
  {
    var m := ItemKeys(names, |items|);
    var k := if i < 0 then IntKey(|items| + i) else IntKey(i);
    assert k in m <==> PyIndex(|items|, i).Some?;
  }

  /** With the table setup builds, a name finds the item stored under it. */
  lemma {:induction false} GetItemByName<T>(items: seq<T>, names: seq<string>, s: string)
    requires Distinct(names) && |names| == |items|
    ensures var r := GetItem(items, ItemKeys(names, |items|), At(NameKey(s)));
      && (s in names ==> r == Ok(items[IndexOf(names, s)]))
      && (s !in names ==> r == Err(IndexError))
  {
    if s in names {
      IndexOfDistinct(names, IndexOf(names, s));
    }
  }

  /** The keys a selection walks through. */
  function SelectedKeys(sel: Selection): seq<Key>
    requires !sel.SliceSel?
  {
    match sel
    case One(i) => [IntKey(i)]
    case Many(ks) => ks
    case Chars(t) => seq(|t|, i requires 0 <= i < |t| => NameKey([t[i]]))
  }

  /** The positions the keys resolve to; the first key that is not in the table
      is a KeyError, the first that points past the items an IndexError. */
  function Positions(n: nat, itemKeys: map<Key, nat>, keys: seq<Key>): (r: Result<seq<nat>>)
    ensures r.Ok? ==> |r.value| == |keys|
    ensures r.Ok? ==> forall i :: 0 <= i < |keys| ==> keys[i] in itemKeys && r.value[i] == itemKeys[keys[i]] < n
    ensures r.Err? ==> r.error == KeyError || r.error == IndexError
    ensures r.Err? ==> exists i :: 0 <= i < |keys| && (keys[i] !in itemKeys || itemKeys[keys[i]] >= n)
  {
    if keys == [] then Ok([])
    else if keys[0] !in itemKeys then Err(KeyError)
    else if itemKeys[keys[0]] >= n then Err(IndexError)
    else match Positions(n, itemKeys, keys[1..])
      case Err(e) => Err(e)
      case Ok(ps) => Ok([itemKeys[keys[0]]] + ps)
  }

  /** The items and names `get_as_ds` selects: a slice of both lists, or the
      entries the keys resolve to, in key order. */
  function Select<T>(items: seq<T>, names: seq<string>, itemKeys: map<Key, nat>, sel: Selection)
    : (r: Result<(seq<T>, seq<string>)>)
    ensures sel.SliceSel? ==> r.Ok?
    ensures r.Ok? && !sel.SliceSel? ==> |r.value.0| == |r.value.1| == |SelectedKeys(sel)|
  {
    match sel
    case SliceSel(lo, hi) =>
      Ok((PySlice(items, if lo.Some? then lo.value else 0, if hi.Some? then hi.value else |items|),
          PySlice(names, if lo.Some? then lo.value else 0, if hi.Some? then hi.value else |names|)))
    case _ =>
      match Positions(|items|, itemKeys, SelectedKeys(sel))
      case Err(e) => Err(e)
      case Ok(ps) =>
        if exists i :: 0 <= i < |ps| && ps[i] >= |names| then Err(IndexError)
        else Ok((Pick(items, ps), Pick(names, ps)))
  }

  /** With the table setup builds, selecting keys either fails with a KeyError
      exactly when a key is unknown, or returns the entries under the keys in
      the order of the keys. */
  lemma {:induction false} SelectByKeys<T>(items: seq<T>, names: seq<string>, sel: Selection)
    requires Distinct(names) && |names| == |items| && !sel.SliceSel?
    ensures var m, keys := ItemKeys(names, |items|), SelectedKeys(sel);
      var r := Select(items, names, m, sel);
      && (r.Err? <==> exists i :: 0 <= i < |keys| && keys[i] !in m)
      && (r.Err? ==> r.error == KeyError)
      && (r.Ok? ==> forall i :: 0 <= i < |keys| ==>
            r.value.0[i] == items[m[keys[i]]] && r.value.1[i] == names[m[keys[i]]])
  {
    PositionsInTable(|items|, ItemKeys(names, |items|), SelectedKeys(sel));
  }

  lemma {:induction false} PositionsInTable(n: nat, m: map<Key, nat>, keys: seq<Key>)
    requires forall k :: k in m ==> m[k] < n
    ensures Positions(n, m, keys).Err? <==> exists i :: 0 <= i < |keys| && keys[i] !in m
    ensures Positions(n, m, keys).Err? ==> Positions(n, m, keys).error == KeyError
  {
    if keys != [] && keys[0] in m {
      PositionsInTable(n, m, keys[1..]);
      if exists i :: 0 <= i < |keys[1..]| && keys[1..][i] !in m {
        var i :| 0 <= i < |keys[1..]| && keys[1..][i] !in m;
        assert keys[i + 1] !in m;
      }
      if exists i :: 0 <= i < |keys| && keys[i] !in m {
        var i :| 0 <= i < |keys| && keys[i] !in m;
        assert keys[1..][i - 1] !in m;
      }
    }
  }

  /** A string selects, one character at a time, the entries named by its
      single characters. */
  lemma {:induction false} SelectChars<T>(items: seq<T>, names: seq<string>, t: string)
    requires Distinct(names) && |names| == |items|
    ensures var r := Select(items, names, ItemKeys(names, |items|), Chars(t));
      && (r.Ok? <==> forall i :: 0 <= i < |t| ==> [t[i]] in names)
      && (r.Ok? ==> forall i :: 0 <= i < |t| ==> r.value.1[i] == [t[i]])
  {
    var m := ItemKeys(names, |items|);
    var keys := SelectedKeys(Chars(t));
    SelectByKeys(items, names, Chars(t));
    var r := Select(items, names, m, Chars(t));
    if r.Ok? {
      forall i | 0 <= i < |t| ensures [t[i]] in names && r.value.1[i] == [t[i]] {
        assert keys[i] == NameKey([t[i]]) && keys[i] in m;
        var j :| 0 <= j < |names| && names[j] == [t[i]];
        assert m[keys[i]] == j;
      }
    } else {
      var i :| 0 <= i < |keys| && keys[i] !in m;
      assert keys[i] == NameKey([t[i]]);
    }
  }

  /** A base dataset: the items, their unique names and the lookup table, plus
      the settings every derived dataset copies. `source` is where the items
      came from; the subclass hook that loads items takes them from it. */
  class Dataset<T> {
    var source: Option<seq<T>>
    var items: seq<T>
    var names: seq<string>
    var itemKeys: map<Key, nat>
    var size: Option<(int, int)>
    var applyGs: bool
    var batched: bool

    /** setup's assertions hold and the table matches the names. */
    predicate Valid()
      reads this
    {
      |names| == |items| && Distinct(names) && itemKeys == ItemKeys(names, |items|)
    }

    /** `__init__` followed by `setup`: missing items come from the source, missing
        names from the base naming hook (no names); then the names must match the
        items one to one and be unique. */
    constructor (source: Option<seq<T>>, items: Option<seq<T>>, names: Option<seq<string>>,
                 size: Option<(int, int)> := Some((640, 320)), applyGs: bool := true,
                 batched: bool := false)
      requires items.Some? || source.Some?
      requires var its := if items.Some? then items.value else source.value;
        var ns := if names.Some? then names.value else [];
        |ns| == |its| && Distinct(ns)
      ensures Valid()
      ensures this.source == source && this.size == size
      ensures this.applyGs == applyGs && this.batched == batched
      ensures this.items == (if items.Some? then items.value else source.value)
      ensures this.names == (if names.Some? then names.value else [])
    {
      this.source := source;
      this.size := size;
      this.applyGs := applyGs;
      this.batched := batched;
      this.items := if items.Some? then items.value else source.value;
      this.names := if names.Some? then names.value else [];
      new;
      itemKeys := ItemKeys(this.names, |this.items|);
    }

    function Len(): (n: nat)
      reads this
      ensures n == |items|
    {
      |items|
    }

    /** `num_batches(bs)`. */
    function NumBatchesOf(bs: int := 4): (r: int)
      reads this
      requires bs != 0
      ensures bs > 0 ==> (r - 1) * bs < |items| <= r * bs
    {
      NumBatches(|items|, bs)
    }

    /** `ds[key]`, before the transforms are applied. */
    function Get(key: Subscript): (r: Result<T>)
      reads this
      requires Valid()
      ensures key.At? && key.key.IntKey? ==>
        (r.Ok? <==> PyIndex(|items|, key.key.i).Some?)
      ensures key.At? && key.key.NameKey? ==> (r.Ok? <==> key.key.s in names)
      ensures key.At? && key.key.IntKey? && r.Ok? ==> r.value == items[PyIndex(|items|, key.key.i).value]
      ensures key.At? && key.key.NameKey? && r.Ok? ==> r.value == items[IndexOf(names, key.key.s)]
      ensures key.At? && r.Err? ==> r.error == IndexError
      ensures key.Slice? ==> r == Err(NotImplementedError)
    {
      match key
      case Slice(_, _) => GetItem(items, itemKeys, key)
      case At(k) =>
        if k.IntKey? then GetItemByPosition(items, names, k.i); GetItem(items, itemKeys, key)
        else GetItemByName(items, names, k.s); GetItem(items, itemKeys, key)
    }

    /** `batch(bs, bs_idx)`: a new batched dataset holding that batch. */
    method Batch(bs: int := 4, bsIdx: int := 0) returns (d: Dataset<T>)
      requires Valid()
      requires Min(bs, |items|) != 0 || bsIdx >= 0
      ensures fresh(d) && d.Valid()
      ensures d.items == BatchOf(items, bs, bsIdx) && d.names == BatchOf(names, bs, bsIdx)
      ensures d.source == Some(d.items) && d.batched
      ensures d.size == size && d.applyGs == applyGs
    {
      var b := Min(bs, |items|);
      var k := bsIdx;
      if k < 0 {
        k := k + NumBatches(|items|, b);
      }
      var start := Max(0, k * b);
      var end := Min(|items|, start + b);
      assert (start, end) == BatchBounds(|items|, bs, bsIdx);
      PySliceSameLength(items, names, start, end);
      PySliceDistinct(names, start, end);
      d := new Dataset(Some(PySlice(items, start, end)), None, Some(PySlice(names, start, end)),
                       size, applyGs, true);
    }

    /** `get_as_ds(key)`: a new dataset of the selected items and names. An
        unknown key is a KeyError; a selection that names an item twice fails
        the new dataset's uniqueness assertion. */
    method GetAsDs(sel: Selection) returns (r: Result<Dataset<T>>)
      requires Valid()
      ensures Select(items, names, itemKeys, sel).Err? ==> r == Err(Select(items, names, itemKeys, sel).error)
      ensures Select(items, names, itemKeys, sel).Ok? ==>
        var (its, ns) := Select(items, names, itemKeys, sel).value;
        && (r.Err? <==> !Distinct(ns))
        && (r.Err? ==> r.error == AssertionError)
        && (r.Ok? ==> (fresh(r.value) && r.value.Valid() && r.value.items == its && r.value.names == ns
                       && r.value.source == source && r.value.batched == batched
                       && r.value.applyGs == applyGs && r.value.size == size))
    {
      var s := Select(items, names, itemKeys, sel);
      if s.Err? {
        return Err(s.error);
      }
      var (its, ns) := s.value;
      if sel.SliceSel? {
        var lo := if sel.lo.Some? then sel.lo.value else 0;
        PySliceSameLength(items, names, lo, if sel.hi.Some? then sel.hi.value else |items|);
      }
      if !Distinct(ns) {
        return Err(AssertionError);
      }
      var d := new Dataset(source, Some(its), Some(ns), size, applyGs, batched);
      r := Ok(d);
    }

    /** `train_test_split` with the two index lists the splitter chose (disjoint
        positions of this dataset); the sizes must not add up to more than 1. */
    method TrainTestSplit(trainIds: seq<nat>, testIds: seq<nat>, trainSize: real := 0.8,
                          testSize: real := 0.2) returns (train: Dataset<T>, test: Dataset<T>)
      requires Valid()
      requires trainSize + testSize <= 1.0
      requires Distinct(trainIds) && Distinct(testIds)
      requires forall i :: 0 <= i < |trainIds| ==> trainIds[i] < |items|
      requires forall i :: 0 <= i < |testIds| ==> testIds[i] < |items|
      ensures fresh(train) && train.Valid() && train.items == Pick(items, trainIds)
      ensures fresh(test) && test.Valid() && test.items == Pick(items, testIds)
    {
      train := SplitPart(trainIds);
      test := SplitPart(testIds);
    }

    /** get_as_ds on a list of distinct positions. */
    method SplitPart(ids: seq<nat>) returns (d: Dataset<T>)
      requires Valid()
      requires Distinct(ids) && forall i :: 0 <= i < |ids| ==> ids[i] < |items|
      ensures fresh(d) && d.Valid() && d.items == Pick(items, ids) && d.names == Pick(names, ids)
    {
      var keys := seq(|ids|, i requires 0 <= i < |ids| => IntKey(ids[i]));
      SelectByKeys(items, names, Many(keys));
      var s := Select(items, names, itemKeys, Many(keys));
      assert s.Ok?;
      var (its, ns) := s.value;
      assert its == Pick(items, ids) && ns == Pick(names, ids);
      PickDistinct(names, ids);
      d := new Dataset(source, Some(its), Some(ns), size, applyGs, batched);
    }

    /** `sample(k)` with the positions get_samples drew: a new dataset whose
        source is the drawn items. */
    method Sample(indices: seq<nat>, batched: bool := true) returns (d: Dataset<T>)
      requires Valid()
      requires Distinct(indices) && forall i :: 0 <= i < |indices| ==> indices[i] < |items|
      ensures fresh(d) && d.Valid() && d.items == Pick(items, indices) && d.names == Pick(names, indices)
      ensures d.source == Some(d.items) && d.batched == batched
      ensures d.size == size && d.applyGs == applyGs
    {
      PickDistinct(names, indices);
      d := new Dataset(Some(Pick(items, indices)), None, Some(Pick(names, indices)), size, applyGs, batched);
    }

    /** `_setup_names` called again on a built dataset: the base naming hook
        gives no names. The lookup table is not rebuilt. */
    method ResetNames()
      modifies this
      ensures names == []
      ensures source == old(source) && items == old(items) && itemKeys == old(itemKeys)
      ensures size == old(size) && applyGs == old(applyGs) && batched == old(batched)
    {
      names := [];
    }
  }

  /** `empty_like(other)`: no items, no names, the other's settings. */
  method EmptyLike<T>(other: Dataset<T>) returns (d: Dataset<T>)
    ensures fresh(d) && d.Valid() && d.items == [] && d.names == []
    ensures d.batched == other.batched && d.applyGs == other.applyGs && d.size == other.size
  {
    d := new Dataset(Some([]), None, None, other.size, other.applyGs, other.batched);
  }
}
