/** Concatenation of datasets from the chequeparser utilities, over the
    ocrtoolkit base dataset. */
module DsUtils {
  import opened Wrappers
  import opened PyList
  import opened DatasetBase

  /** `[item for ds in l_ds for item in ds.items]`. */
  function AllItems<T>(ds: seq<Dataset<T>>): (r: seq<T>)
    reads ds
  {
    if ds == [] then [] else ds[0].items + AllItems(ds[1..])
  }

  /** `[name for ds in l_ds for name in ds.names]`. */
  function AllNames<T>(ds: seq<Dataset<T>>): (r: seq<string>)
    reads ds
  {
    if ds == [] then [] else ds[0].names + AllNames(ds[1..])
  }

  /** The item counts of the datasets, in order. */
  function Lengths<T>(ds: seq<Dataset<T>>): (r: seq<int>)
    reads ds
    ensures |r| == |ds| && forall i :: 0 <= i < |ds| ==> r[i] == |ds[i].items|
  {
    seq(|ds|, i requires 0 <= i < |ds| reads ds => |ds[i].items|)
  }

  /** The concatenated items hold as many items as all datasets together. */
  lemma {:induction false} AllItemsLength<T>(ds: seq<Dataset<T>>)
    ensures |AllItems(ds)| == Sum(Lengths(ds))
    decreases |ds|
  {
    if ds != [] {
      var init, last := ds[..|ds| - 1], ds[|ds| - 1];
      assert ds == init + [last];
      AllItemsSnoc(init, last);
      AllItemsLength(init);
      assert Lengths(ds)[..|ds| - 1] == Lengths(init);
    }
  }

  lemma {:induction false} AllItemsSnoc<T>(ds: seq<Dataset<T>>, d: Dataset<T>)
    ensures AllItems(ds + [d]) == AllItems(ds) + d.items
    decreases |ds|
  {
    if ds == [] {
      assert [d][1..] == [];
    } else {
      assert (ds + [d])[1..] == ds[1..] + [d];
      AllItemsSnoc(ds[1..], d);
    }
  }

  /** Concatenating in two steps concatenates the same items as once. */
  lemma {:induction false} AllItemsAppend<T>(a: seq<Dataset<T>>, b: seq<Dataset<T>>)
    ensures AllItems(a + b) == AllItems(a) + AllItems(b)
    decreases |a|
  {
    if a != [] {
      assert (a + b)[1..] == a[1..] + b;
      AllItemsAppend(a[1..], b);
    } else {
      assert a + b == b;
    }
  }

  /** Datasets that passed setup have one name per item, so their
      concatenations always pass setup's length check. */
  lemma {:induction false} AllNamesMatch<T>(ds: seq<Dataset<T>>)
    requires forall i :: 0 <= i < |ds| ==> ds[i].Valid()
    ensures |AllNames(ds)| == |AllItems(ds)|
    decreases |ds|
  {
    if ds != [] {
      AllNamesMatch(ds[1..]);
    }
  }

  /** concat_ds: nothing for no datasets, the dataset itself for one, and
      otherwise a new unbatched dataset of all items and names in order with
      the first dataset's size and gray-scale setting. The new dataset's setup
      asserts one unique name per item; with reset_names the naming hook runs
      again afterwards. */
  method ConcatDs<T>(lDs: Option<seq<Dataset<T>>>, resetNames: bool := false) returns (r: Result<Option<Dataset<T>>>)
    ensures lDs.None? || lDs.value == [] ==> r == Ok(None)
    ensures lDs.Some? && |lDs.value| == 1 ==> r == Ok(Some(lDs.value[0]))
    ensures lDs.Some? && |lDs.value| > 1 ==>
      var ds := lDs.value;
      && (r.Err? <==> |AllNames(ds)| != |AllItems(ds)| || !Distinct(AllNames(ds)))
      && (r.Err? ==> r.error == AssertionError)
      && (r.Ok? ==>
            && r.value.Some? && fresh(r.value.value)
            && r.value.value.items == AllItems(ds)
            && r.value.value.names == (if resetNames then [] else AllNames(ds))
            && r.value.value.itemKeys == ItemKeys(AllNames(ds), |AllItems(ds)|)
            && (!resetNames ==> r.value.value.Valid())
            && r.value.value.source == None && !r.value.value.batched
            && r.value.value.applyGs == ds[0].applyGs && r.value.value.size == ds[0].size)
  {
    if lDs.None? || |lDs.value| == 0 {
      return Ok(None);
    }
    var ds := lDs.value;
    if |ds| == 1 {
      return Ok(Some(ds[0]));
    }
    var items := AllItems(ds);
    var names := AllNames(ds);
    if |names| != |items| || !Distinct(names) {
      return Err(AssertionError);
    }
    var d := new Dataset(None, Some(items), Some(names), ds[0].size, ds[0].applyGs, false);
    if resetNames {
      d.ResetNames();
    }
    r := Ok(Some(d));
  }
}
