/** The detections of one image in the chequeparser package: the boxes, the
    image they were found on, and optionally the dataset and position the
    image came from. Filters give new results that share everything but the
    boxes; crops and crop names feed a new image dataset. */
module ChequeDetections {
  import opened Wrappers
  import opened PyList
  import opened ChequeBBox

  /** A numpy image: rows × cols pixels of some type P. */
  datatype Image<P> = Image(rows: nat, cols: nat, pixels: seq<seq<P>>)

  /** numpy arrays are rectangular. */
  predicate Shaped<P>(img: Image<P>) {
    |img.pixels| == img.rows && forall i :: 0 <= i < |img.pixels| ==> |img.pixels[i]| == img.cols
  }

  /** A DetectionResults object. The parent dataset is represented by its
      names, the only part of it that is read. */
  datatype DetectionResults<P> = DetectionResults(
    bboxes: seq<BBox>, width: nat, height: nat, image: Image<P>,
    parentNames: Option<seq<string>>, parentIdx: Option<int>)

  /** The constructor: the size is read off the image's shape. */
  function Create<P>(bboxes: seq<BBox>, image: Image<P>, parentNames: Option<seq<string>> := None,
                     parentIdx: Option<int> := None): (d: DetectionResults<P>)
    ensures d.bboxes == bboxes && d.image == image
    ensures d.width == image.cols && d.height == image.rows
    ensures d.parentNames == parentNames && d.parentIdx == parentIdx
  {
    DetectionResults(bboxes, image.cols, image.rows, image, parentNames, parentIdx)
  }

  /** The confidence test of filter_by_conf. */
  function ConfAtLeast(conf: real): BBox -> bool {
    (b: BBox) => b.conf >= conf
  }

  /** filter_by_conf: the boxes whose confidence reaches conf, in their order. */
  function FilterByConf<P>(d: DetectionResults<P>, conf: real): (r: DetectionResults<P>)
    ensures r == d.(bboxes := r.bboxes)
    ensures IsSubsequence(r.bboxes, d.bboxes)
    ensures forall b :: b in r.bboxes <==> b in d.bboxes && b.conf >= conf
    ensures forall b :: multiset(r.bboxes)[b] == if b.conf >= conf then multiset(d.bboxes)[b] else 0
  {
    FilterExact(d.bboxes, ConfAtLeast(conf));
    FilterMultiset(d.bboxes, ConfAtLeast(conf));
    d.(bboxes := Filter(d.bboxes, ConfAtLeast(conf)))
  }

  /** The region test of filter_by_bbox (is_inside asserts equal spaces). */
  function InsideRegion(region: BBox, thresh: real): BBox -> bool {
    (b: BBox) => b.normalized == region.normalized && IsInside(b, region, thresh)
  }

  /** filter_by_bbox: the boxes inside the region at the threshold, in their
      order. Every box is checked, so one in the other space fails the
      assertion of is_inside. */
  function FilterByBBox<P>(d: DetectionResults<P>, region: BBox, thresh: real := 0.8): (r: Result<DetectionResults<P>>)
    ensures r.Err? <==> exists i :: 0 <= i < |d.bboxes| && d.bboxes[i].normalized != region.normalized
    ensures r.Err? ==> r.error == AssertionError
    ensures r.Ok? ==> r.value == d.(bboxes := r.value.bboxes) && IsSubsequence(r.value.bboxes, d.bboxes)
    ensures r.Ok? ==> forall b :: b in r.value.bboxes <==>
      b in d.bboxes && b.normalized == region.normalized && IsInside(b, region, thresh)
    ensures r.Ok? ==> forall b :: multiset(r.value.bboxes)[b]
                                  == if InsideRegion(region, thresh)(b) then multiset(d.bboxes)[b] else 0
  {
    if exists i :: 0 <= i < |d.bboxes| && d.bboxes[i].normalized != region.normalized then Err(AssertionError)
    else
      FilterExact(d.bboxes, InsideRegion(region, thresh));
      FilterMultiset(d.bboxes, InsideRegion(region, thresh));
      Ok(d.(bboxes := Filter(d.bboxes, InsideRegion(region, thresh))))
  }

  /** The label test of filter_by_labels. */
  function LabelIn(labels: seq<string>): BBox -> bool {
    (b: BBox) => b.className in labels
  }

  /** `max([b.conf for b in boxes if b.label == label])`, None when that list is empty. */
  function MaxConf(boxes: seq<BBox>, name: string): (m: Option<real>)
    ensures m.None? <==> forall i :: 0 <= i < |boxes| ==> boxes[i].className != name
    ensures m.Some? ==> exists i :: 0 <= i < |boxes| && boxes[i].className == name && boxes[i].conf == m.value
    ensures m.Some? ==> forall i :: 0 <= i < |boxes| && boxes[i].className == name ==> boxes[i].conf <= m.value
  {
    if boxes == [] then None
    else
      var init, b := boxes[..|boxes| - 1], boxes[|boxes| - 1];
      var rest := MaxConf(init, name);
      assert forall i :: 0 <= i < |init| ==> boxes[i] == init[i];
      if b.className != name then rest
      else if rest.None? then Some(b.conf)
      else if rest.value >= b.conf then rest
      else Some(b.conf)
  }

  /** The maximum test of filter_by_labels: the box has its label's highest confidence. */
  function AtMaxConf(valid: seq<BBox>): BBox -> bool {
    (b: BBox) => MaxConf(valid, b.className) == Some(b.conf)
  }

  /** filter_by_labels: the boxes whose label is requested, in their order;
      with only_max_conf, of those only the ones with their label's highest
      confidence (all of them on a tie). A requested label without a box
      makes the maximum of an empty list a ValueError. */
  function FilterByLabelsSpec<P>(d: DetectionResults<P>, labels: seq<string>, onlyMaxConf: bool)
    : Result<DetectionResults<P>>
  {
    var valid := Filter(d.bboxes, LabelIn(labels));
    if !onlyMaxConf then Ok(d.(bboxes := valid))
    else if exists i :: 0 <= i < |labels| && MaxConf(valid, labels[i]).None? then Err(ValueError)
    else Ok(d.(bboxes := Filter(valid, AtMaxConf(valid))))
  }

  /** The test of the second comprehension: the box's confidence is the one
      recorded for its label. */
  function MaxTableTest(maxConf: map<string, real>): BBox -> bool {
    (b: BBox) => b.className in maxConf && b.conf == maxConf[b.className]
  }

  /** A table holding the maximum of every requested label selects the same
      boxes as the maximum itself. */
  lemma {:induction false} MaxTableAgrees(valid: seq<BBox>, labels: seq<string>, maxConf: map<string, real>)
    requires forall k :: 0 <= k < |valid| ==> valid[k].className in labels
    requires forall j :: 0 <= j < |labels| ==> labels[j] in maxConf && MaxConf(valid, labels[j]) == Some(maxConf[labels[j]])
    ensures Filter(valid, MaxTableTest(maxConf)) == Filter(valid, AtMaxConf(valid))
  {
    forall k | 0 <= k < |valid| ensures MaxTableTest(maxConf)(valid[k]) == AtMaxConf(valid)(valid[k]) {
      var j :| 0 <= j < |labels| && labels[j] == valid[k].className;
    }
    FilterCongruent(valid, MaxTableTest(maxConf), AtMaxConf(valid));
  }

  /** filter_by_labels as written: the per-label maxima are collected in a
      dictionary first, then the requested boxes are filtered against it. */
  method FilterByLabels<P>(d: DetectionResults<P>, labels: seq<string>, onlyMaxConf: bool := false)
    returns (r: Result<DetectionResults<P>>)
    ensures r == FilterByLabelsSpec(d, labels, onlyMaxConf)
  {
    var valid := Filter(d.bboxes, LabelIn(labels));
    if !onlyMaxConf {
      return Ok(d.(bboxes := valid));
    }
    var maxConf: map<string, real> := map[];
    var i := 0;
    while i < |labels|
      invariant 0 <= i <= |labels|
      invariant forall j :: 0 <= j < i ==> labels[j] in maxConf && MaxConf(valid, labels[j]) == Some(maxConf[labels[j]])
    {
      var m := MaxConf(valid, labels[i]);
      if m.None? {
        return Err(ValueError);
      }
      maxConf := maxConf[labels[i] := m.value];
      i := i + 1;
    }
    MaxTableAgrees(valid, labels, maxConf);
    r := Ok(d.(bboxes := Filter(valid, MaxTableTest(maxConf))));
  }

  /** Box b has the highest confidence of all boxes in boxes with its label. */
  predicate HighestOfLabel(boxes: seq<BBox>, b: BBox) {
    forall c :: c in boxes && c.className == b.className ==> c.conf <= b.conf
  }

  /** filter_by_labels fails exactly when the maximum is asked for and some
      requested label has no box. */
  lemma {:induction false} FilterByLabelsFails<P>(d: DetectionResults<P>, labels: seq<string>, onlyMaxConf: bool)
    ensures FilterByLabelsSpec(d, labels, onlyMaxConf).Err? <==>
      onlyMaxConf && exists i :: 0 <= i < |labels| && forall c :: c in d.bboxes ==> c.className != labels[i]
  {
    var valid := Filter(d.bboxes, LabelIn(labels));
    forall i | 0 <= i < |labels|
      ensures MaxConf(valid, labels[i]).None? <==> forall c :: c in d.bboxes ==> c.className != labels[i]
    {
      NoBoxOfLabel(d.bboxes, labels, labels[i]);
    }
    if onlyMaxConf {
      assert FilterByLabelsSpec(d, labels, onlyMaxConf).Err?
        <==> exists i :: 0 <= i < |labels| && MaxConf(valid, labels[i]).None?;
    }
  }

  /** A requested label has no maximum among the requested boxes exactly when
      no box at all carries it. */
  lemma {:induction false} NoBoxOfLabel(boxes: seq<BBox>, labels: seq<string>, name: string)
    requires name in labels
    ensures MaxConf(Filter(boxes, LabelIn(labels)), name).None? <==> forall c :: c in boxes ==> c.className != name
  {
    var valid := Filter(boxes, LabelIn(labels));
    FilterExact(boxes, LabelIn(labels));
    if MaxConf(valid, name).Some? {
      var k :| 0 <= k < |valid| && valid[k].className == name;
      assert valid[k] in boxes;
    }
  }

  /** A successful filter_by_labels keeps, in order, exactly the boxes with a
      requested label and, with only_max_conf, the highest confidence of
      their label; everything but the boxes is shared. */
  lemma {:induction false} FilterByLabelsKeeps<P>(d: DetectionResults<P>, labels: seq<string>, onlyMaxConf: bool)
    requires FilterByLabelsSpec(d, labels, onlyMaxConf).Ok?
    ensures var r := FilterByLabelsSpec(d, labels, onlyMaxConf).value;
      && r == d.(bboxes := r.bboxes)
      && IsSubsequence(r.bboxes, d.bboxes)
      && forall b :: b in r.bboxes <==>
           b in d.bboxes && b.className in labels && (onlyMaxConf ==> HighestOfLabel(d.bboxes, b))
  {
    var valid := Filter(d.bboxes, LabelIn(labels));
    FilterExact(d.bboxes, LabelIn(labels));
    if onlyMaxConf {
      var kept := Filter(valid, AtMaxConf(valid));
      FilterExact(valid, AtMaxConf(valid));
      SubsequenceTrans(kept, valid, d.bboxes);
      forall b | b in valid ensures AtMaxConf(valid)(b) <==> HighestOfLabel(d.bboxes, b) {
        AtMaxIffHighest(d.bboxes, labels, valid, b);
      }
    }
  }

  /** A kept box appears as often as in the input; a dropped one not at all. */
  lemma FilterByLabelsCounts<P>(d: DetectionResults<P>, labels: seq<string>, onlyMaxConf: bool, b: BBox)
    requires FilterByLabelsSpec(d, labels, onlyMaxConf).Ok?
    ensures multiset(FilterByLabelsSpec(d, labels, onlyMaxConf).value.bboxes)[b]
      == if b.className in labels && (onlyMaxConf ==> HighestOfLabel(d.bboxes, b)) then multiset(d.bboxes)[b] else 0
  {
    var valid := Filter(d.bboxes, LabelIn(labels));
    FilterExact(d.bboxes, LabelIn(labels));
    FilterMultiset(d.bboxes, LabelIn(labels));
    if onlyMaxConf {
      FilterMultiset(valid, AtMaxConf(valid));
      if b in valid {
        AtMaxIffHighest(d.bboxes, labels, valid, b);
      }
    }
  }

  lemma {:induction false} AtMaxIffHighest(boxes: seq<BBox>, labels: seq<string>, valid: seq<BBox>, b: BBox)
    requires valid == Filter(boxes, LabelIn(labels)) && b in valid
    requires forall x :: x in valid <==> x in boxes && x.className in labels
    ensures AtMaxConf(valid)(b) <==> HighestOfLabel(boxes, b)
  {
    var m := MaxConf(valid, b.className);
    var kb :| 0 <= kb < |valid| && valid[kb] == b;
    assert m.Some?;
    if m == Some(b.conf) {
      forall c | c in boxes && c.className == b.className ensures c.conf <= b.conf {
        var k :| 0 <= k < |valid| && valid[k] == c;
      }
    } else {
      var k :| 0 <= k < |valid| && valid[k].className == b.className && valid[k].conf == m.value;
      assert valid[k] in boxes;
      assert valid[kb].className == b.className;
      assert b.conf < valid[k].conf;
      assert !HighestOfLabel(boxes, b);
    }
  }

  /** `np_img[y1:y2, x1:x2]` for a box in whole pixels: numpy slices rows, then
      columns, as Python slices lists. */
  function Crop<P>(img: Image<P>, b: BBox): (c: seq<seq<P>>)
    ensures |c| == |PySlice(img.pixels, b.y1.Floor, b.y2.Floor)|
  {
    var rows := PySlice(img.pixels, b.y1.Floor, b.y2.Floor);
    seq(|rows|, i requires 0 <= i < |rows| => PySlice(rows[i], b.x1.Floor, b.x2.Floor))
  }

  /** A box within the image crops exactly the pixels it covers. */
  lemma {:induction false} CropWithin<P>(img: Image<P>, b: BBox)
    requires Shaped(img) && b.Valid() && !b.normalized
    requires 0.0 <= b.x1 <= b.x2 <= img.cols as real && 0.0 <= b.y1 <= b.y2 <= img.rows as real
    ensures var c := Crop(img, b);
      && |c| == b.y2.Floor - b.y1.Floor
      && forall i :: 0 <= i < |c| ==>
           |c[i]| == b.x2.Floor - b.x1.Floor
           && forall j :: 0 <= j < |c[i]| ==> c[i][j] == img.pixels[b.y1.Floor + i][b.x1.Floor + j]
  {
  }

  /** get_crops: one crop per box, in box order. Normalized corners are floats,
      which numpy refuses as slice bounds. */
  function GetCrops<P>(d: DetectionResults<P>): (r: Result<seq<seq<seq<P>>>>)
    ensures r.Err? <==> exists i :: 0 <= i < |d.bboxes| && d.bboxes[i].normalized
    ensures r.Err? ==> r.error == TypeError
    ensures r.Ok? ==> |r.value| == |d.bboxes| && forall i :: 0 <= i < |d.bboxes| ==> r.value[i] == Crop(d.image, d.bboxes[i])
  {
    if exists i :: 0 <= i < |d.bboxes| && d.bboxes[i].normalized then Err(TypeError)
    else Ok(seq(|d.bboxes|, i requires 0 <= i < |d.bboxes| => Crop(d.image, d.bboxes[i])))
  }

  /** The suffix of the crop names: the parent's name of this image, or "" when
      there is no parent (an empty parent dataset is falsy too). */
  function ParentSuffix(parentNames: Option<seq<string>>, parentIdx: Option<int>): (r: Result<string>)
    ensures (parentNames.None? || parentNames.value == []) ==> r == Ok("")
    ensures parentNames.Some? && parentNames.value != [] ==>
      (r.Ok? <==> parentIdx.Some? && PyIndex(|parentNames.value|, parentIdx.value).Some?)
    ensures r.Ok? && parentNames.Some? && parentNames.value != [] ==>
      r.value == parentNames.value[PyIndex(|parentNames.value|, parentIdx.value).value]
  {
    match parentNames
    case None => Ok("")
    case Some(names) =>
      if names == [] then Ok("")
      else match parentIdx
        case None => Err(TypeError)
        case Some(idx) =>
          match PyIndex(|names|, idx)
          case None => Err(IndexError)
          case Some(i) => Ok(names[i])
  }

  /** The crops and crop names create_ds builds its dataset from: each crop is
      named `label + "__" + suffix`. */
  function CreateDsParts<P>(d: DetectionResults<P>): (r: Result<(seq<seq<seq<P>>>, seq<string>)>)
    ensures r.Ok? <==> GetCrops(d).Ok? && ParentSuffix(d.parentNames, d.parentIdx).Ok?
    ensures r.Ok? ==> r.value.0 == GetCrops(d).value && |r.value.1| == |d.bboxes|
    ensures r.Ok? ==> forall i :: 0 <= i < |d.bboxes| ==>
      r.value.1[i] == d.bboxes[i].className + "__" + ParentSuffix(d.parentNames, d.parentIdx).value
  {
    match GetCrops(d)
    case Err(e) => Err(e)
    case Ok(crops) =>
      match ParentSuffix(d.parentNames, d.parentIdx)
      case Err(e) => Err(e)
      case Ok(suffix) =>
        Ok((crops, seq(|d.bboxes|, i requires 0 <= i < |d.bboxes| => d.bboxes[i].className + "__" + suffix)))
  }
}
