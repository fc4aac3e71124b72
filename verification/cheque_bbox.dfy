/** The bounding box of the chequeparser package: four corners in normalized
    (fractions of the image) or absolute (whole pixels) space, with a
    detection confidence and label. Every operation returns a new box or the
    box itself. */
module ChequeBBox {
  import opened Wrappers
  import opened Numeric

  /** BBox.eps, the floor of eps_area and the slack added to each overlap. */
  const Eps: real := 0.0001

  datatype BBox = BBox(x1: real, y1: real, x2: real, y2: real, normalized: bool,
                       conf: real, className: string)
  {
    /** Absolute boxes have whole-pixel corners (the constructor applies int()). */
    predicate Valid() {
      !normalized ==> IsInt(x1) && IsInt(y1) && IsInt(x2) && IsInt(y2)
    }

    function W(): real { x2 - x1 }

    function H(): real { y2 - y1 }

    function Cx(): real { (x1 + x2) / 2.0 }

    function Cy(): real { (y1 + y2) / 2.0 }

    function Area(): real { W() * H() }

    /** The area used as a divisor: the area, or eps when the area is not above eps. */
    function EpsArea(): (r: real)
      ensures r > 0.0 && r >= Area()
      ensures Area() > Eps ==> r == Area()
    {
      if Area() > Eps then Area() else Eps
    }

    /** The `values` attribute: the corners in the order x1, y1, x2, y2. */
    function Values(): (v: seq<real>)
      ensures |v| == 4 && v[0] == x1 && v[1] == y1 && v[2] == x2 && v[3] == y2
    {
      [x1, y1, x2, y2]
    }

    /** The four corner coordinates are exactly these. */
    predicate At(a: real, b: real, c: real, d: real) {
      x1 == a && y1 == b && x2 == c && y2 == d
    }
  }

  /** The BBox constructor: absolute coordinates are truncated toward zero. */
  function Make(x1: real, y1: real, x2: real, y2: real, normalized: bool := false,
                conf: real := 1.0, className: string := "0"): (b: BBox)
    ensures b.Valid()
    ensures b.normalized == normalized && b.conf == conf && b.className == className
    ensures normalized ==> b.At(x1, y1, x2, y2)
    ensures !normalized ==> b.At(Trunc(x1) as real, Trunc(y1) as real, Trunc(x2) as real, Trunc(y2) as real)
  {
    if normalized then BBox(x1, y1, x2, y2, true, conf, className)
    else BBox(Trunc(x1) as real, Trunc(y1) as real, Trunc(x2) as real, Trunc(y2) as real,
              false, conf, className)
  }

  /** Rebuilding a box from its own fields gives the same box. */
  lemma {:induction false} MakeOfValid(b: BBox)
    requires b.Valid()
    ensures Make(b.x1, b.y1, b.x2, b.y2, b.normalized, b.conf, b.className) == b
  {
    if !b.normalized {
      TruncOfInt(b.x1);
      TruncOfInt(b.y1);
      TruncOfInt(b.x2);
      TruncOfInt(b.y2);
    }
  }

  /** BBox.from_xywh: top-left corner plus width and height. */
  function FromXywh(x: real, y: real, w: real, h: real, normalized: bool := false,
                    conf: real := 1.0, className: string := "0"): (b: BBox)
    ensures b.Valid() && b.normalized == normalized && b.conf == conf && b.className == className
    ensures normalized ==> b.x1 == x && b.y1 == y && b.W() == w && b.H() == h
    ensures !normalized ==> b.At(Trunc(x) as real, Trunc(y) as real, Trunc(x + w) as real, Trunc(y + h) as real)
  {
    Make(x, y, x + w, y + h, normalized, conf, className)
  }

  /** In absolute space whole-pixel inputs are kept exactly. */
  lemma {:induction false} FromXywhWholePixels(x: real, y: real, w: real, h: real)
    requires IsInt(x) && IsInt(y) && IsInt(w) && IsInt(h)
    ensures var b := FromXywh(x, y, w, h);
      b.x1 == x && b.y1 == y && b.W() == w && b.H() == h
  {
    AddInt(x, w);
    AddInt(y, h);
    TruncOfInt(x);
    TruncOfInt(y);
    TruncOfInt(x + w);
    TruncOfInt(y + h);
  }

  /** BBox.from_cxcywh: centre plus width and height. */
  function FromCxcywh(cx: real, cy: real, w: real, h: real, normalized: bool := false,
                      conf: real := 1.0, className: string := "0"): (b: BBox)
    ensures b.Valid() && b.normalized == normalized && b.conf == conf && b.className == className
    ensures normalized ==> b.Cx() == cx && b.Cy() == cy && b.W() == w && b.H() == h
    ensures !normalized ==> -1.0 < b.x1 - (cx - w / 2.0) < 1.0 && -1.0 < b.y1 - (cy - h / 2.0) < 1.0
    ensures !normalized ==> -1.0 < b.x2 - (cx + w / 2.0) < 1.0 && -1.0 < b.y2 - (cy + h / 2.0) < 1.0
    ensures !normalized ==> b.At(Trunc(cx - w / 2.0) as real, Trunc(cy - h / 2.0) as real,
                                 Trunc(cx + w / 2.0) as real, Trunc(cy + h / 2.0) as real)
  {
    Make(cx - w / 2.0, cy - h / 2.0, cx + w / 2.0, cy + h / 2.0, normalized, conf, className)
  }

  /** BBox.normalize: divide by the image size; a normalized box is returned as is. */
  function Normalize(b: BBox, width: real, height: real): (r: BBox)
    requires !b.normalized ==> width != 0.0 && height != 0.0
    ensures r.normalized && r.conf == b.conf && r.className == b.className
    ensures b.normalized ==> r == b
    ensures !b.normalized ==> r.At(ToFraction(b.x1, width), ToFraction(b.y1, height),
                                   ToFraction(b.x2, width), ToFraction(b.y2, height))
  {
    if b.normalized then b
    else BBox(ToFraction(b.x1, width), ToFraction(b.y1, height), ToFraction(b.x2, width),
              ToFraction(b.y2, height), true, b.conf, b.className)
  }

  /** BBox.denormalize: scale by the image size and truncate; an absolute box is returned as is. */
  function Denormalize(b: BBox, width: real, height: real): (r: BBox)
    ensures !r.normalized && r.conf == b.conf && r.className == b.className
    ensures !b.normalized ==> r == b
    ensures b.normalized ==> r.Valid() && r.At(ToPixels(b.x1, width), ToPixels(b.y1, height),
                                               ToPixels(b.x2, width), ToPixels(b.y2, height))
  {
    if !b.normalized then b
    else BBox(ToPixels(b.x1, width), ToPixels(b.y1, height), ToPixels(b.x2, width),
              ToPixels(b.y2, height), false, b.conf, b.className)
  }

  /** Normalizing then denormalizing with the same size gives back an absolute box. */
  lemma {:induction false} DenormalizeNormalize(b: BBox, width: real, height: real)
    requires b.Valid() && !b.normalized && width != 0.0 && height != 0.0
    ensures Denormalize(Normalize(b, width, height), width, height) == b
  {
    AxisRoundTrip(b.x1, width);
    AxisRoundTrip(b.y1, height);
    AxisRoundTrip(b.x2, width);
    AxisRoundTrip(b.y2, height);
  }

  /** One box lies within another. */
  predicate Contains(outer: BBox, inner: BBox) {
    outer.x1 <= inner.x1 && outer.y1 <= inner.y1 && inner.x2 <= outer.x2 && inner.y2 <= outer.y2
  }

  /** BBox.expand: move each side by its own offset (outward when the offset
      is non-negative); absolute corners are truncated to whole pixels. */
  function Expand(b: BBox, up: real, down: real, left: real, right: real): (r: BBox)
    ensures r.Valid() && r.normalized == b.normalized && r.conf == b.conf && r.className == b.className
    ensures b.normalized ==> r.At(b.x1 - left, b.y1 - up, b.x2 + right, b.y2 + down)
    ensures !b.normalized ==> r.At(Trunc(b.x1 - left) as real, Trunc(b.y1 - up) as real,
                                   Trunc(b.x2 + right) as real, Trunc(b.y2 + down) as real)
  {
    Make(b.x1 - left, b.y1 - up, b.x2 + right, b.y2 + down, b.normalized, b.conf, b.className)
  }

  /** Expanding by non-negative offsets gives a box containing the original,
      also after truncation to whole pixels. */
  lemma {:induction false} ExpandContains(b: BBox, up: real, down: real, left: real, right: real)
    requires b.Valid() && up >= 0.0 && down >= 0.0 && left >= 0.0 && right >= 0.0
    ensures Contains(Expand(b, up, down, left, right), b)
  {
    if !b.normalized {
      TruncLowerSide(b.x1, left);
      TruncLowerSide(b.y1, up);
      TruncUpperSide(b.x2, right);
      TruncUpperSide(b.y2, down);
    }
  }

  /** BBox.intersection_area; both boxes must be in the same space. */
  function IntersectionArea(a: BBox, o: BBox): (r: real)
    requires a.normalized == o.normalized
    ensures r >= 0.0
  {
    Overlap(a.x1, a.x2, o.x1, o.x2, Eps) * Overlap(a.y1, a.y2, o.y1, o.y2, Eps)
  }

  lemma IntersectionSymmetric(a: BBox, o: BBox)
    requires a.normalized == o.normalized
    ensures IntersectionArea(a, o) == IntersectionArea(o, a)
  {
  }

  /** BBox.is_inside: the share of a's (eps-floored) area covered by o reaches thresh. */
  function IsInside(a: BBox, o: BBox, thresh: real := 0.8): (r: bool)
    requires a.normalized == o.normalized
    ensures r <==> IntersectionArea(a, o) >= thresh * a.EpsArea()
  {
    var ia := IntersectionArea(a, o);
    var ea := a.EpsArea();
    assert ia / ea >= thresh <==> ia >= thresh * ea by {
      assert ia == (ia / ea) * ea;
    }
    ia / ea >= thresh
  }

  /** A well-formed box lying within o, with an area above eps, is inside o
      for every threshold up to 1. */
  lemma {:induction false} InsideContainer(a: BBox, o: BBox, thresh: real)
    requires a.normalized == o.normalized && Contains(o, a)
    requires a.x1 <= a.x2 && a.y1 <= a.y2 && a.Area() > Eps && thresh <= 1.0
    ensures IsInside(a, o, thresh)
  {
    var w, h := a.W(), a.H();
    assert IntersectionArea(a, o) == (w + Eps) * (h + Eps);
    assert (w + Eps) * (h + Eps) == w * h + Eps * (w + h) + Eps * Eps;
    assert Eps * (w + h) >= 0.0;
    assert a.EpsArea() == w * h;
    assert thresh * a.EpsArea() <= a.EpsArea();
  }

  /** BBox.__add__ (and __radd__): the union of two boxes in the same space;
      an operand that is not a box (None here) gives the box itself. */
  function Add(a: BBox, other: Option<BBox>): (r: BBox)
    requires other.Some? ==> other.value.normalized == a.normalized
    ensures other.None? ==> r == a
    ensures other.Some? ==>
      && r.Valid() && r.normalized == a.normalized && r.className == a.className
      && r.conf == MaxR(a.conf, other.value.conf)
  {
    match other
    case None => a
    case Some(o) =>
      Make(MinR(a.x1, o.x1), MinR(a.y1, o.y1), MaxR(a.x2, o.x2), MaxR(a.y2, o.y2),
           a.normalized, MaxR(a.conf, o.conf), a.className)
  }

  /** The union is the smallest box containing both operands. */
  lemma {:induction false} AddIsEnvelope(a: BBox, o: BBox)
    requires a.Valid() && o.Valid() && a.normalized == o.normalized
    ensures var r := Add(a, Some(o));
      && Contains(r, a) && Contains(r, o)
      && forall c: BBox :: Contains(c, a) && Contains(c, o) ==> Contains(c, r)
  {
    if !a.normalized {
      MinMaxInt(a.x1, o.x1);
      MinMaxInt(a.y1, o.y1);
      MinMaxInt(a.x2, o.x2);
      MinMaxInt(a.y2, o.y2);
      TruncOfInt(MinR(a.x1, o.x1));
      TruncOfInt(MinR(a.y1, o.y1));
      TruncOfInt(MaxR(a.x2, o.x2));
      TruncOfInt(MaxR(a.y2, o.y2));
    }
  }

  /** The six keys of BBox.as_dict. */
  const DictKeys: set<string> := {"x1", "y1", "x2", "y2", "conf", "label"}

  /** BBox.as_dict: the corners, the confidence and the label. */
  function AsDict(b: BBox): (d: map<string, PyValue>)
    ensures d.Keys == DictKeys
    ensures d["x1"] == Num(b.x1) && d["y1"] == Num(b.y1) && d["x2"] == Num(b.x2) && d["y2"] == Num(b.y2)
    ensures d["conf"] == Num(b.conf) && d["label"] == Str(b.className)
  {
    map["x1" := Num(b.x1), "y1" := Num(b.y1), "x2" := Num(b.x2), "y2" := Num(b.y2),
        "conf" := Num(b.conf), "label" := Str(b.className)]
  }
}
