/** The bounding box of the ocrtoolkit package: four corners in normalized
    (fractions of the image) or absolute (whole pixels) space, a detection
    confidence and label, and recognised text with its confidence. Every
    geometric operation returns a new box; only the text can be overwritten
    in place (BoxObject). */
module OcrBBox {
  import opened Wrappers
  import opened Numeric
  import opened PyList

  /** BBox.eps, the floor of eps_area and the slack added to each overlap. */
  const Eps: real := 0.000001

  datatype BBox = BBox(x1: real, y1: real, x2: real, y2: real, normalized: bool,
                       conf: real, className: string, text: string, textConf: real)
  {
    /** Absolute boxes have whole-pixel corners (the constructor applies int()). */
    predicate Valid() {
      !normalized ==> IsInt(x1) && IsInt(y1) && IsInt(x2) && IsInt(y2)
    }

    function W(): real { x2 - x1 }

    function H(): real { y2 - y1 }

    function Cx(): real { (x1 + x2) / 2.0 }

    function Cy(): real { (y1 + y2) / 2.0 }

    function Area(): real { W() * H() }

    /** The area used as a divisor: the area, or eps when the area is not above eps. */
    function EpsArea(): (r: real)
      ensures r > 0.0 && r >= Area()
      ensures Area() > Eps ==> r == Area()
    {
      if Area() > Eps then Area() else Eps
    }

    /** The four corner coordinates are exactly these. */
    predicate At(a: real, b: real, c: real, d: real) {
      x1 == a && y1 == b && x2 == c && y2 == d
    }
  }

  /** The BBox constructor: absolute coordinates are truncated toward zero. */
  function Make(x1: real, y1: real, x2: real, y2: real, normalized: bool := false,
                conf: real := 1.0, className: string := "0", text: string := "",
                textConf: real := 0.0): (b: BBox)
    ensures b.Valid()
    ensures b.normalized == normalized && b.conf == conf && b.className == className
    ensures b.text == text && b.textConf == textConf
    ensures normalized ==> b.At(x1, y1, x2, y2)
    ensures !normalized ==> b.At(Trunc(x1) as real, Trunc(y1) as real, Trunc(x2) as real, Trunc(y2) as real)
  {
    if normalized then BBox(x1, y1, x2, y2, true, conf, className, text, textConf)
    else BBox(Trunc(x1) as real, Trunc(y1) as real, Trunc(x2) as real, Trunc(y2) as real,
              false, conf, className, text, textConf)
  }

  /** Rebuilding a box from its own fields gives the same box. */
  lemma {:induction false} MakeOfValid(b: BBox)
    requires b.Valid()
    ensures Make(b.x1, b.y1, b.x2, b.y2, b.normalized, b.conf, b.className, b.text, b.textConf) == b
  {
    if !b.normalized {
      TruncOfInt(b.x1);
      TruncOfInt(b.y1);
      TruncOfInt(b.x2);
      TruncOfInt(b.y2);
    }
  }

  /** BBox.from_xywh: top-left corner plus width and height. */
  function FromXywh(x: real, y: real, w: real, h: real, normalized: bool := false,
                    conf: real := 1.0, className: string := "0", text: string := "",
                    textConf: real := 0.0): (b: BBox)
    ensures b.Valid() && b.normalized == normalized && b.conf == conf && b.className == className
    ensures normalized ==> b.x1 == x && b.y1 == y && b.W() == w && b.H() == h
    ensures !normalized ==> b.At(Trunc(x) as real, Trunc(y) as real, Trunc(x + w) as real, Trunc(y + h) as real)
    ensures b.text == text && b.textConf == textConf
  {
    Make(x, y, x + w, y + h, normalized, conf, className, text, textConf)
  }

  /** In absolute space whole-pixel inputs are kept exactly. */
  lemma {:induction false} FromXywhWholePixels(x: real, y: real, w: real, h: real)
    requires IsInt(x) && IsInt(y) && IsInt(w) && IsInt(h)
    ensures var b := FromXywh(x, y, w, h);
      b.x1 == x && b.y1 == y && b.W() == w && b.H() == h
  {
    AddInt(x, w);
    AddInt(y, h);
    TruncOfInt(x);
    TruncOfInt(y);
    TruncOfInt(x + w);
    TruncOfInt(y + h);
  }

  /** BBox.from_cxcywh: centre plus width and height. */
  function FromCxcywh(cx: real, cy: real, w: real, h: real, normalized: bool := false,
                      conf: real := 1.0, className: string := "0", text: string := "",
                      textConf: real := 0.0): (b: BBox)
    ensures b.Valid() && b.normalized == normalized && b.conf == conf && b.className == className
    ensures normalized ==> b.Cx() == cx && b.Cy() == cy && b.W() == w && b.H() == h
    ensures normalized ==> b.At(cx - w / 2.0, cy - h / 2.0, cx + w / 2.0, cy + h / 2.0)
    ensures !normalized ==> -1.0 < b.x1 - (cx - w / 2.0) < 1.0 && -1.0 < b.y1 - (cy - h / 2.0) < 1.0
    ensures !normalized ==> -1.0 < b.x2 - (cx + w / 2.0) < 1.0 && -1.0 < b.y2 - (cy + h / 2.0) < 1.0
    ensures !normalized ==> b.At(Trunc(cx - w / 2.0) as real, Trunc(cy - h / 2.0) as real,
                                 Trunc(cx + w / 2.0) as real, Trunc(cy + h / 2.0) as real)
    ensures b.text == text && b.textConf == textConf
  {
    Make(cx - w / 2.0, cy - h / 2.0, cx + w / 2.0, cy + h / 2.0, normalized, conf, className, text, textConf)
  }

  /** BBox.normalize: divide by the image size; a normalized box is returned as is. */
  function Normalize(b: BBox, width: real, height: real): (r: BBox)
    requires !b.normalized ==> width != 0.0 && height != 0.0
    ensures r.normalized
    ensures b.normalized ==> r == b
    ensures !b.normalized ==> r.At(ToFraction(b.x1, width), ToFraction(b.y1, height),
                                   ToFraction(b.x2, width), ToFraction(b.y2, height))
    ensures r.conf == b.conf && r.className == b.className && r.text == b.text && r.textConf == b.textConf
  {
    if b.normalized then b
    else BBox(ToFraction(b.x1, width), ToFraction(b.y1, height), ToFraction(b.x2, width),
              ToFraction(b.y2, height), true, b.conf, b.className, b.text, b.textConf)
  }

  /** BBox.denormalize: scale by the image size and truncate; an absolute box is returned as is. */
  function Denormalize(b: BBox, width: real, height: real): (r: BBox)
    ensures !r.normalized && (b.Valid() ==> r.Valid())
    ensures !b.normalized ==> r == b
    ensures b.normalized ==> r.At(ToPixels(b.x1, width), ToPixels(b.y1, height),
                                  ToPixels(b.x2, width), ToPixels(b.y2, height))
    ensures r.conf == b.conf && r.className == b.className && r.text == b.text && r.textConf == b.textConf
  {
    if !b.normalized then b
    else BBox(ToPixels(b.x1, width), ToPixels(b.y1, height), ToPixels(b.x2, width),
              ToPixels(b.y2, height), false, b.conf, b.className, b.text, b.textConf)
  }

  /** Normalizing then denormalizing with the same size gives back an absolute box. */
  lemma {:induction false} DenormalizeNormalize(b: BBox, width: real, height: real)
    requires b.Valid() && !b.normalized && width != 0.0 && height != 0.0
    ensures Denormalize(Normalize(b, width, height), width, height) == b
  {
    var n := Normalize(b, width, height);
    var d := Denormalize(n, width, height);
    AxisRoundTrip(b.x1, width);
    AxisRoundTrip(b.y1, height);
    AxisRoundTrip(b.x2, width);
    AxisRoundTrip(b.y2, height);
    assert d.x1 == b.x1 && d.y1 == b.y1 && d.x2 == b.x2 && d.y2 == b.y2;
  }

  /** Denormalizing then normalizing moves each coordinate by less than one pixel
      (expressed as a fraction of the image size). */
  lemma {:induction false} NormalizeDenormalizeClose(a: BBox, width: real, height: real)
    requires a.normalized && width > 0.0 && height > 0.0
    ensures var r := Normalize(Denormalize(a, width, height), width, height);
      && r.normalized && r.conf == a.conf && r.className == a.className
      && r.text == a.text && r.textConf == a.textConf
      && Abs(r.x1 - a.x1) < 1.0 / width && Abs(r.x2 - a.x2) < 1.0 / width
      && Abs(r.y1 - a.y1) < 1.0 / height && Abs(r.y2 - a.y2) < 1.0 / height
  {
    ScaledTruncClose(a.x1, width);
    ScaledTruncClose(a.x2, width);
    ScaledTruncClose(a.y1, height);
    ScaledTruncClose(a.y2, height);
  }

  /** One box lies within another. */
  predicate Contains(outer: BBox, inner: BBox) {
    outer.x1 <= inner.x1 && outer.y1 <= inner.y1 && inner.x2 <= outer.x2 && inner.y2 <= outer.y2
  }

  /** BBox.expand: move each side by its own offset (outward when the offset
      is non-negative); absolute corners are truncated to whole pixels. */
  function Expand(b: BBox, up: real, down: real, left: real, right: real): (r: BBox)
    ensures r.Valid() && r.normalized == b.normalized && r.conf == b.conf && r.className == b.className
    ensures r.text == b.text && r.textConf == b.textConf
    ensures b.normalized ==> r.At(b.x1 - left, b.y1 - up, b.x2 + right, b.y2 + down)
    ensures !b.normalized ==> r.At(Trunc(b.x1 - left) as real, Trunc(b.y1 - up) as real,
                                   Trunc(b.x2 + right) as real, Trunc(b.y2 + down) as real)
  {
    Make(b.x1 - left, b.y1 - up, b.x2 + right, b.y2 + down, b.normalized,
         b.conf, b.className, b.text, b.textConf)
  }

  /** Expanding by non-negative offsets gives a box containing the original,
      also after truncation to whole pixels. */
  lemma {:induction false} ExpandContains(b: BBox, up: real, down: real, left: real, right: real)
    requires b.Valid() && up >= 0.0 && down >= 0.0 && left >= 0.0 && right >= 0.0
    ensures Contains(Expand(b, up, down, left, right), b)
  {
    if !b.normalized {
      TruncLowerSide(b.x1, left);
      TruncLowerSide(b.y1, up);
      TruncUpperSide(b.x2, right);
      TruncUpperSide(b.y2, down);
    }
  }

  /** BBox.intersection_area; both boxes must be in the same space. */
  function IntersectionArea(a: BBox, o: BBox): (r: real)
    requires a.normalized == o.normalized
    ensures r >= 0.0
  {
    Overlap(a.x1, a.x2, o.x1, o.x2, Eps) * Overlap(a.y1, a.y2, o.y1, o.y2, Eps)
  }

  lemma IntersectionSymmetric(a: BBox, o: BBox)
    requires a.normalized == o.normalized
    ensures IntersectionArea(a, o) == IntersectionArea(o, a)
  {
  }

  /** BBox.is_inside: the share of a's (eps-floored) area covered by o reaches thresh. */
  function IsInside(a: BBox, o: BBox, thresh: real := 0.8): (r: bool)
    requires a.normalized == o.normalized
    ensures r <==> IntersectionArea(a, o) >= thresh * a.EpsArea()
  {
    var ia := IntersectionArea(a, o);
    var ea := a.EpsArea();
    assert ia / ea >= thresh <==> ia >= thresh * ea by {
      assert ia == (ia / ea) * ea;
    }
    ia / ea >= thresh
  }

  /** A well-formed box lying within o, with an area above eps, is inside o
      for every threshold up to 1. */
  lemma {:induction false} InsideContainer(a: BBox, o: BBox, thresh: real)
    requires a.normalized == o.normalized && Contains(o, a)
    requires a.x1 <= a.x2 && a.y1 <= a.y2 && a.Area() > Eps && thresh <= 1.0
    ensures IsInside(a, o, thresh)
  {
    var w, h := a.W(), a.H();
    assert IntersectionArea(a, o) == (w + Eps) * (h + Eps);
    assert (w + Eps) * (h + Eps) == w * h + Eps * (w + h) + Eps * Eps;
    assert Eps * (w + h) >= 0.0;
    assert a.EpsArea() == w * h;
    assert thresh * a.EpsArea() <= a.EpsArea();
  }

  /** A box separated from o horizontally by at least eps is inside o at no
      positive threshold. */
  lemma {:induction false} SeparatedNotInside(a: BBox, o: BBox, thresh: real)
    requires a.normalized == o.normalized && thresh > 0.0
    requires a.x2 + Eps <= o.x1
    ensures !IsInside(a, o, thresh)
  {
    assert Overlap(a.x1, a.x2, o.x1, o.x2, Eps) == 0.0;
    assert IntersectionArea(a, o) == 0.0;
  }

  /** BBox.__add__ (and __radd__): the union of two boxes in the same space;
      anything that is not a box (None here) leaves the box unchanged. */
  function Add(a: BBox, other: Option<BBox>): (r: BBox)
    requires other.Some? ==> other.value.normalized == a.normalized
    ensures other.None? ==> r == a
    ensures other.Some? ==> var o := other.value;
      && r.Valid() && r.normalized == a.normalized && r.className == a.className
      && r.conf == MaxR(a.conf, o.conf) && r.textConf == MaxR(a.textConf, o.textConf)
      && r.text == a.text + " " + o.text
  {
    match other
    case None => a
    case Some(o) =>
      Make(MinR(a.x1, o.x1), MinR(a.y1, o.y1), MaxR(a.x2, o.x2), MaxR(a.y2, o.y2),
           a.normalized, MaxR(a.conf, o.conf), a.className, a.text + " " + o.text,
           MaxR(a.textConf, o.textConf))
  }

  /** The union is the smallest box containing both operands. */
  lemma {:induction false} AddIsEnvelope(a: BBox, o: BBox)
    requires a.Valid() && o.Valid() && a.normalized == o.normalized
    ensures var r := Add(a, Some(o));
      && Contains(r, a) && Contains(r, o)
      && forall c: BBox :: Contains(c, a) && Contains(c, o) ==> Contains(c, r)
  {
    if !a.normalized {
      MinMaxInt(a.x1, o.x1);
      MinMaxInt(a.y1, o.y1);
      MinMaxInt(a.x2, o.x2);
      MinMaxInt(a.y2, o.y2);
      TruncOfInt(MinR(a.x1, o.x1));
      TruncOfInt(MinR(a.y1, o.y1));
      TruncOfInt(MaxR(a.x2, o.x2));
      TruncOfInt(MaxR(a.y2, o.y2));
    }
  }

  /** The union's geometry and confidences do not depend on operand order. */
  lemma {:induction false} AddCommutesGeometry(a: BBox, o: BBox)
    requires a.normalized == o.normalized
    ensures var r, s := Add(a, Some(o)), Add(o, Some(a));
      r.At(s.x1, s.y1, s.x2, s.y2) && r.conf == s.conf && r.textConf == s.textConf
  {
  }

  /** BBox.set_text_and_confidence's argument: a (text, conf) tuple or a
      recognition result, both of which carry a text and a confidence. */
  datatype TextAndConf = Pair(text: string, conf: real) | Recognition(text: string, conf: real)

  /** A BBox object as Python code holds it: a reference whose text and text
      confidence set_text_and_confidence overwrites in place. */
  class BoxObject {
    var box: BBox

    constructor (b: BBox)
      ensures box == b
    {
      box := b;
    }

    method SetTextAndConfidence(tc: TextAndConf)
      modifies this
      ensures box == old(box).(text := tc.text, textConf := tc.conf)
    {
      box := box.(text := tc.text, textConf := tc.conf);
    }
  }

  /** BBox.apply_text_op: a new box whose text is op applied to the (optionally
      lower-cased) text; everything else is copied. */
  function ApplyTextOp(b: BBox, op: string -> string, lowercase: bool := false): (r: BBox)
    ensures r.Valid()
    ensures b.Valid() ==> r == b.(text := op(if lowercase then Lower(b.text) else b.text))
  {
    MakeOfValidWhenValid(b);
    Make(b.x1, b.y1, b.x2, b.y2, b.normalized, b.conf, b.className,
         op(if lowercase then Lower(b.text) else b.text), b.textConf)
  }

  lemma MakeOfValidWhenValid(b: BBox)
    ensures b.Valid() ==> forall t: string ::
      Make(b.x1, b.y1, b.x2, b.y2, b.normalized, b.conf, b.className, t, b.textConf) == b.(text := t)
  {
    if b.Valid() {
      forall t: string
        ensures Make(b.x1, b.y1, b.x2, b.y2, b.normalized, b.conf, b.className, t, b.textConf) == b.(text := t)
      {
        MakeOfValid(b.(text := t));
      }
    }
  }

  /** Two text operations in a row act as their composition. */
  lemma {:induction false} ApplyTextOpCompose(b: BBox, f: string -> string, g: string -> string)
    requires b.Valid()
    ensures ApplyTextOp(ApplyTextOp(b, f), g) == ApplyTextOp(b, s => g(f(s)))
  {
  }

  /** The nine fields of BBox.to_numpy, in order. */
  const FieldNames: seq<string> := ["x1", "y1", "x2", "y2", "normalized", "conf", "label", "text", "text_conf"]

  /** A flat field array: numpy's unicode strings, or (encoded) their UTF-8 bytes. */
  datatype FieldArray = FieldArray(fields: seq<PyValue>, encoded: bool)

  /** BBox.to_numpy(encode): the flat field array (rendering of the fields as text is not modelled). */
  function ToFields(b: BBox, encode: bool := false): (arr: FieldArray)
    ensures |arr.fields| == |FieldNames| && LayoutOk(arr.fields) && arr.encoded == encode
    ensures arr.fields[6] == Str(b.className) && arr.fields[7] == Str(b.text)
  {
    FieldArray([Num(b.x1), Num(b.y1), Num(b.x2), Num(b.y2), Flag(b.normalized), Num(b.conf),
                Str(b.className), Str(b.text), Num(b.textConf)], encode)
  }

  /** Each present field has the kind to_numpy writes at that position. */
  predicate LayoutOk(arr: seq<PyValue>) {
    && (forall i :: 0 <= i < |arr| && i < 4 ==> arr[i].Num?)
    && (|arr| > 4 ==> arr[4].Flag?) && (|arr| > 5 ==> arr[5].Num?)
    && (|arr| > 6 ==> arr[6].Str?) && (|arr| > 7 ==> arr[7].Str?)
    && (|arr| > 8 ==> arr[8].Num?)
  }

  /** Every character of s is ASCII. */
  predicate Ascii(s: string) {
    forall i :: 0 <= i < |s| ==> s[i] < 128 as char
  }

  /** `arr.astype(np.bytes_)` encodes unicode strings as ASCII, so it fails on
      an unencoded array holding a non-ASCII string. */
  predicate BytesCastFails(arr: FieldArray) {
    !arr.encoded && exists i :: 0 <= i < |arr.fields| && arr.fields[i].Str? && !Ascii(arr.fields[i].s)
  }

  /** BBox.from_numpy: the cast to bytes fails first on non-ASCII text of an
      unencoded array; then fewer than four fields fail to unpack; missing
      trailing fields take their defaults. */
  function FromFields(arr: FieldArray): (r: Result<BBox>)
    requires LayoutOk(arr.fields)
    ensures (r.Err? && r.error == UnicodeEncodeError) <==> BytesCastFails(arr)
    ensures (r.Err? && r.error == ValueError) <==> !BytesCastFails(arr) && |arr.fields| < 4
    ensures r.Ok? ==> r.value.Valid()
    ensures r.Ok? && |arr.fields| <= 4 ==> !r.value.normalized
    ensures r.Ok? && |arr.fields| <= 5 ==> r.value.conf == 1.0
    ensures r.Ok? && |arr.fields| <= 6 ==> r.value.className == "0"
    ensures r.Ok? && |arr.fields| <= 7 ==> r.value.text == ""
    ensures r.Ok? && |arr.fields| <= 8 ==> r.value.textConf == 1.0
  {
    var f := arr.fields;
    if BytesCastFails(arr) then Err(UnicodeEncodeError)
    else if |f| < 4 then Err(ValueError)
    else
      Ok(Make(f[0].n, f[1].n, f[2].n, f[3].n,
              if |f| > 4 then f[4].b else false,
              if |f| > 5 then f[5].n else 1.0,
              if |f| > 6 then f[6].s else "0",
              if |f| > 7 then f[7].s else "",
              if |f| > 8 then f[8].n else 1.0))
  }

  /** from_numpy(to_numpy(b, encode=True)) reproduces all nine fields; without
      encoding it does so exactly when the label and the text are ASCII. */
  lemma {:induction false} FieldsRoundTrip(b: BBox)
    requires b.Valid()
    ensures FromFields(ToFields(b, true)) == Ok(b)
    ensures FromFields(ToFields(b, false))
         == if Ascii(b.className) && Ascii(b.text) then Ok(b) else Err(UnicodeEncodeError)
  {
    MakeOfValid(b);
    var f := ToFields(b, false).fields;
    if !Ascii(b.className) {
      assert f[6].Str? && !Ascii(f[6].s);
    } else if !Ascii(b.text) {
      assert f[7].Str? && !Ascii(f[7].s);
    } else {
      forall i | 0 <= i < |f| && f[i].Str? ensures Ascii(f[i].s) {
        assert i == 6 || i == 7;
      }
    }
  }

  /** BBox.to_dict: the same nine values keyed by field name. */
  function ToDict(b: BBox): (d: map<string, PyValue>)
    ensures forall k :: k in d <==> k in FieldNames
    ensures forall i :: 0 <= i < |FieldNames| ==> d[FieldNames[i]] == ToFields(b).fields[i]
  {
    map["x1" := Num(b.x1), "y1" := Num(b.y1), "x2" := Num(b.x2), "y2" := Num(b.y2),
        "normalized" := Flag(b.normalized), "conf" := Num(b.conf), "label" := Str(b.className),
        "text" := Str(b.text), "text_conf" := Num(b.textConf)]
  }
}
