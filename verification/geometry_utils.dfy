/** Affine helpers on batches of box corners given as fractions of the image
    size: remapping relative coordinates to a resized (padded or cropped)
    image, and turning straight boxes into their four corners. */
module GeometryUtils {
  import opened Wrappers
  import opened Numeric

  /** One corner (x, y), as fractions of the image width and height. */
  datatype Point = Point(x: real, y: real)

  /** A batch of boxes as numpy holds it: an (N, cols) array of straight boxes
      (x1, y1, x2, y2[, conf]) or an (N, 4, 2) array of polygons. */
  datatype LocPreds =
    | Straight(cols: nat, rows: seq<seq<real>>)
    | Polygons(polys: seq<seq<Point>>)

  /** numpy arrays are rectangular. */
  predicate WellShaped(l: LocPreds) {
    match l
    case Straight(cols, rows) => forall i :: 0 <= i < |rows| ==> |rows[i]| == cols
    case Polygons(polys) => forall i :: 0 <= i < |polys| ==> |polys[i]| == 4
  }

  /** One relative coordinate of an image of extent o, re-expressed for an image
      of extent d that shares its centre: the distance to the centre in pixels
      is kept. */
  function RemapCoord(v: real, o: real, d: real): (r: real)
    requires d != 0.0
    ensures (r - 0.5) * d == (v - 0.5) * o
  {
    (v * o + (d - o) / 2.0) / d
  }

  /** remap_boxes: both shapes must have two entries (height, width); every x is
      remapped with the widths and every y with the heights, into a new array of
      the same shape. */
  function RemapBoxes(locPreds: seq<seq<Point>>, origShape: seq<real>, destShape: seq<real>): (r: Result<seq<seq<Point>>>)
    requires |destShape| == 2 ==> destShape[0] != 0.0 && destShape[1] != 0.0
    ensures r.Err? <==> |destShape| != 2 || |origShape| != 2
    ensures r.Err? ==> r.error == ValueError
    ensures r.Ok? ==> |r.value| == |locPreds|
    ensures r.Ok? ==> forall i :: 0 <= i < |locPreds| ==> |r.value[i]| == |locPreds[i]|
    ensures r.Ok? ==> forall i, j :: 0 <= i < |locPreds| && 0 <= j < |locPreds[i]| ==>
      r.value[i][j] == Point(RemapCoord(locPreds[i][j].x, origShape[1], destShape[1]),
                             RemapCoord(locPreds[i][j].y, origShape[0], destShape[0]))
  {
    if |destShape| != 2 then Err(ValueError)
    else if |origShape| != 2 then Err(ValueError)
    else
      var oh, ow, dh, dw := origShape[0], origShape[1], destShape[0], destShape[1];
      Ok(seq(|locPreds|, i requires 0 <= i < |locPreds| =>
        seq(|locPreds[i]|, j requires 0 <= j < |locPreds[i]| =>
          Point(RemapCoord(locPreds[i][j].x, ow, dw), RemapCoord(locPreds[i][j].y, oh, dh)))))
  }

  /** Remapping to the shape one started from changes no coordinate. */
  lemma {:induction false} RemapIdentity(locPreds: seq<seq<Point>>, shape: seq<real>)
    requires |shape| == 2 && shape[0] != 0.0 && shape[1] != 0.0
    ensures RemapBoxes(locPreds, shape, shape) == Ok(locPreds)
  {
    var r := RemapBoxes(locPreds, shape, shape).value;
    forall i, j | 0 <= i < |locPreds| && 0 <= j < |locPreds[i]|
      ensures r[i][j] == locPreds[i][j]
    {
      CoordIdentity(locPreds[i][j].x, shape[1]);
      CoordIdentity(locPreds[i][j].y, shape[0]);
    }
    forall i | 0 <= i < |locPreds| ensures r[i] == locPreds[i] {
    }
    assert r == locPreds;
  }

  lemma {:induction false} CoordIdentity(v: real, s: real)
    requires s != 0.0
    ensures RemapCoord(v, s, s) == v
  {
    var r := RemapCoord(v, s, s);
    assert (r - v) * s == 0.0;
  }

  /** Remapping back to the original shape undoes a remap. */
  lemma {:induction false} RemapInverse(locPreds: seq<seq<Point>>, origShape: seq<real>, destShape: seq<real>)
    requires |origShape| == 2 && origShape[0] != 0.0 && origShape[1] != 0.0
    requires |destShape| == 2 && destShape[0] != 0.0 && destShape[1] != 0.0
    ensures RemapBoxes(RemapBoxes(locPreds, origShape, destShape).value, destShape, origShape) == Ok(locPreds)
  {
    var m := RemapBoxes(locPreds, origShape, destShape).value;
    var r := RemapBoxes(m, destShape, origShape).value;
    forall i, j | 0 <= i < |locPreds| && 0 <= j < |locPreds[i]|
      ensures r[i][j] == locPreds[i][j]
    {
      CoordInverse(locPreds[i][j].x, origShape[1], destShape[1]);
      CoordInverse(locPreds[i][j].y, origShape[0], destShape[0]);
    }
    forall i | 0 <= i < |locPreds| ensures r[i] == locPreds[i] {
    }
    assert r == locPreds;
  }

  lemma {:induction false} CoordInverse(v: real, o: real, d: real)
    requires o != 0.0 && d != 0.0
    ensures RemapCoord(RemapCoord(v, o, d), d, o) == v
  {
    var m := RemapCoord(v, o, d);
    var r := RemapCoord(m, d, o);
    assert (r - 0.5) * o == (m - 0.5) * d;
    assert (r - v) * o == 0.0;
  }

  /** The corners (x1,y1), (x2,y1), (x2,y2), (x1,y2) of a straight box; columns
      past the fourth (a confidence) are ignored. */
  function Corners(row: seq<real>): (c: seq<Point>)
    requires |row| >= 4
    ensures |c| == 4
    ensures c[0].x == c[3].x == row[0] && c[1].x == c[2].x == row[2]
    ensures c[0].y == c[1].y == row[1] && c[2].y == c[3].y == row[3]
  {
    [Point(row[0], row[1]), Point(row[2], row[1]), Point(row[2], row[3]), Point(row[0], row[3])]
  }

  /** The straight box spanned by a polygon's first and third corners. */
  function StraightOf(c: seq<Point>): (row: seq<real>)
    requires |c| == 4
    ensures |row| == 4 && row[0] == c[0].x && row[1] == c[0].y && row[2] == c[2].x && row[3] == c[2].y
  {
    [c[0].x, c[0].y, c[2].x, c[2].y]
  }

  /** Taking the corners loses nothing but the extra columns. */
  lemma {:induction false} CornersRoundTrip(row: seq<real>)
    requires |row| >= 4
    ensures StraightOf(Corners(row)) == row[..4]
  {
  }

  /** For an ordered box every corner lies on the box: the corners span exactly
      the original rectangle. */
  lemma {:induction false} CornersSpanBox(row: seq<real>)
    requires |row| >= 4 && row[0] <= row[2] && row[1] <= row[3]
    ensures var c := Corners(row);
      && (forall k :: 0 <= k < 4 ==> row[0] <= c[k].x <= row[2] && row[1] <= c[k].y <= row[3])
      && (exists k :: 0 <= k < 4 && c[k] == Point(row[0], row[1]))
      && (exists k :: 0 <= k < 4 && c[k] == Point(row[2], row[3]))
  {
    var c := Corners(row);
    assert c[0] == Point(row[0], row[1]);
    assert c[2] == Point(row[2], row[3]);
  }

  /** The corner form rotate_boxes works on: straight boxes are converted, an
      array that has no fourth column fails to index, polygons are copied. */
  function CornerForm(l: LocPreds): (r: Result<seq<seq<Point>>>)
    requires WellShaped(l)
    ensures r.Err? <==> l.Straight? && l.cols < 4
    ensures r.Err? ==> r.error == IndexError
    ensures r.Ok? ==> WellShaped(Polygons(r.value))
    ensures r.Ok? && l.Polygons? ==> r.value == l.polys
    ensures r.Ok? && l.Straight? ==> |r.value| == |l.rows|
    ensures r.Ok? && l.Straight? ==>
      forall i :: 0 <= i < |l.rows| ==> StraightOf(r.value[i]) == l.rows[i][..4]
    ensures r.Ok? && l.Straight? ==> forall i :: 0 <= i < |l.rows| ==> r.value[i] == Corners(l.rows[i])
  {
    match l
    case Polygons(polys) => Ok(polys)
    case Straight(cols, rows) =>
      if cols < 4 then Err(IndexError)
      else
        var c := seq(|rows|, i requires 0 <= i < |rows| => Corners(rows[i]));
        assert forall i :: 0 <= i < |rows| ==> StraightOf(c[i]) == rows[i][..4] by {
          forall i | 0 <= i < |rows| ensures StraightOf(c[i]) == rows[i][..4] {
            CornersRoundTrip(rows[i]);
          }
        }
        Ok(c)
  }

  /** The angles for which rotate_boxes does not rotate: closer than min_angle
      to 0 or to 90 degrees. */
  predicate SmallAngle(angle: real, minAngle: real) {
    Abs(angle) < minAngle || Abs(angle) > 90.0 - minAngle
  }

  /** What rotate_boxes does after converting to corners: return them as they
      are, or rotate them by the angle (the rotation itself is not modelled). */
  datatype Rotation = Kept(boxes: seq<seq<Point>>) | RotateBy(boxes: seq<seq<Point>>, angle: real)

  /** rotate_boxes up to the rotation: the corner form, kept unrotated exactly
      for a small angle (target_shape is then never consulted). */
  function RotateBoxes(l: LocPreds, angle: real, minAngle: real := 1.0): (r: Result<Rotation>)
    requires WellShaped(l)
    ensures r.Err? <==> CornerForm(l).Err?
    ensures r.Ok? ==> r.value.boxes == CornerForm(l).value
    ensures r.Ok? ==> (r.value.Kept? <==> SmallAngle(angle, minAngle))
    ensures r.Ok? && r.value.RotateBy? ==> r.value.angle == angle
  {
    match CornerForm(l)
    case Err(e) => Err(e)
    case Ok(c) => if SmallAngle(angle, minAngle) then Ok(Kept(c)) else Ok(RotateBy(c, angle))
  }
}
