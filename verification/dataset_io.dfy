/** Loading a YOLO-format detection dataset: each image's label file sits in a
    sibling directory of the image directory, and each line of a label file
    is a class index followed by a normalized centre, width and height. The
    file system (existence tests, file contents, image sizes) and Python's
    float parser are parameters. */
module DatasetIo {
  import opened Wrappers
  import opened Numeric
  import opened PyList
  import opened OcrBBox

  /** A path as pathlib holds it: an anchor ("" for a relative path, "/" for an
      absolute one) and the components after it. */
  datatype Path = Path(anchor: string, parts: seq<string>)

  /** `Path.name`: the last component, "" when there is none. */
  function Name(p: Path): string {
    if p.parts == [] then "" else p.parts[|p.parts| - 1]
  }

  /** `Path.parent`: the path without its last component (the anchor and "."
      are their own parents). */
  function Parent(p: Path): (r: Path)
    ensures r.anchor == p.anchor
    ensures p.parts != [] ==> r.parts + [Name(p)] == p.parts
  {
    if p.parts == [] then p else Path(p.anchor, p.parts[..|p.parts| - 1])
  }

  /** `Path.joinpath(c)` for a single component c. */
  function JoinPath(p: Path, c: string): (r: Path)
    ensures Name(r) == c && Parent(r) == p
  {
    Path(p.anchor, p.parts + [c])
  }

  /** The position of the last '.' in s, or -1 (`str.rfind('.')`). */
  function LastDot(s: string): (i: int)
    ensures -1 <= i < |s|
    ensures i >= 0 ==> s[i] == '.'
    ensures forall j :: i < j < |s| ==> s[j] != '.'
  {
    if s == [] then -1
    else if s[|s| - 1] == '.' then |s| - 1
    else LastDot(s[..|s| - 1])
  }

  /** `PurePath.stem` of a name: the name without its suffix, where a suffix is a
      last '.' that is neither the first nor the last character. */
  function Stem(name: string): (r: string)
    ensures |r| <= |name| && r == name[..|r|]
    ensures '.' !in name ==> r == name
  {
    var i := LastDot(name);
    if 0 < i < |name| - 1 then name[..i] else name
  }

  /** `_get_label_path(image, subdir)`: `<image's grandparent>/<subdir>/<stem>.txt`;
      `with_suffix` refuses a path with an empty name. */
  function LabelPath(image: Path, subdir: string := "labels"): (r: Result<Path>)
    ensures r.Err? <==> Name(image) == ""
    ensures r.Err? ==> r.error == ValueError
    ensures r.Ok? ==> Name(r.value) == Stem(Name(image)) + ".txt"
    ensures r.Ok? ==> Name(Parent(r.value)) == subdir
    ensures r.Ok? ==> Parent(Parent(r.value)) == Parent(Parent(image))
  {
    if Name(image) == "" then Err(ValueError) else Ok(LabelPathOf(image, subdir))
  }

  /** The label path of an image that has a name. */
  function LabelPathOf(image: Path, subdir: string := "labels"): Path {
    JoinPath(JoinPath(Parent(Parent(image)), subdir), Stem(Name(image)) + ".txt")
  }

  /** The image of an image/label pair. */
  function ImageOf(pair: (Path, Path)): Path {
    pair.0
  }

  /** `data/images/a.png` has its labels in `data/labels/a.txt`. */
  lemma LabelPathExample()
    ensures LabelPath(Path("", ["data", "images", "a.png"])) == Ok(Path("", ["data", "labels", "a.txt"]))
  {
    var img := Path("", ["data", "images", "a.png"]);
    assert Name(img) == "a" + "." + "png";
    StemOfSuffixed("a", "png");
    assert Parent(Parent(img)) == Path("", ["data"]);
    assert Stem(Name(img)) + ".txt" == "a.txt";
    assert LabelPathOf(img) == Path("", ["data"] + ["labels"] + ["a.txt"]);
    assert ["data"] + ["labels"] + ["a.txt"] == ["data", "labels", "a.txt"];
  }

  /** Two images of one directory whose names differ only in their suffix share
      a label file. */
  lemma {:induction false} LabelPathIgnoresSuffix(dir: Path, stem: string, s1: string, s2: string)
    requires stem != [] && stem[0] != '.' && '.' !in stem
    requires s1 != [] && '.' !in s1 && s2 != [] && '.' !in s2
    ensures LabelPath(JoinPath(dir, stem + "." + s1)) == LabelPath(JoinPath(dir, stem + "." + s2))
  {
    StemOfSuffixed(stem, s1);
    StemOfSuffixed(stem, s2);
  }

  lemma {:induction false} StemOfSuffixed(stem: string, suf: string)
    requires stem != [] && '.' !in stem && suf != [] && '.' !in suf
    ensures Stem(stem + "." + suf) == stem
  {
    var n := stem + "." + suf;
    assert n[|stem|] == '.';
    assert forall j :: |stem| < j < |n| ==> n[j] == suf[j - |stem| - 1];
    var i := LastDot(n);
    assert i == |stem|;
    assert n[..i] == stem;
  }

  /** Each image with its label path (line 48 of the loader). */
  function Pairs(images: seq<Path>): (r: seq<(Path, Path)>)
    ensures |r| == |images| && forall i :: 0 <= i < |images| ==> r[i] == (images[i], LabelPathOf(images[i]))
  {
    Map(images, (img: Path) => (img, LabelPathOf(img)))
  }

  /** The filter of line 49: the pair's label file exists. */
  function HasLabel(fileExists: Path -> bool): ((Path, Path)) -> bool {
    (pl: (Path, Path)) => fileExists(pl.1)
  }

  /** The image/label pairs whose label file exists, in image order. All label
      paths are computed first; when no label exists, unpacking the empty list
      of pairs is a ValueError. */
  function KeptPairs(images: seq<Path>, fileExists: Path -> bool): (r: Result<seq<(Path, Path)>>)
    ensures r.Ok? ==> |r.value| > 0
    ensures r.Err? ==> r.error == ValueError
  {
    if exists i :: 0 <= i < |images| && Name(images[i]) == "" then Err(ValueError)
    else
      var kept := Filter(Pairs(images), HasLabel(fileExists));
      if kept == [] then Err(ValueError) else Ok(kept)
  }

  /** The kept pairs are images of the input with their own, existing label
      files; the load fails exactly when an image has no name or no image has
      a label file. */
  lemma {:induction false} KeptPairsSpec(images: seq<Path>, fileExists: Path -> bool)
    ensures var r := KeptPairs(images, fileExists);
      && (r.Ok? ==> forall k :: 0 <= k < |r.value| ==>
            r.value[k].0 in images && LabelPath(r.value[k].0) == Ok(r.value[k].1) && fileExists(r.value[k].1))
      && (r.Err? <==> (exists i :: 0 <= i < |images| && Name(images[i]) == "")
                      || forall i :: 0 <= i < |images| ==> !fileExists(LabelPathOf(images[i])))
  {
    if exists i :: 0 <= i < |images| && Name(images[i]) == "" {
      assert KeptPairs(images, fileExists).Err?;
    } else {
      var kept := Filter(Pairs(images), HasLabel(fileExists));
      assert KeptPairs(images, fileExists) == if kept == [] then Err(ValueError) else Ok(kept);
      KeptEmpty(images, fileExists);
      KeptLabelled(images, fileExists);
    }
  }

  lemma {:induction false} KeptEmpty(images: seq<Path>, fileExists: Path -> bool)
    ensures var kept := Filter(Pairs(images), HasLabel(fileExists));
      kept == [] <==> forall i :: 0 <= i < |images| ==> !fileExists(LabelPathOf(images[i]))
  {
    if Filter(Pairs(images), HasLabel(fileExists)) == [] {
      NoneKept(images, fileExists);
    } else {
      SomeKept(images, fileExists);
    }
  }

  lemma {:induction false} NoneKept(images: seq<Path>, fileExists: Path -> bool)
    requires Filter(Pairs(images), HasLabel(fileExists)) == []
    ensures forall i :: 0 <= i < |images| ==> !fileExists(LabelPathOf(images[i]))
  {
    var pairs := Pairs(images);
    FilterKeeps(pairs, HasLabel(fileExists));
    forall i | 0 <= i < |images| ensures !fileExists(LabelPathOf(images[i])) {
      assert HasLabel(fileExists)(pairs[i]) == fileExists(LabelPathOf(images[i]));
    }
  }

  lemma {:induction false} SomeKept(images: seq<Path>, fileExists: Path -> bool)
    requires Filter(Pairs(images), HasLabel(fileExists)) != []
    ensures exists i :: 0 <= i < |images| && fileExists(LabelPathOf(images[i]))
  {
    var pairs := Pairs(images);
    var kept := Filter(pairs, HasLabel(fileExists));
    FilterFrom(pairs, HasLabel(fileExists));
    assert kept[0] in pairs;
    var i :| 0 <= i < |pairs| && pairs[i] == kept[0];
    assert HasLabel(fileExists)(kept[0]);
    assert fileExists(LabelPathOf(images[i]));
  }

  lemma {:induction false} KeptLabelled(images: seq<Path>, fileExists: Path -> bool)
    requires forall i :: 0 <= i < |images| ==> Name(images[i]) != ""
    ensures var kept := Filter(Pairs(images), HasLabel(fileExists));
      forall k :: 0 <= k < |kept| ==>
        kept[k].0 in images && LabelPath(kept[k].0) == Ok(kept[k].1) && fileExists(kept[k].1)
  {
    var pairs := Pairs(images);
    var kept := Filter(pairs, HasLabel(fileExists));
    FilterFrom(pairs, HasLabel(fileExists));
    forall k | 0 <= k < |kept|
      ensures kept[k].0 in images && LabelPath(kept[k].0) == Ok(kept[k].1) && fileExists(kept[k].1)
    {
      var pk := kept[k];
      assert pk in pairs;
      var i :| 0 <= i < |pairs| && pairs[i] == pk;
      assert pk == (images[i], LabelPathOf(images[i]));
      assert Name(images[i]) != "";
    }
  }

  /** Keeping the labelled images keeps them in their original order. */
  lemma {:induction false} KeptInOrder(images: seq<Path>, fileExists: Path -> bool)
    requires forall i :: 0 <= i < |images| ==> Name(images[i]) != ""
    requires KeptPairs(images, fileExists).Ok?
    ensures IsSubsequence(Map(KeptPairs(images, fileExists).value, ImageOf), images)
  {
    var pairs := Pairs(images);
    var kept := Filter(pairs, HasLabel(fileExists));
    SubsequenceMap(kept, pairs, ImageOf);
    assert Map(pairs, ImageOf) == images;
  }

  lemma {:induction false} SubsequenceMap<A, B>(r: seq<A>, s: seq<A>, f: A -> B)
    requires IsSubsequence(r, s)
    ensures IsSubsequence(Map(r, f), Map(s, f))
    decreases |s|
  {
    if r != [] && s != [] {
      assert Map(r, f)[1..] == Map(r[1..], f);
      assert Map(s, f)[1..] == Map(s[1..], f);
      if r[0] == s[0] {
        SubsequenceMap(r[1..], s[1..], f);
      } else {
        SubsequenceMap(r, s[1..], f);
        if Map(r, f)[0] == Map(s, f)[0] {
          SubsequenceDropHead(Map(r, f), Map(s, f)[1..]);
        }
      }
    }
  }

  /** Python's `str.split(sep)`: the pieces between separators, empty pieces
      included. */
  function Split(s: string, sep: char): (r: seq<string>)
    ensures |r| > 0
    ensures forall i :: 0 <= i < |r| ==> sep !in r[i]
  {
    if s == [] then [""]
    else
      var rest := Split(s[1..], sep);
      if s[0] == sep then [""] + rest else [[s[0]] + rest[0]] + rest[1..]
  }

  /** `sep.join(parts)`. */
  function JoinWith(parts: seq<string>, sep: char): string
    requires |parts| > 0
  {
    if |parts| == 1 then parts[0] else parts[0] + [sep] + JoinWith(parts[1..], sep)
  }

  /** Splitting loses nothing: joining the pieces with the separator gives the
      line back. */
  lemma {:induction false} SplitJoin(s: string, sep: char)
    ensures JoinWith(Split(s, sep), sep) == s
  {
    if s != [] {
      var rest := Split(s[1..], sep);
      SplitJoin(s[1..], sep);
      if s[0] == sep {
        assert ([""] + rest)[1..] == rest;
      } else {
        var r := Split(s, sep);
        assert r[1..] == rest[1..];
        if |rest| > 1 {
          assert JoinWith(rest, sep) == rest[0] + [sep] + JoinWith(rest[1..], sep);
        }
      }
    }
  }

  /** Every piece is a number Python's `float` accepts. */
  predicate AllFloats(pieces: seq<string>, toFloat: string -> Option<real>) {
    forall i :: 0 <= i < |pieces| ==> toFloat(pieces[i]).Some?
  }

  /** Python's `float` on each piece (a piece it refuses reads as 0 here). */
  function Floats(pieces: seq<string>, toFloat: string -> Option<real>): (r: seq<real>)
    ensures |r| == |pieces|
    ensures forall i :: 0 <= i < |pieces| && toFloat(pieces[i]).Some? ==> r[i] == toFloat(pieces[i]).value
  {
    seq(|pieces|, i requires 0 <= i < |pieces| =>
      match toFloat(pieces[i]) case Some(x) => x case None => 0.0)
  }

  /** One label line as a box: the line is split on single spaces and every
      piece is parsed as a float (a ValueError if one is not a number); the
      first number, truncated, indexes the class names (an IndexError if out of
      range); exactly four numbers must follow (otherwise from_cxcywh's
      arguments do not fit: a TypeError). The normalized box is denormalized
      against the image size. */
  function ParseLine(line: string, classNames: seq<string>, toFloat: string -> Option<real>,
                     width: real, height: real): (r: Result<BBox>)
    ensures (r.Err? && r.error == ValueError) <==> !AllFloats(Split(line, ' '), toFloat)
    ensures var nums := Floats(Split(line, ' '), toFloat);
      var floats, known := AllFloats(Split(line, ' '), toFloat), PyIndex(|classNames|, Trunc(nums[0])).Some?;
      && (r.Ok? <==> floats && known && |nums| == 5)
      && ((r.Err? && r.error == IndexError) <==> floats && !known)
      && ((r.Err? && r.error == TypeError) <==> floats && known && |nums| != 5)
    ensures r.Ok? ==> var nums := Floats(Split(line, ' '), toFloat);
      && |nums| == 5
      && PyIndex(|classNames|, Trunc(nums[0])).Some?
      && r.value.className == classNames[PyIndex(|classNames|, Trunc(nums[0])).value]
      && r.value.Valid() && !r.value.normalized && r.value.conf == 1.0 && r.value.text == ""
      && r.value.At(ToPixels(nums[1] - nums[3] / 2.0, width), ToPixels(nums[2] - nums[4] / 2.0, height),
                    ToPixels(nums[1] + nums[3] / 2.0, width), ToPixels(nums[2] + nums[4] / 2.0, height))
  {
    var pieces := Split(line, ' ');
    if !AllFloats(pieces, toFloat) then Err(ValueError)
    else
      var nums := Floats(pieces, toFloat);
      match PyIndex(|classNames|, Trunc(nums[0]))
      case None => Err(IndexError)
      case Some(c) =>
        if |nums| != 5 then Err(TypeError)
        else
          var b := FromCxcywh(nums[1], nums[2], nums[3], nums[4], true, 1.0, classNames[c]);
          Ok(Denormalize(b, width, height))
  }

  /** The boxes of a label file, line by line; the first bad line's error ends
      the load. */
  function ParseLines(lines: seq<string>, classNames: seq<string>, toFloat: string -> Option<real>,
                      width: real, height: real): Result<seq<BBox>>
  {
    MapAll(lines, (line: string) => ParseLine(line, classNames, toFloat, width, height))
  }

  /** What load_yolo returns per image: the detections of its label file, the
      image size and the image's file name. */
  datatype Detections = Detections(bboxes: seq<BBox>, width: real, height: real, name: string)

  /** The file-system and parser inputs of load_yolo. */
  datatype Environment = Environment(
    fileExists: Path -> bool,
    readLines: Path -> seq<string>,
    imageSize: string -> (real, real),
    toFloat: string -> Option<real>)

  /** The detections of one kept image: its label file parsed against the size
      of the image looked up by file name. */
  function DetectionOf(pair: (Path, Path), classNames: seq<string>, env: Environment): (r: Result<Detections>)
    ensures r.Ok? ==> r.value.name == Name(pair.0) && (r.value.width, r.value.height) == env.imageSize(Name(pair.0))
    ensures r.Ok? ==> |r.value.bboxes| == |env.readLines(pair.1)|
    ensures r.Ok? ==> var (w, h) := env.imageSize(Name(pair.0));
      forall j :: 0 <= j < |env.readLines(pair.1)| ==>
        ParseLine(env.readLines(pair.1)[j], classNames, env.toFloat, w, h) == Ok(r.value.bboxes[j])
    ensures r.Err? <==> var (w, h) := env.imageSize(Name(pair.0));
      exists j :: 0 <= j < |env.readLines(pair.1)| &&
        ParseLine(env.readLines(pair.1)[j], classNames, env.toFloat, w, h).Err?
  {
    var name := Name(pair.0);
    var (w, h) := env.imageSize(name);
    match ParseLines(env.readLines(pair.1), classNames, env.toFloat, w, h)
    case Err(e) => Err(e)
    case Ok(bs) => Ok(Detections(bs, w, h, name))
  }

  /** The detections of all kept images, in order; the first failure ends the load. */
  function DetectionsOf(kept: seq<(Path, Path)>, classNames: seq<string>, env: Environment): Result<seq<Detections>>
  {
    MapAll(kept, (pair: (Path, Path)) => DetectionOf(pair, classNames, env))
  }

  /** What load_yolo computes: the kept images and, per kept image in order,
      its detections. */
  function LoadYoloResult(images: seq<Path>, classNames: seq<string>, env: Environment)
    : Result<(seq<Path>, seq<Detections>)>
  {
    match KeptPairs(images, env.fileExists)
    case Err(e) => Err(e)
    case Ok(kept) =>
      if !Distinct(Map(kept, ImageName)) then Err(AssertionError)
      else match DetectionsOf(kept, classNames, env)
      case Err(e) => Err(e)
      case Ok(ds) => Ok((Map(kept, ImageOf), ds))
  }

  /** The file name of a pair's image: the name it is looked up by in the dataset. */
  function ImageName(pair: (Path, Path)): string {
    Name(pair.0)
  }

  /** The dataset of kept images is named by file name, and its setup rejects
      duplicate names: two kept images with one file name fail the load, and a
      successful load has distinct image file names. */
  lemma {:induction false} LoadYoloNames(images: seq<Path>, classNames: seq<string>, env: Environment)
    ensures var r, kp := LoadYoloResult(images, classNames, env), KeptPairs(images, env.fileExists);
      && (kp.Ok? && !Distinct(Map(kp.value, ImageName)) ==> r == Err(AssertionError))
      && (r.Ok? ==> Distinct(Map(r.value.0, Name)))
  {
    var r, kp := LoadYoloResult(images, classNames, env), KeptPairs(images, env.fileExists);
    if r.Ok? {
      var kept := kp.value;
      var names := Map(r.value.0, Name);
      assert r.value.0 == Map(kept, ImageOf);
      forall i | 0 <= i < |names| ensures names[i] == Map(kept, ImageName)[i] {
        assert r.value.0[i] == kept[i].0;
      }
      assert names == Map(kept, ImageName);
    }
  }

  /** A successful load pairs every kept image, in order, with detections
      carrying that image's file name; there is at least one. */
  lemma {:induction false} LoadYoloAligned(images: seq<Path>, classNames: seq<string>, env: Environment)
    ensures var r := LoadYoloResult(images, classNames, env);
      r.Ok? ==> (&& |r.value.0| == |r.value.1| > 0
                 && forall k :: 0 <= k < |r.value.0| ==>
                      r.value.0[k] in images && r.value.1[k].name == Name(r.value.0[k]))
  {
    var kp := KeptPairs(images, env.fileExists);
    if kp.Ok? && DetectionsOf(kp.value, classNames, env).Ok? {
      KeptPairsSpec(images, env.fileExists);
      Aligned(images, kp.value, Map(kp.value, ImageOf), DetectionsOf(kp.value, classNames, env).value,
              classNames, env);
    }
  }

  lemma {:induction false} Aligned(images: seq<Path>, kept: seq<(Path, Path)>, imgs: seq<Path>,
                                   ds: seq<Detections>, classNames: seq<string>, env: Environment)
    requires forall k :: 0 <= k < |kept| ==> kept[k].0 in images
    requires imgs == Map(kept, ImageOf) && DetectionsOf(kept, classNames, env) == Ok(ds)
    ensures |imgs| == |ds| && forall k :: 0 <= k < |imgs| ==> imgs[k] in images && ds[k].name == Name(imgs[k])
  {
    forall k | 0 <= k < |imgs| ensures imgs[k] in images && ds[k].name == Name(imgs[k]) {
      assert imgs[k] == kept[k].0;
      assert DetectionOf(kept[k], classNames, env) == Ok(ds[k]);
    }
  }

  /** `load_yolo` after reading the dataset description: pair the images with
      their label files, keep the labelled ones, and parse every label file
      against its image's size. The dataset of kept images is returned as the
      list of their paths. */
  method LoadYolo(images: seq<Path>, classNames: seq<string>, env: Environment)
    returns (r: Result<(seq<Path>, seq<Detections>)>)
    ensures r == LoadYoloResult(images, classNames, env)
  {
    var kp := KeptPairs(images, env.fileExists);
    if kp.Err? {
      return Err(kp.error);
    }
    var kept := kp.value;
    if !Distinct(Map(kept, ImageName)) {
      return Err(AssertionError);
    }
    var dets: seq<Detections> := [];
    var i := 0;
    while i < |kept|
      invariant 0 <= i <= |kept|
      invariant DetectionsOf(kept[..i], classNames, env) == Ok(dets)
    {
      var d := ReadDetections(kept[i], classNames, env);
      if d.Err? {
        MapAllFirstErr(kept, i, (pair: (Path, Path)) => DetectionOf(pair, classNames, env));
        return Err(d.error);
      }
      MapAllSnoc(kept, i, dets, d.value, (pair: (Path, Path)) => DetectionOf(pair, classNames, env));
      dets := dets + [d.value];
      i := i + 1;
    }
    assert kept[..i] == kept;
    r := Ok((Map(kept, ImageOf), dets));
  }

  /** The inner loop of load_yolo: one image's label lines parsed into boxes. */
  method ReadDetections(pair: (Path, Path), classNames: seq<string>, env: Environment)
    returns (r: Result<Detections>)
    ensures r == DetectionOf(pair, classNames, env)
  {
    var (img, labelFile) := pair;
    var name := Name(img);
    var (w, h) := env.imageSize(name);
    var lines := env.readLines(labelFile);
    var bboxes: seq<BBox> := [];
    var j := 0;
    while j < |lines|
      invariant 0 <= j <= |lines|
      invariant ParseLines(lines[..j], classNames, env.toFloat, w, h) == Ok(bboxes)
    {
      var b := ParseLine(lines[j], classNames, env.toFloat, w, h);
      if b.Err? {
        MapAllFirstErr(lines, j, (line: string) => ParseLine(line, classNames, env.toFloat, w, h));
        return Err(b.error);
      }
      MapAllSnoc(lines, j, bboxes, b.value, (line: string) => ParseLine(line, classNames, env.toFloat, w, h));
      bboxes := bboxes + [b.value];
      j := j + 1;
    }
    assert lines[..j] == lines;
    r := Ok(Detections(bboxes, w, h, name));
  }
}
