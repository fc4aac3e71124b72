/** Reading order for straight word boxes: sort them top to bottom and left to
    right, cluster them into lines by vertical centre, and split each line into
    sub-lines at wide horizontal gaps. */
module BoxUtils {
  import opened Wrappers
  import opened Numeric
  import opened PyList
  import opened Sorting

  /** One row of an (N, 4) box array. */
  datatype Row = Row(x1: real, y1: real, x2: real, y2: real)

  /** Every position in s is a row of boxes. */
  predicate Indexes(s: seq<nat>, boxes: seq<Row>) {
    forall k :: 0 <= k < |s| ==> s[k] < |boxes|
  }

  /** Row p of boxes. The methods below only ever look up rows that exist; a
      position past the end reads as a zero row so that the specification
      functions need no precondition. */
  function RowAt(boxes: seq<Row>, p: nat): Row {
    if p < |boxes| then boxes[p] else Row(0.0, 0.0, 0.0, 0.0)
  }

  /** A permutation of valid positions holds only valid positions. */
  lemma {:induction false} IndexesOfPermutation(s: seq<nat>, t: seq<nat>, boxes: seq<Row>)
    requires Indexes(s, boxes) && multiset(t) == multiset(s)
    ensures Indexes(t, boxes)
  {
    forall k | 0 <= k < |t| ensures t[k] < |boxes| {
      assert t[k] in multiset(s);
      var m :| 0 <= m < |s| && s[m] == t[k];
    }
  }

  /** The column `boxes[:, 3] - boxes[:, 1]`. */
  function Heights(boxes: seq<Row>): (hs: seq<real>)
    ensures |hs| == |boxes| && forall i :: 0 <= i < |boxes| ==> hs[i] == boxes[i].y2 - boxes[i].y1
  {
    seq(|boxes|, i requires 0 <= i < |boxes| => boxes[i].y2 - boxes[i].y1)
  }

  /** The sort key `x1 + 2 * y2 / median height` of every row. */
  function SortKeys(boxes: seq<Row>, med: real): (ks: seq<real>)
    requires med != 0.0
    ensures |ks| == |boxes| && forall i :: 0 <= i < |boxes| ==> ks[i] == boxes[i].x1 + 2.0 * boxes[i].y2 / med
  {
    seq(|boxes|, i requires 0 <= i < |boxes| => boxes[i].x1 + 2.0 * boxes[i].y2 / med)
  }

  /** sort_boxes on an (N, 4) array: the boxes unchanged, and the order of rows by
      ascending sort key. */
  function SortBoxes(boxes: seq<Row>): (r: (seq<nat>, seq<Row>))
    requires |boxes| > 0 ==> Median(Heights(boxes)) != 0.0
    ensures r.1 == boxes
    ensures |r.0| == |boxes| && multiset(r.0) == multiset(Range(|boxes|)) && Indexes(r.0, boxes)
    ensures |boxes| > 0 ==> var ks := SortKeys(boxes, Median(Heights(boxes)));
      forall i, j :: 0 <= i < j < |r.0| ==> ks[r.0[i]] <= ks[r.0[j]]
  {
    if |boxes| == 0 then ([], boxes)
    else (ArgSort(SortKeys(boxes, Median(Heights(boxes)))), boxes)
  }

  /** The sort key `lambda idx: boxes[idx, 0]`. */
  function LeftEdge(boxes: seq<Row>): nat -> real {
    (p: nat) => RowAt(boxes, p).x1
  }

  /** `sorted(word_idcs, key=lambda idx: boxes[idx, 0])` (stable). */
  function ByX1(boxes: seq<Row>, words: seq<nat>): (r: seq<nat>)
    ensures |r| == |words|
  {
    SortBy(words, LeftEdge(boxes))
  }

  /** The words of a line in ByX1 order are positions of boxes with ascending
      left edges. */
  lemma {:induction false} ByX1Sorted(boxes: seq<Row>, words: seq<nat>)
    requires Indexes(words, boxes)
    ensures var r := ByX1(boxes, words);
      && Indexes(r, boxes)
      && forall i, j :: 0 <= i < j < |r| ==> boxes[r[i]].x1 <= boxes[r[j]].x1
  {
    var r := ByX1(boxes, words);
    SortByPermutes(words, LeftEdge(boxes));
    IndexesOfPermutation(words, r, boxes);
    SortBySorted(words, LeftEdge(boxes));
    forall i, j | 0 <= i < j < |r| ensures boxes[r[i]].x1 <= boxes[r[j]].x1 {
      assert LeftEdge(boxes)(r[i]) <= LeftEdge(boxes)(r[j]);
    }
  }

  /** Words with equal left edges keep the order they had in words. */
  lemma ByX1Stable(boxes: seq<Row>, words: seq<nat>, x: real)
    ensures Filter(ByX1(boxes, words), KeyIs(LeftEdge(boxes), x))
         == Filter(words, KeyIs(LeftEdge(boxes), x))
  {
    SortByStable(words, LeftEdge(boxes), x);
  }

  /** The horizontal gap from the right edge of box p to the left edge of box q. */
  function Gap(boxes: seq<Row>, p: nat, q: nat): real {
    RowAt(boxes, q).x1 - RowAt(boxes, p).x2
  }

  /** Consecutive boxes of g are closer than the paragraph break. */
  predicate Tight(boxes: seq<Row>, g: seq<nat>, pb: real) {
    forall k :: 0 < k < |g| ==> Gap(boxes, g[k - 1], g[k]) < pb
  }

  /** The sub-lines still to be emitted while cur is the open sub-line and rest
      are the words after it, in x1 order. */
  function SubLinesFrom(boxes: seq<Row>, rest: seq<nat>, cur: seq<nat>, pb: real): seq<seq<nat>>
    requires cur != []
    decreases |rest|
  {
    if rest == [] then [cur]
    else if Gap(boxes, cur[|cur| - 1], rest[0]) < pb then
      SubLinesFrom(boxes, rest[1..], cur + [rest[0]], pb)
    else [cur] + SubLinesFrom(boxes, rest[1..], [rest[0]], pb)
  }

  /** What resolve_sub_lines returns for the words of one line. */
  function SubLines(boxes: seq<Row>, words: seq<nat>, pb: real): seq<seq<nat>> {
    var sorted := ByX1(boxes, words);
    if |sorted| < 2 then [sorted] else SubLinesFrom(boxes, sorted[1..], [sorted[0]], pb)
  }

  /** The sub-lines are non-empty and, concatenated, are the open sub-line
      followed by the rest; the first starts where the open sub-line does. */
  lemma {:induction false} SubLinesFromCover(boxes: seq<Row>, rest: seq<nat>, cur: seq<nat>, pb: real)
    requires cur != []
    ensures var ls := SubLinesFrom(boxes, rest, cur, pb);
      && Flatten(ls) == cur + rest
      && (forall k :: 0 <= k < |ls| ==> ls[k] != [])
      && |ls| > 0 && ls[0][0] == cur[0]
    decreases |rest|
  {
    var ls := SubLinesFrom(boxes, rest, cur, pb);
    if rest == [] {
      assert Flatten(ls) == cur + Flatten([]);
      assert cur + rest == cur;
    } else if Gap(boxes, cur[|cur| - 1], rest[0]) < pb {
      var cur' := cur + [rest[0]];
      SubLinesFromCover(boxes, rest[1..], cur', pb);
      assert cur' + rest[1..] == cur + rest;
    } else {
      var tail := SubLinesFrom(boxes, rest[1..], [rest[0]], pb);
      SubLinesFromCover(boxes, rest[1..], [rest[0]], pb);
      assert ls == [cur] + tail;
      assert ls[1..] == tail;
      assert Flatten(ls) == cur + Flatten(tail);
      assert cur + ([rest[0]] + rest[1..]) == cur + rest;
    }
  }

  /** Inside every sub-line consecutive words are closer than the paragraph break. */
  lemma {:induction false} SubLinesFromTight(boxes: seq<Row>, rest: seq<nat>, cur: seq<nat>, pb: real)
    requires cur != [] && Tight(boxes, cur, pb)
    ensures var ls := SubLinesFrom(boxes, rest, cur, pb);
      |ls| > 0 && forall k :: 0 <= k < |ls| ==> Tight(boxes, ls[k], pb)
    decreases |rest|
  {
    SubLinesFromCover(boxes, rest, cur, pb);
    if rest != [] {
      if Gap(boxes, cur[|cur| - 1], rest[0]) < pb {
        TightExtend(boxes, cur, rest[0], pb);
        SubLinesFromTight(boxes, rest[1..], cur + [rest[0]], pb);
        assert SubLinesFrom(boxes, rest, cur, pb) == SubLinesFrom(boxes, rest[1..], cur + [rest[0]], pb);
      } else {
        SubLinesFromTight(boxes, rest[1..], [rest[0]], pb);
        assert SubLinesFrom(boxes, rest, cur, pb) == [cur] + SubLinesFrom(boxes, rest[1..], [rest[0]], pb);
      }
    }
  }

  /** Each sub-line after the first starts at a gap of at least the paragraph break. */
  lemma {:induction false} SubLinesFromBreaks(boxes: seq<Row>, rest: seq<nat>, cur: seq<nat>, pb: real)
    requires cur != []
    ensures var ls := SubLinesFrom(boxes, rest, cur, pb);
      && |ls| > 0
      && (forall k :: 0 <= k < |ls| ==> ls[k] != [])
      && (forall k :: 0 < k < |ls| ==> Gap(boxes, ls[k - 1][|ls[k - 1]| - 1], ls[k][0]) >= pb)
    decreases |rest|
  {
    SubLinesFromCover(boxes, rest, cur, pb);
    if rest != [] {
      if Gap(boxes, cur[|cur| - 1], rest[0]) < pb {
        var ls, ls' := SubLinesFrom(boxes, rest, cur, pb), SubLinesFrom(boxes, rest[1..], cur + [rest[0]], pb);
        SubLinesFromBreaks(boxes, rest[1..], cur + [rest[0]], pb);
        assert ls == ls';

      } else {
        var tail := SubLinesFrom(boxes, rest[1..], [rest[0]], pb);
        SubLinesFromBreaks(boxes, rest[1..], [rest[0]], pb);
        SubLinesFromCover(boxes, rest[1..], [rest[0]], pb);
        assert SubLinesFrom(boxes, rest, cur, pb) == [cur] + tail;
      }
    }
  }

  lemma {:induction false} TightExtend(boxes: seq<Row>, cur: seq<nat>, w: nat, pb: real)
    requires cur != [] && Tight(boxes, cur, pb) && Gap(boxes, cur[|cur| - 1], w) < pb
    ensures Tight(boxes, cur + [w], pb)
  {
    var cur' := cur + [w];
    forall k | 0 < k < |cur'| ensures Gap(boxes, cur'[k - 1], cur'[k]) < pb {
      if k < |cur| {
        assert cur'[k - 1] == cur[k - 1] && cur'[k] == cur[k];
      }
    }
  }

  /** The sub-lines together are the words sorted by x1, so each word appears
      exactly once; fewer than two words form one group (an empty input gives
      one empty group). */
  lemma {:induction false} SubLinesCover(boxes: seq<Row>, words: seq<nat>, pb: real)
    ensures var ls := SubLines(boxes, words, pb);
      && Flatten(ls) == ByX1(boxes, words)
      && multiset(Flatten(ls)) == multiset(words)
      && (|words| < 2 ==> ls == [ByX1(boxes, words)])
  {
    var sorted := ByX1(boxes, words);
    SortByPermutes(words, LeftEdge(boxes));
    if |sorted| < 2 {
      assert Flatten([sorted]) == sorted + Flatten([]);
    } else {
      SubLinesFromCover(boxes, sorted[1..], [sorted[0]], pb);
      assert [sorted[0]] + sorted[1..] == sorted;
    }
  }

  /** From two words on, every sub-line is non-empty and tight, and a new
      sub-line starts exactly at a gap of at least the paragraph break. */
  lemma {:induction false} SubLinesSplitAtBreaks(boxes: seq<Row>, words: seq<nat>, pb: real)
    requires |words| >= 2
    ensures var ls := SubLines(boxes, words, pb);
      && |ls| > 0
      && (forall k :: 0 <= k < |ls| ==> ls[k] != [] && Tight(boxes, ls[k], pb))
      && (forall k :: 0 < k < |ls| ==> Gap(boxes, ls[k - 1][|ls[k - 1]| - 1], ls[k][0]) >= pb)
  {
    var sorted := ByX1(boxes, words);
    assert Tight(boxes, [sorted[0]], pb);
    SubLinesFromTight(boxes, sorted[1..], [sorted[0]], pb);
    SubLinesFromBreaks(boxes, sorted[1..], [sorted[0]], pb);
  }

  /** The sub-lines of one line hold each of its words exactly once. */
  lemma {:induction false} SubLinesPartition(boxes: seq<Row>, words: seq<nat>, pb: real)
    ensures multiset(Flatten(SubLines(boxes, words, pb))) == multiset(words)
  {
    SubLinesCover(boxes, words, pb);
  }

  /** resolve_sub_lines: split one line's words into sub-lines. */
  method ResolveSubLines(boxes: seq<Row>, wordIdcs: seq<nat>, pb: real) returns (lines: seq<seq<nat>>)
    requires Indexes(wordIdcs, boxes)
    ensures lines == SubLines(boxes, wordIdcs, pb)
  {
    var sorted := ByX1(boxes, wordIdcs);
    ByX1Sorted(boxes, wordIdcs);
    if |sorted| < 2 {
      return [sorted];
    }
    lines := [];
    var subLine := [sorted[0]];
    var i := 1;
    while i < |sorted|
      invariant 1 <= i <= |sorted| && subLine != [] && Indexes(subLine, boxes)
      invariant lines + SubLinesFrom(boxes, sorted[i..], subLine, pb)
                == SubLinesFrom(boxes, sorted[1..], [sorted[0]], pb)
    {
      var w := sorted[i];
      assert sorted[i..][0] == w && sorted[i..][1..] == sorted[i + 1..];
      if boxes[w].x1 - boxes[subLine[|subLine| - 1]].x2 < pb {
        assert SubLinesFrom(boxes, sorted[i..], subLine, pb)
               == SubLinesFrom(boxes, sorted[i + 1..], subLine + [w], pb);
        subLine := subLine + [w];
      } else {
        assert SubLinesFrom(boxes, sorted[i..], subLine, pb)
               == [subLine] + SubLinesFrom(boxes, sorted[i + 1..], [w], pb);
        lines := lines + [subLine];
        subLine := [w];
      }
      i := i + 1;
    }
    assert SubLinesFrom(boxes, sorted[i..], subLine, pb) == [subLine];
    lines := lines + [subLine];
  }

  /** A box's vertical centre, `boxes[idx, [1, 3]].mean()`. */
  function CenterY(b: Row): real {
    (b.y1 + b.y2) / 2.0
  }

  /** The sum of the vertical centres of the boxes at positions ws. */
  function SumCenters(boxes: seq<Row>, ws: seq<nat>): real {
    if ws == [] then 0.0 else SumCenters(boxes, ws[..|ws| - 1]) + CenterY(RowAt(boxes, ws[|ws| - 1]))
  }

  /** Box w joins the line ws: its centre is within half the median height of the
      mean centre of ws. */
  predicate Joins(boxes: seq<Row>, ws: seq<nat>, w: nat, yMed: real)
    requires ws != []
  {
    Abs(CenterY(RowAt(boxes, w)) - SumCenters(boxes, ws) / |ws| as real) < yMed / 2.0
  }

  /** Every box of c after the first joined the boxes before it. */
  predicate Cohesive(boxes: seq<Row>, c: seq<nat>, yMed: real) {
    forall k :: 0 < k < |c| ==> Joins(boxes, c[..k], c[k], yMed)
  }

  /** The vertical clusters still to be emitted while words is the open cluster
      and rest are the boxes after it in sort order. */
  function ClustersFrom(boxes: seq<Row>, rest: seq<nat>, words: seq<nat>, yMed: real): seq<seq<nat>>
    requires words != []
    decreases |rest|
  {
    if rest == [] then [words]
    else if Joins(boxes, words, rest[0], yMed) then
      ClustersFrom(boxes, rest[1..], words + [rest[0]], yMed)
    else [words] + ClustersFrom(boxes, rest[1..], [rest[0]], yMed)
  }

  /** The clusters are non-empty runs that, concatenated, give back the open
      cluster followed by the rest of the sort order. */
  lemma {:induction false} ClustersFromCover(boxes: seq<Row>, rest: seq<nat>, words: seq<nat>, yMed: real)
    requires words != []
    ensures var cs := ClustersFrom(boxes, rest, words, yMed);
      && Flatten(cs) == words + rest
      && (forall k :: 0 <= k < |cs| ==> cs[k] != [])
      && |cs| > 0 && cs[0][0] == words[0]
    decreases |rest|
  {
    var cs := ClustersFrom(boxes, rest, words, yMed);
    if rest == [] {
      assert Flatten(cs) == words + Flatten([]);
      assert words + rest == words;
    } else if Joins(boxes, words, rest[0], yMed) {
      var words' := words + [rest[0]];
      ClustersFromCover(boxes, rest[1..], words', yMed);
      assert words' + rest[1..] == words + rest;
    } else {
      var tail := ClustersFrom(boxes, rest[1..], [rest[0]], yMed);
      ClustersFromCover(boxes, rest[1..], [rest[0]], yMed);
      assert cs == [words] + tail;
      assert cs[1..] == tail;
      assert Flatten(cs) == words + Flatten(tail);
      assert words + ([rest[0]] + rest[1..]) == words + rest;
    }
  }

  /** Every box of every cluster joined the boxes before it in its cluster. */
  lemma {:induction false} ClustersFromCohesive(boxes: seq<Row>, rest: seq<nat>, words: seq<nat>, yMed: real)
    requires words != [] && Cohesive(boxes, words, yMed)
    ensures var cs := ClustersFrom(boxes, rest, words, yMed);
      |cs| > 0 && forall k :: 0 <= k < |cs| ==> Cohesive(boxes, cs[k], yMed)
    decreases |rest|
  {
    ClustersFromCover(boxes, rest, words, yMed);
    if rest != [] {
      if Joins(boxes, words, rest[0], yMed) {
        CohesiveExtend(boxes, words, rest[0], yMed);
        ClustersFromCohesive(boxes, rest[1..], words + [rest[0]], yMed);
        assert ClustersFrom(boxes, rest, words, yMed)
               == ClustersFrom(boxes, rest[1..], words + [rest[0]], yMed);
      } else {
        ClustersFromCohesive(boxes, rest[1..], [rest[0]], yMed);
        assert ClustersFrom(boxes, rest, words, yMed)
               == [words] + ClustersFrom(boxes, rest[1..], [rest[0]], yMed);
      }
    }
  }

  lemma {:induction false} CohesiveExtend(boxes: seq<Row>, words: seq<nat>, w: nat, yMed: real)
    requires words != [] && Cohesive(boxes, words, yMed) && Joins(boxes, words, w, yMed)
    ensures Cohesive(boxes, words + [w], yMed)
  {
    var words' := words + [w];
    forall k | 0 < k < |words'| ensures Joins(boxes, words'[..k], words'[k], yMed) {
      if k < |words| {
        assert words'[..k] == words[..k] && words'[k] == words[k];
      } else {
        assert words'[..k] == words;
      }
    }
  }

  /** Every cluster after the first starts with a box that did not join the
      cluster before it. */
  lemma {:induction false} ClustersFromBreaks(boxes: seq<Row>, rest: seq<nat>, words: seq<nat>, yMed: real)
    requires words != []
    ensures var cs := ClustersFrom(boxes, rest, words, yMed);
      && |cs| > 0
      && (forall k :: 0 <= k < |cs| ==> cs[k] != [])
      && (forall k :: 0 < k < |cs| ==> !Joins(boxes, cs[k - 1], cs[k][0], yMed))
    decreases |rest|
  {
    ClustersFromCover(boxes, rest, words, yMed);
    if rest != [] {
      if Joins(boxes, words, rest[0], yMed) {
        ClustersFromBreaks(boxes, rest[1..], words + [rest[0]], yMed);
        assert ClustersFrom(boxes, rest, words, yMed)
               == ClustersFrom(boxes, rest[1..], words + [rest[0]], yMed);
      } else {
        var tail := ClustersFrom(boxes, rest[1..], [rest[0]], yMed);
        ClustersFromBreaks(boxes, rest[1..], [rest[0]], yMed);
        ClustersFromCover(boxes, rest[1..], [rest[0]], yMed);
        assert ClustersFrom(boxes, rest, words, yMed) == [words] + tail;
      }
    }
  }

  /** The lines produced from a list of clusters: each cluster's sub-lines in turn. */
  function LinesOf(boxes: seq<Row>, cs: seq<seq<nat>>, pb: real): seq<seq<nat>> {
    if cs == [] then [] else LinesOf(boxes, cs[..|cs| - 1], pb) + SubLines(boxes, cs[|cs| - 1], pb)
  }

  /** Splitting clusters into sub-lines neither loses nor repeats a box. */
  lemma {:induction false} LinesOfPartition(boxes: seq<Row>, cs: seq<seq<nat>>, pb: real)
    ensures multiset(Flatten(LinesOf(boxes, cs, pb))) == multiset(Flatten(cs))
  {
    if cs != [] {
      var init, last := cs[..|cs| - 1], cs[|cs| - 1];
      var a, b := LinesOf(boxes, init, pb), SubLines(boxes, last, pb);
      assert LinesOf(boxes, cs, pb) == a + b;
      assert multiset(Flatten(a)) == multiset(Flatten(init)) by {
        LinesOfPartition(boxes, init, pb);
      }
      assert multiset(Flatten(b)) == multiset(last) by {
        SubLinesPartition(boxes, last, pb);
      }
      assert init + [last] == cs;
      PartitionSnoc(a, b, init, last);
    }
  }

  /** Appending a group whose pieces hold exactly its elements keeps a partition. */
  lemma {:induction false} PartitionSnoc(a: seq<seq<nat>>, b: seq<seq<nat>>, init: seq<seq<nat>>, last: seq<nat>)
    requires multiset(Flatten(a)) == multiset(Flatten(init)) && multiset(Flatten(b)) == multiset(last)
    ensures multiset(Flatten(a + b)) == multiset(Flatten(init + [last]))
  {
    FlattenAppend(a, b);
    FlattenAppend(init, [last]);
    assert Flatten([last]) == last + Flatten([]);
  }

  /** The vertical clusters resolve_lines forms over all boxes. */
  function Clusters(boxes: seq<Row>): seq<seq<nat>>
    requires |boxes| > 0 && Median(Heights(boxes)) != 0.0
  {
    var idxs := SortBoxes(boxes).0;
    ClustersFrom(boxes, idxs[1..], [idxs[0]], Median(Heights(boxes)))
  }

  /** The clusters, concatenated, are exactly the sort order of sort_boxes, so
      every box is in exactly one cluster. */
  lemma {:induction false} ClustersCoverSortOrder(boxes: seq<Row>)
    requires |boxes| > 0 && Median(Heights(boxes)) != 0.0
    ensures Flatten(Clusters(boxes)) == SortBoxes(boxes).0
    ensures multiset(Flatten(Clusters(boxes))) == multiset(Range(|boxes|))
  {
    var idxs := SortBoxes(boxes).0;
    ClustersFromCover(boxes, idxs[1..], [idxs[0]], Median(Heights(boxes)));
    assert [idxs[0]] + idxs[1..] == idxs;
  }

  /** resolve_lines: the reading-order lines of the boxes. With no boxes the
      sort order is empty and reading its first index is an IndexError. */
  method ResolveLines(boxes: seq<Row>, pb: real) returns (r: Result<seq<seq<nat>>>)
    requires |boxes| > 0 ==> Median(Heights(boxes)) != 0.0
    ensures r.Err? <==> |boxes| == 0
    ensures r.Err? ==> r.error == IndexError
    ensures r.Ok? ==> r.value == LinesOf(boxes, Clusters(boxes), pb)
    ensures r.Ok? ==> multiset(Flatten(r.value)) == multiset(Range(|boxes|))
  {
    var sorted := SortBoxes(boxes);
    if |sorted.0| == 0 {
      return Err(IndexError);
    }
    var yMed := Median(Heights(boxes));
    var lines := GroupLines(boxes, sorted.0, yMed, pb);
    LinesPartition(boxes, pb);
    r := Ok(lines);
  }

  /** The loop of resolve_lines: walk the boxes in sort order, keeping the open
      line's words and the running sum of their vertical centres. */
  method GroupLines(boxes: seq<Row>, idxs: seq<nat>, yMed: real, pb: real) returns (lines: seq<seq<nat>>)
    requires |idxs| > 0 && Indexes(idxs, boxes)
    ensures lines == LinesOf(boxes, ClustersFrom(boxes, idxs[1..], [idxs[0]], yMed), pb)
  {
    lines := [];
    var words := [idxs[0]];
    var ySum := CenterY(boxes[idxs[0]]);
    assert ySum == SumCenters(boxes, words);
    ghost var done: seq<seq<nat>> := [];
    var i := 1;
    while i < |idxs|
      invariant 1 <= i <= |idxs| && words != [] && Indexes(words, boxes)
      invariant ySum == SumCenters(boxes, words)
      invariant lines == LinesOf(boxes, done, pb)
      invariant done + ClustersFrom(boxes, idxs[i..], words, yMed) == ClustersFrom(boxes, idxs[1..], [idxs[0]], yMed)
    {
      lines, done, words, ySum := GroupStep(boxes, idxs, i, lines, done, words, ySum, yMed, pb);
      i := i + 1;
    }
    assert idxs[i..] == [];
    lines := CloseLine(boxes, lines, done, words, pb);
  }

  /** One pass of the loop of resolve_lines: box idxs[i] joins the open line
      or closes it and opens the next one. */
  method GroupStep(boxes: seq<Row>, idxs: seq<nat>, i: nat, lines: seq<seq<nat>>, ghost done: seq<seq<nat>>,
                   words: seq<nat>, ySum: real, yMed: real, pb: real)
    returns (lines': seq<seq<nat>>, ghost done': seq<seq<nat>>, words': seq<nat>, ySum': real)
    requires i < |idxs| && Indexes(idxs, boxes) && words != [] && Indexes(words, boxes)
    requires ySum == SumCenters(boxes, words) && lines == LinesOf(boxes, done, pb)
    ensures words' != [] && Indexes(words', boxes) && ySum' == SumCenters(boxes, words')
    ensures lines' == LinesOf(boxes, done', pb)
    ensures done' + ClustersFrom(boxes, idxs[i + 1..], words', yMed) == done + ClustersFrom(boxes, idxs[i..], words, yMed)
  {
    var idx := idxs[i];
    var yDist := Abs(CenterY(boxes[idx]) - ySum / |words| as real);
    if yDist < yMed / 2.0 {
      JoinStep(boxes, idxs, i, words, yMed);
      lines', done', words', ySum' := lines, done, words + [idx], ySum + CenterY(boxes[idx]);
    } else {
      BreakStep(boxes, idxs, i, done, words, yMed);
      lines' := CloseLine(boxes, lines, done, words, pb);
      done', words', ySum' := done + [words], [idx], CenterY(boxes[idx]);
      assert ySum' == SumCenters(boxes, words');
    }
  }

  /** `lines.extend(resolve_sub_lines(boxes, words, paragraph_break))`: close the
      open line, appending its sub-lines to those of the lines closed before it. */
  method CloseLine(boxes: seq<Row>, lines: seq<seq<nat>>, ghost done: seq<seq<nat>>, words: seq<nat>, pb: real)
    returns (lines': seq<seq<nat>>)
    requires Indexes(words, boxes) && lines == LinesOf(boxes, done, pb)
    ensures lines' == LinesOf(boxes, done + [words], pb)
  {
    var sub := ResolveSubLines(boxes, words, pb);
    assert (done + [words])[..|done|] == done;
    lines' := lines + sub;
  }

  /** A box that joins the open cluster extends it and its running sum. */
  lemma JoinStep(boxes: seq<Row>, idxs: seq<nat>, i: nat, words: seq<nat>, yMed: real)
    requires Indexes(idxs, boxes) && words != [] && i < |idxs|
    requires Joins(boxes, words, idxs[i], yMed)
    ensures Indexes(words + [idxs[i]], boxes) || !Indexes(words, boxes)
    ensures ClustersFrom(boxes, idxs[i..], words, yMed) == ClustersFrom(boxes, idxs[i + 1..], words + [idxs[i]], yMed)
    ensures SumCenters(boxes, words + [idxs[i]]) == SumCenters(boxes, words) + CenterY(boxes[idxs[i]])
  {
    assert idxs[i..][0] == idxs[i] && idxs[i..][1..] == idxs[i + 1..];
    assert (words + [idxs[i]])[..|words|] == words;
  }

  /** A box that does not join closes the open cluster and opens a new one. */
  lemma BreakStep(boxes: seq<Row>, idxs: seq<nat>, i: nat, done: seq<seq<nat>>, words: seq<nat>, yMed: real)
    requires words != [] && i < |idxs|
    requires !Joins(boxes, words, idxs[i], yMed)
    ensures done + ClustersFrom(boxes, idxs[i..], words, yMed)
            == (done + [words]) + ClustersFrom(boxes, idxs[i + 1..], [idxs[i]], yMed)
  {
    assert idxs[i..][0] == idxs[i] && idxs[i..][1..] == idxs[i + 1..];
  }

  /** resolve_lines's groups together hold every box index exactly once. */
  lemma {:induction false} LinesPartition(boxes: seq<Row>, pb: real)
    requires |boxes| > 0 && Median(Heights(boxes)) != 0.0
    ensures multiset(Flatten(LinesOf(boxes, Clusters(boxes), pb))) == multiset(Range(|boxes|))
  {
    ClustersCoverSortOrder(boxes);
    LinesOfPartition(boxes, Clusters(boxes), pb);
  }
}
