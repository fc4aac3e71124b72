# ocrtoolkit / chequeparser core in Dafny

This project models the core of the `ocrtoolkit` repository, which also
contains the older `chequeparser` package. The modelled parts are:

- the two bounding-box wrappers:
  - `ocrtoolkit`'s `BBox`, which carries recognised text;
  - `chequeparser`'s `BBox`, and the `TextBBox` built on it;
- the line-reconstruction helpers that turn word boxes into reading-order lines;
- the geometry helpers that remap and straighten box coordinates;
- the base dataset: item keys, lookup, batching, sub-datasets and splits;
- the YOLO-format loader;
- `chequeparser`'s detection results and their filters and crops;
- its list helpers: random samples, filtering, partitions;
- dataset concatenation.

The model has one module per source file:

- `OcrBBox` and `ChequeBBox` / `ChequeTextBBox` (the box wrappers);
- `BoxUtils`, `GeometryUtils`;
- `DatasetBase`, `DatasetIo`;
- `ChequeDetections`, `Misc`, `DsUtils`.

Three shared modules support them:

- `PyList`: Python indexing, slicing, filtering, flattening and subsequences;
- `Numeric`: `int()` truncation, `math.ceil`, pixel/fraction conversion;
- `Sorting`: a key sort, `argsort` and `median`.

Boxes are values (`datatype BBox`). Python code can overwrite a box's text in
place, so that case is modelled by a class holding a box (`BoxObject`,
`TextBBoxObject`). The dataset is a `class Dataset` whose fields are the
Python attributes, and its methods return fresh datasets.

Several operations in the source are loops:

- the line grouping of `resolve_lines` and `resolve_sub_lines`;
- `filter_list`, `partition_list`, `load_yolo`;
- the `max_conf` table of `filter_by_labels`.

Each is a `method` with loop invariants. The method is proved equal to a
specification function, and the properties are proved about that function.

Python's exceptions are modelled by a `Result` type with a `PyError` tag. An
`assert` in the source becomes `Err(AssertionError)` where the caller can
provoke it, except the cases listed under "## Left out". Random draws are
nondeterministic choices (`:|`). The file
system, the float parser and image sizes are passed in as parameters
(`DatasetIo.Environment`).

`resolve_lines` reads the first sort index
(`src/ocrtoolkit/utilities/box_utils.py:47`), so on zero boxes it raises an
IndexError, and BoxUtils.ResolveLines returns `Err(IndexError)`.

## Model

| member | source | states |
|---|---|---|
| Numeric.Trunc | src/ocrtoolkit/wrappers/bbox.py:42-45 | Python's `int()` on a float truncates toward zero: the result is within one of the value, at or below it for non-negative values and at or above it for negative ones |
| Numeric.TruncOfInt | src/ocrtoolkit/wrappers/bbox.py:42-45 | `int()` leaves a whole number unchanged |
| Numeric.Ceil | src/ocrtoolkit/datasets/base.py:66 | `math.ceil`: the least integer not below the value |
| Numeric.Overlap | src/ocrtoolkit/wrappers/bbox.py:210-214 | the overlap of two intervals plus eps is never negative; for an interval lying inside the other it is that interval's length plus eps |
| Numeric.ToFraction | src/ocrtoolkit/wrappers/bbox.py:162-166 | normalizing divides by the image size: the fraction times the size gives back the coordinate |
| Numeric.ToPixels | src/ocrtoolkit/wrappers/bbox.py:138-142 | denormalizing yields a whole pixel within one pixel of the fraction times the size |
| Numeric.AxisRoundTrip | src/ocrtoolkit/wrappers/bbox.py:126-172 | a whole-pixel coordinate normalized and then denormalized with the same size comes back exactly |
| Numeric.ScaledTruncClose | src/ocrtoolkit/wrappers/bbox.py:126-172 | a fraction denormalized and then normalized moves by less than one pixel's share of the size |
| Sorting.InsertByPermutes | src/ocrtoolkit/utilities/box_utils.py:27 | inserting by key adds exactly the new element to the multiset |
| Sorting.InsertBySorted | src/ocrtoolkit/utilities/box_utils.py:27 | inserting into a key-sorted list keeps it sorted |
| Sorting.SortByPermutes | src/ocrtoolkit/utilities/box_utils.py:27 | `sorted(..., key=...)` is a permutation of its input |
| Sorting.SortBySorted | src/ocrtoolkit/utilities/box_utils.py:27 | `sorted(..., key=...)` orders by non-decreasing key |
| Sorting.InsertByStable | src/ocrtoolkit/utilities/box_utils.py:27 | inserting into a sorted list puts the new element behind every element of equal key |
| Sorting.SortByStable | src/ocrtoolkit/utilities/box_utils.py:27 | `sorted(..., key=...)` is stable: the elements of any one key keep their relative order |
| Sorting.ArgSort | src/ocrtoolkit/utilities/box_utils.py:16-18 | `argsort` is a permutation of the positions that reads the keys in non-decreasing order |
| Sorting.SortedValues | src/ocrtoolkit/utilities/box_utils.py:17 | the sorted copy `np.median` works on has the same elements, in order |
| Sorting.Median | src/ocrtoolkit/utilities/box_utils.py:17 | `np.median` lies between the smallest and the largest value, for an odd count it is the middle sorted value, and for an even count the mean of the two middle ones |
| Sorting.MedianBetween | src/ocrtoolkit/utilities/box_utils.py:46 | the median lies between some element and some element of the list |
| OcrBBox.BBox.EpsArea | src/ocrtoolkit/wrappers/bbox.py:53-54 | `eps_area` is positive and at least the area, and it equals the area when the area exceeds eps |
| OcrBBox.Make | src/ocrtoolkit/wrappers/bbox.py:30-57 | the constructor keeps normalized corners as given and truncates absolute ones with `int()`; the flag, confidence, label, text and text confidence are stored unchanged |
| OcrBBox.MakeOfValid | src/ocrtoolkit/wrappers/bbox.py:30-57 | rebuilding a well-formed box from its own fields gives the same box |
| OcrBBox.FromXywh | src/ocrtoolkit/wrappers/bbox.py:73-92 | a normalized box built from a corner plus width and height has exactly that corner, width and height; an absolute box has the corners int(x), int(y), int(x + w), int(y + h); flag, confidence, label, text and text confidence are stored |
| OcrBBox.FromXywhWholePixels | src/ocrtoolkit/wrappers/bbox.py:73-92 | an absolute box built from whole-pixel inputs keeps them exactly |
| OcrBBox.FromCxcywh | src/ocrtoolkit/wrappers/bbox.py:95-124 | a normalized box has exactly the given centre, width and height; an absolute box has the corners int(cx - w/2), int(cy - h/2), int(cx + w/2), int(cy + h/2), each within one pixel of the intended ones; flag, confidence, label, text and text confidence are stored |
| OcrBBox.Normalize | src/ocrtoolkit/wrappers/bbox.py:150-172 | the result is normalized with each corner divided by the image size; a box already normalized comes back unchanged; label, confidences and text are kept |
| OcrBBox.Denormalize | src/ocrtoolkit/wrappers/bbox.py:126-148 | the result is absolute with each corner scaled and truncated; an absolute box comes back unchanged; label, confidences and text are kept |
| OcrBBox.DenormalizeNormalize | src/ocrtoolkit/wrappers/bbox.py:126-172 | normalizing and then denormalizing a well-formed absolute box with the same size gives it back |
| OcrBBox.NormalizeDenormalizeClose | src/ocrtoolkit/wrappers/bbox.py:126-172 | denormalizing and then normalizing a normalized box moves each corner by less than one pixel's share and keeps every other field |
| OcrBBox.Expand | src/ocrtoolkit/wrappers/bbox.py:174-196 | each side moves by its own offset (outward for a non-negative offset), absolute corners truncated with `int()`; the other fields are kept |
| OcrBBox.ExpandContains | src/ocrtoolkit/wrappers/bbox.py:174-196 | expanding by non-negative offsets gives a box that contains the original |
| OcrBBox.IntersectionArea | src/ocrtoolkit/wrappers/bbox.py:198-215 | the eps-padded intersection area is never negative |
| OcrBBox.IntersectionSymmetric | src/ocrtoolkit/wrappers/bbox.py:198-215 | the intersection area does not depend on operand order |
| OcrBBox.IsInside | src/ocrtoolkit/wrappers/bbox.py:217-234 | a box is inside another iff the intersection covers at least `thresh` of its eps-floored area |
| OcrBBox.InsideContainer | src/ocrtoolkit/wrappers/bbox.py:217-234 | a box with area above eps that lies within another is inside it for any threshold up to 1 |
| OcrBBox.SeparatedNotInside | src/ocrtoolkit/wrappers/bbox.py:217-234 | a box lying wholly to the left of another is never inside it for a positive threshold |
| OcrBBox.Add | src/ocrtoolkit/wrappers/bbox.py:348-378 | adding a box gives a box in the same space, with the larger confidence and text confidence and both texts joined by a space; adding a non-box returns the box itself |
| OcrBBox.AddIsEnvelope | src/ocrtoolkit/wrappers/bbox.py:361-377 | the sum contains both operands and lies within every box that contains both |
| OcrBBox.AddCommutesGeometry | src/ocrtoolkit/wrappers/bbox.py:361-377 | the sum's corners and confidences do not depend on operand order |
| OcrBBox.BoxObject.constructor | src/ocrtoolkit/wrappers/bbox.py:30-57 | a box object holds the box it is built from |
| OcrBBox.BoxObject.SetTextAndConfidence | src/ocrtoolkit/wrappers/bbox.py:59-70 | the text and text confidence are overwritten in place from a tuple or a recognition result, and nothing else changes |
| OcrBBox.ApplyTextOp | src/ocrtoolkit/wrappers/bbox.py:250-272 | the new box equals a well-formed original except that its text is the operation applied to the text, lower-cased first if asked |
| OcrBBox.ApplyTextOpCompose | src/ocrtoolkit/wrappers/bbox.py:250-272 | two text operations in a row act as their composition |
| OcrBBox.ToFields | src/ocrtoolkit/wrappers/bbox.py:274-298 | `to_numpy` lays out nine fields in the order that `from_numpy` expects, label and text at positions 6 and 7, encoded or not as asked |
| OcrBBox.FromFields | src/ocrtoolkit/wrappers/bbox.py:300-328 | a non-ASCII string in an unencoded array fails the cast to bytes (UnicodeEncodeError); otherwise fewer than four fields is a ValueError; missing trailing fields take the documented defaults |
| OcrBBox.FieldsRoundTrip | src/ocrtoolkit/wrappers/bbox.py:274-328 | `from_numpy(to_numpy(b, encode=True))` gives back every well-formed box; without encoding it does so iff label and text are ASCII, and is a UnicodeEncodeError otherwise |
| OcrBBox.ToDict | src/ocrtoolkit/wrappers/bbox.py:330-346 | the dictionary has exactly the field names as keys, each mapped to its field |
| ChequeBBox.BBox.EpsArea | src/chequeparser/wrappers/bbox.py:10-25 | the divisor area is positive and at least the area, and it equals the area when the area exceeds eps |
| ChequeBBox.BBox.Values | src/chequeparser/wrappers/bbox.py:10-25 | `values` lists the corners in the order x1, y1, x2, y2 |
| ChequeBBox.Make | src/chequeparser/wrappers/bbox.py:10-25 | the constructor keeps normalized corners and truncates absolute ones; the flag, confidence and label are stored |
| ChequeBBox.MakeOfValid | src/chequeparser/wrappers/bbox.py:10-25 | rebuilding a well-formed box from its own fields gives the same box |
| ChequeBBox.FromXywh | src/chequeparser/wrappers/bbox.py:27-29 | a normalized box has exactly the given corner, width and height; an absolute box has the corners int(x), int(y), int(x + w), int(y + h); flag, confidence and label are stored |
| ChequeBBox.FromXywhWholePixels | src/chequeparser/wrappers/bbox.py:27-29 | whole-pixel inputs are kept exactly in absolute space |
| ChequeBBox.FromCxcywh | src/chequeparser/wrappers/bbox.py:31-35 | a normalized box has exactly the given centre and size; an absolute box has the corners int(cx - w/2), int(cy - h/2), int(cx + w/2), int(cy + h/2), each within one pixel of the intended ones |
| ChequeBBox.Normalize | src/chequeparser/wrappers/bbox.py:50-61 | the corners are divided by the image size; a normalized box comes back unchanged |
| ChequeBBox.Denormalize | src/chequeparser/wrappers/bbox.py:37-48 | the corners are scaled to whole pixels; an absolute box comes back unchanged |
| ChequeBBox.DenormalizeNormalize | src/chequeparser/wrappers/bbox.py:37-61 | normalizing and then denormalizing a well-formed absolute box gives it back |
| ChequeBBox.Expand | src/chequeparser/wrappers/bbox.py:63-73 | each side moves by its own offset (outward for a non-negative offset), absolute corners truncated with `int()`; the other fields are kept |
| ChequeBBox.ExpandContains | src/chequeparser/wrappers/bbox.py:63-73 | non-negative offsets give a box that contains the original |
| ChequeBBox.IntersectionArea | src/chequeparser/wrappers/bbox.py:75-85 | the eps-padded intersection area is never negative |
| ChequeBBox.IntersectionSymmetric | src/chequeparser/wrappers/bbox.py:75-85 | the intersection area does not depend on operand order |
| ChequeBBox.IsInside | src/chequeparser/wrappers/bbox.py:87-96 | inside iff the intersection covers at least `thresh` of the box's eps-floored area |
| ChequeBBox.InsideContainer | src/chequeparser/wrappers/bbox.py:87-96 | a box with area above eps lying within another is inside it for any threshold up to 1 |
| ChequeBBox.Add | src/chequeparser/wrappers/bbox.py:114-141 | the sum of two boxes in one space is the corner-wise union with the larger confidence; a non-box operand returns the box itself (also for `__radd__`) |
| ChequeBBox.AddIsEnvelope | src/chequeparser/wrappers/bbox.py:114-136 | the sum is the smallest box containing both operands |
| ChequeBBox.AsDict | src/chequeparser/wrappers/bbox.py:104-112 | the dictionary has the six documented keys, holding the corners, confidence and label |
| ChequeTextBBox.Make | src/chequeparser/wrappers/textbbox.py:1-16 | a new text box is the plain box with an empty text and zero text confidence |
| ChequeTextBBox.TextBBoxObject.constructor | src/chequeparser/wrappers/textbbox.py:1-16 | a text box object holds the box it is built from |
| ChequeTextBBox.TextBBoxObject.SetTextAndConfidence | src/chequeparser/wrappers/textbbox.py:14-16 | the text and text confidence are overwritten in place and the geometry is untouched |
| ChequeTextBBox.TextBBoxObject.FromRecognitionResults | src/chequeparser/wrappers/textbbox.py:10-12 | the recognition result's text and confidence are copied in place |
| ChequeTextBBox.Normalize | src/chequeparser/wrappers/textbbox.py:18-21 | the plain box is normalized and the text is carried over |
| ChequeTextBBox.Denormalize | src/chequeparser/wrappers/textbbox.py:23-26 | the plain box is denormalized and the text is carried over |
| ChequeTextBBox.DenormalizeNormalize | src/chequeparser/wrappers/textbbox.py:18-26 | normalizing and then denormalizing an absolute text box gives it back, text included |
| ChequeTextBBox.ApplyTextOp | src/chequeparser/wrappers/textbbox.py:28-41 | the geometry, confidence, label and text confidence are kept; the text is the operation applied to the (optionally lower-cased) text |
| ChequeTextBBox.ApplyTextOpCompose | src/chequeparser/wrappers/textbbox.py:28-41 | two text operations in a row act as their composition |
| ChequeTextBBox.AsDict | src/chequeparser/wrappers/textbbox.py:43-47 | the plain box's dictionary plus the text and its confidence |
| ChequeTextBBox.Add | src/chequeparser/wrappers/textbbox.py:49-55 | with another text box in the same space: the union of the boxes, both texts joined by a space and the larger text confidence; one in the other space is an AssertionError; any other operand is an AttributeError |
| ChequeTextBBox.RAdd | src/chequeparser/wrappers/bbox.py:136-141 | `0 + box` gives the box itself |
| ChequeTextBBox.SumBoxes | src/chequeparser/wrappers/textbbox.py:49-55 | `sum` over a non-empty list of text boxes succeeds iff all are in the first box's space, and stays in that space; otherwise it is an AssertionError |
| ChequeTextBBox.SumBoxesSpec | src/chequeparser/wrappers/textbbox.py:49-55 | the sum's text is every text joined by single spaces in order, and its box contains every box |
| GeometryUtils.RemapCoord | src/ocrtoolkit/utilities/geometry_utils.py:55-60 | a coordinate keeps its offset from the centre, scaled by the ratio of the shapes |
| GeometryUtils.RemapBoxes | src/ocrtoolkit/utilities/geometry_utils.py:27-62 | shapes that are not pairs raise ValueError; otherwise every point of every polygon is remapped, and the sizes are kept |
| GeometryUtils.RemapIdentity | src/ocrtoolkit/utilities/geometry_utils.py:27-62 | remapping to the same shape changes nothing |
| GeometryUtils.CoordIdentity | src/ocrtoolkit/utilities/geometry_utils.py:55-60 | a coordinate remapped to the same size is unchanged |
| GeometryUtils.RemapInverse | src/ocrtoolkit/utilities/geometry_utils.py:27-62 | remapping there and back restores the boxes |
| GeometryUtils.CoordInverse | src/ocrtoolkit/utilities/geometry_utils.py:55-60 | a coordinate remapped there and back is restored |
| GeometryUtils.Corners | src/ocrtoolkit/utilities/geometry_utils.py:93-102 | a straight box becomes its four corners, clockwise from top-left |
| GeometryUtils.StraightOf | src/ocrtoolkit/utilities/geometry_utils.py:93-102 | the top-left and bottom-right corners give back x1, y1, x2, y2 |
| GeometryUtils.CornersRoundTrip | src/ocrtoolkit/utilities/geometry_utils.py:93-102 | turning a box into corners and back is the identity on its first four values |
| GeometryUtils.CornersSpanBox | src/ocrtoolkit/utilities/geometry_utils.py:93-102 | the corners of a well-ordered box lie within it and include its top-left and bottom-right points |
| GeometryUtils.CornerForm | src/ocrtoolkit/utilities/geometry_utils.py:92-102 | polygons are kept as they are; straight rows with fewer than four columns are an IndexError; otherwise each row becomes its corners (x1,y1), (x2,y1), (x2,y2), (x1,y2), from which its first four values come back |
| GeometryUtils.RotateBoxes | src/ocrtoolkit/utilities/geometry_utils.py:65-135 | the boxes are the corner form of CornerForm, which fails exactly when `rotate_boxes` fails; a small angle keeps the boxes, and any other angle rotates them by that angle |
| BoxUtils.IndexesOfPermutation | src/ocrtoolkit/utilities/box_utils.py:16-19 | a permutation of valid box indices is again valid |
| BoxUtils.Heights | src/ocrtoolkit/utilities/box_utils.py:17 | the heights are y2 − y1 of each box |
| BoxUtils.SortKeys | src/ocrtoolkit/utilities/box_utils.py:17 | each box's sort key is x1 plus twice y2 over the median height |
| BoxUtils.SortBoxes | src/ocrtoolkit/utilities/box_utils.py:8-19 | the returned order is a permutation of the box indices with non-decreasing sort keys, and the boxes are returned unchanged |
| BoxUtils.ByX1 | src/ocrtoolkit/utilities/box_utils.py:27 | sorting word indices by left edge keeps their number |
| BoxUtils.ByX1Sorted | src/ocrtoolkit/utilities/box_utils.py:27 | the result still indexes the boxes and is ordered by non-decreasing left edge |
| BoxUtils.ByX1Stable | src/ocrtoolkit/utilities/box_utils.py:27 | words with equal left edges keep their order in the line |
| BoxUtils.SubLinesFromCover | src/ocrtoolkit/utilities/box_utils.py:32-39 | the sub-lines are non-empty and flatten to the words in order |
| BoxUtils.SubLinesFromTight | src/ocrtoolkit/utilities/box_utils.py:32-39 | within a sub-line each gap to the previous word is below the paragraph break |
| BoxUtils.SubLinesFromBreaks | src/ocrtoolkit/utilities/box_utils.py:32-39 | consecutive sub-lines are separated by a gap of at least the paragraph break |
| BoxUtils.TightExtend | src/ocrtoolkit/utilities/box_utils.py:34-35 | appending a word closer than the break keeps a sub-line tight |
| BoxUtils.SubLinesCover | src/ocrtoolkit/utilities/box_utils.py:22-40 | the sub-lines flatten to the words sorted by left edge, and fewer than two words make one line |
| BoxUtils.SubLinesSplitAtBreaks | src/ocrtoolkit/utilities/box_utils.py:32-39 | every sub-line is tight and consecutive ones are separated by a break |
| BoxUtils.SubLinesPartition | src/ocrtoolkit/utilities/box_utils.py:22-40 | the sub-lines partition the words: no word is lost or duplicated |
| BoxUtils.ResolveSubLines | src/ocrtoolkit/utilities/box_utils.py:22-40 | the loop computes exactly the sub-lines of its words |
| BoxUtils.ClustersFromCover | src/ocrtoolkit/utilities/box_utils.py:48-60 | the vertical clusters are non-empty and flatten to the sorted indices in order |
| BoxUtils.ClustersFromCohesive | src/ocrtoolkit/utilities/box_utils.py:49-54 | every word in a cluster was within half the median height of the running mean centre when it joined |
| BoxUtils.CohesiveExtend | src/ocrtoolkit/utilities/box_utils.py:52-54 | a word that joins keeps its cluster cohesive |
| BoxUtils.ClustersFromBreaks | src/ocrtoolkit/utilities/box_utils.py:55-57 | each new cluster starts at a word that was too far from the previous cluster's mean centre |
| BoxUtils.LinesOfPartition | src/ocrtoolkit/utilities/box_utils.py:56-60 | splitting every cluster into sub-lines keeps the multiset of words |
| BoxUtils.ClustersCoverSortOrder | src/ocrtoolkit/utilities/box_utils.py:43-57 | the clusters flatten to the `sort_boxes` order, and so to every box index once |
| BoxUtils.ResolveLines | src/ocrtoolkit/utilities/box_utils.py:43-62 | zero boxes are an IndexError (the first sort index is read); otherwise the lines are the sub-lines of the vertical clusters, and every box index appears exactly once |
| BoxUtils.GroupLines | src/ocrtoolkit/utilities/box_utils.py:48-60 | the loop with its running centre sum computes the lines of the clusters that start from the first index |
| BoxUtils.CloseLine | src/ocrtoolkit/utilities/box_utils.py:56 | closing a cluster appends its sub-lines |
| BoxUtils.GroupStep | src/ocrtoolkit/utilities/box_utils.py:49-57 | one pass of the loop: the next box joins the open line or closes it, keeping the running sum and the clusters still to come |
| BoxUtils.JoinStep | src/ocrtoolkit/utilities/box_utils.py:52-54 | a joining word extends the current cluster and adds its centre to the running sum |
| BoxUtils.BreakStep | src/ocrtoolkit/utilities/box_utils.py:55-57 | a word that does not join closes the cluster and starts a new one |
| BoxUtils.LinesPartition | src/ocrtoolkit/utilities/box_utils.py:43-62 | `resolve_lines` puts every box in exactly one line |
| DatasetBase.IndexOf | src/ocrtoolkit/datasets/base.py:95 | the first position holding the name |
| DatasetBase.IndexOfDistinct | src/ocrtoolkit/datasets/base.py:94-95 | with distinct names, a name's position is where it stands |
| DatasetBase.ItemKeys | src/ocrtoolkit/datasets/base.py:95-96 | `item_keys` maps each name to its position and each position to itself, with no other keys |
| DatasetBase.NumBatches | src/ocrtoolkit/datasets/base.py:65-66 | the number of batches is the least count whose batches of size bs cover all items |
| DatasetBase.CeilBounds | src/ocrtoolkit/datasets/base.py:66 | the ceiling of n / bs bounds n between (c − 1)·bs and c·bs |
| DatasetBase.BatchBounds | src/ocrtoolkit/datasets/base.py:75-79 | the start is not negative, the end is not past the items, and for a positive batch size the span is at most the clamped batch size (the start may lie past the end, giving an empty batch) |
| DatasetBase.BatchNegativeWraps | src/ocrtoolkit/datasets/base.py:76-77 | a negative batch index in range selects the batch counted from the end |
| DatasetBase.BatchFarNegative | src/ocrtoolkit/datasets/base.py:76-78 | a batch index below minus the count falls back to the first batch |
| DatasetBase.BatchIsRun | src/ocrtoolkit/datasets/base.py:75-79 | batch k is the run of items from k·bs, cut at the end |
| DatasetBase.BatchPastEnd | src/ocrtoolkit/datasets/base.py:78-79 | a batch index past the last batch gives an empty batch |
| DatasetBase.BatchExample | src/ocrtoolkit/datasets/base.py:68-86 | with ten items and bs 4, batch −1 and batch 2 are both the last two items |
| DatasetBase.BatchesFromCover | src/ocrtoolkit/datasets/base.py:75-79 | the batches from k onward flatten to the items from k·bs onward |
| DatasetBase.BatchesPartition | src/ocrtoolkit/datasets/base.py:65-86 | the `num_batches` batches flatten back to all items |
| DatasetBase.BatchesCount | src/ocrtoolkit/datasets/base.py:65-66 | there are `num_batches` − k batches from index k onward |
| DatasetBase.GetItem | src/ocrtoolkit/datasets/base.py:111-123 | a slice is NotImplementedError, a missing key is IndexError, and a found item is one of the items |
| DatasetBase.GetItemByPosition | src/ocrtoolkit/datasets/base.py:117-122 | an integer key, negative ones counted from the end, finds the item there iff it is in range |
| DatasetBase.GetItemByName | src/ocrtoolkit/datasets/base.py:117-122 | a name finds the item at that name's position iff the name exists |
| DatasetBase.Positions | src/ocrtoolkit/datasets/base.py:133-135 | every key is looked up in `item_keys`; a missing key fails |
| DatasetBase.Select | src/ocrtoolkit/datasets/base.py:129-135 | a slice is taken from the items and names; keys select equally many items and names |
| DatasetBase.SelectByKeys | src/ocrtoolkit/datasets/base.py:133-135 | selecting by keys picks, for each key, the item and name at its position, and fails iff some key is unknown |
| DatasetBase.PositionsInTable | src/ocrtoolkit/datasets/base.py:133-135 | the lookup fails with KeyError exactly when a key is missing from the table |
| DatasetBase.SelectChars | src/ocrtoolkit/datasets/base.py:133 | a string key is iterated character by character, each character being a key |
| DatasetBase.Dataset.constructor | src/ocrtoolkit/datasets/base.py:30-51 | a dataset keeps the given items, or the source when no items are given; it has empty names when none are given, and its key table is built |
| DatasetBase.Dataset.Len | src/ocrtoolkit/datasets/base.py:108-109 | the length is the number of items |
| DatasetBase.Dataset.NumBatchesOf | src/ocrtoolkit/datasets/base.py:65-66 | the number of batches is the least count that covers all items |
| DatasetBase.Dataset.Get | src/ocrtoolkit/datasets/base.py:111-123 | an integer key succeeds iff in range (negative counted from the end) and gives the item at that position; a name succeeds iff present and gives the item at the name's position; a missing key is an IndexError; a slice is NotImplementedError |
| DatasetBase.Dataset.Batch | src/ocrtoolkit/datasets/base.py:68-86 | the batch dataset holds the items and names of that batch, is marked batched, and keeps size and grayscale flag |
| DatasetBase.Dataset.GetAsDs | src/ocrtoolkit/datasets/base.py:125-143 | a failed lookup is passed on; selected names that repeat are an AssertionError; otherwise a fresh sub-dataset holds the selected items and names with the same source, size and flags |
| DatasetBase.Dataset.TrainTestSplit | src/ocrtoolkit/datasets/base.py:159-168 | the train and test datasets hold the items at the split's positions |
| DatasetBase.Dataset.SplitPart | src/ocrtoolkit/datasets/base.py:166-167 | one part of a split holds the items and names at its positions |
| DatasetBase.Dataset.Sample | src/ocrtoolkit/datasets/base.py:53-63 | the sample dataset holds the items and names at the drawn positions, with the requested batched flag |
| DatasetBase.Dataset.ResetNames | src/ocrtoolkit/datasets/base.py:148-149 | the names become empty and every other field is unchanged |
| DatasetBase.EmptyLike | src/ocrtoolkit/datasets/base.py:98-106 | an empty dataset with the other's batched flag, grayscale flag and size |
| DatasetIo.Parent | src/ocrtoolkit/datasets/io.py:27-31 | a path's parent followed by its name is the path |
| DatasetIo.JoinPath | src/ocrtoolkit/datasets/io.py:27-31 | joining a component gives a path with that name under the directory |
| DatasetIo.LastDot | src/ocrtoolkit/datasets/io.py:27-31 | the position of the last dot, or −1 when there is none |
| DatasetIo.Stem | src/ocrtoolkit/datasets/io.py:27-31 | the stem is a prefix of the name, and the whole name when there is no dot |
| DatasetIo.LabelPath | src/ocrtoolkit/datasets/io.py:27-31 | an image with an empty name raises ValueError; otherwise the label file is `<stem>.txt` in the `labels` directory beside the image's directory |
| DatasetIo.LabelPathExample | src/ocrtoolkit/datasets/io.py:27-31 | `data/images/a.png` has the label file `data/labels/a.txt` |
| DatasetIo.LabelPathIgnoresSuffix | src/ocrtoolkit/datasets/io.py:27-31 | two images differing only in suffix share a label file |
| DatasetIo.StemOfSuffixed | src/ocrtoolkit/datasets/io.py:27-31 | the stem of `stem.suffix` is `stem` |
| DatasetIo.Pairs | src/ocrtoolkit/datasets/io.py:48 | each image is paired with its label path |
| DatasetIo.KeptPairs | src/ocrtoolkit/datasets/io.py:48-51 | the kept pairs are never empty; none kept is a ValueError |
| DatasetIo.KeptPairsSpec | src/ocrtoolkit/datasets/io.py:48-51 | pairing fails iff some image has an empty name or no image has a label file that exists; every kept pair is an input image with its label path, which exists |
| DatasetIo.KeptEmpty | src/ocrtoolkit/datasets/io.py:49-51 | nothing is kept iff no image has a label file that exists |
| DatasetIo.KeptLabelled | src/ocrtoolkit/datasets/io.py:49-51 | every kept pair is an input image with its label path, which exists |
| DatasetIo.KeptInOrder | src/ocrtoolkit/datasets/io.py:49-52 | the kept images are a subsequence of the inputs |
| DatasetIo.Split | src/ocrtoolkit/datasets/io.py:65 | `str.split(' ')` gives at least one piece, none containing the separator |
| DatasetIo.SplitJoin | src/ocrtoolkit/datasets/io.py:65 | joining the pieces with the separator gives back the line |
| DatasetIo.Floats | src/ocrtoolkit/datasets/io.py:65 | every piece is parsed as a float |
| DatasetIo.ParseLine | src/ocrtoolkit/datasets/io.py:64-72 | a piece that is not a float is a ValueError; otherwise an out-of-range class index is an IndexError and a count other than five numbers a TypeError; success exactly otherwise, with the indexed class name, confidence 1 and the denormalized corners of the centre form |
| DatasetIo.DetectionOf | src/ocrtoolkit/datasets/io.py:59-73 | a loaded image's detections carry its name and size and, per label line in order, the box that line parses to; it fails iff some line fails to parse |
| DatasetIo.LoadYoloAligned | src/ocrtoolkit/datasets/io.py:34-75 | the loaded images and detections line up: same count, each detection named after its image, and each image an input |
| DatasetIo.LoadYolo | src/ocrtoolkit/datasets/io.py:34-75 | the loading loop computes exactly the functional load result |
| DatasetIo.LoadYoloNames | src/ocrtoolkit/datasets/io.py:55-61 | two kept images with one file name fail the dataset's duplicate-names assertion; a successful load has distinct image file names |
| DatasetIo.ReadDetections | src/ocrtoolkit/datasets/io.py:59-73 | the per-line loop computes exactly the detections of one image |
| ChequeDetections.Create | src/chequeparser/wrappers/detection_results.py:19-27 | the results keep the boxes, image and parent, and take their width and height from the image |
| ChequeDetections.FilterByConf | src/chequeparser/wrappers/detection_results.py:57-66 | only the boxes with confidence at least `conf` remain, in order and as often as in the input, and every other field is kept |
| ChequeDetections.FilterByBBox | src/chequeparser/wrappers/detection_results.py:68-79 | a box in the other space is an AssertionError; otherwise exactly the boxes inside the region remain, in order and as often as in the input |
| ChequeDetections.MaxConf | src/chequeparser/wrappers/detection_results.py:39-48 | the highest confidence among boxes of a label: none iff there is no such box, otherwise attained and an upper bound |
| ChequeDetections.MaxTableAgrees | src/chequeparser/wrappers/detection_results.py:39-48 | filtering against the built `max_conf` table equals filtering against each label's highest confidence |
| ChequeDetections.FilterByLabels | src/chequeparser/wrappers/detection_results.py:32-55 | the loop filling `max_conf` computes the label filter |
| ChequeDetections.FilterByLabelsFails | src/chequeparser/wrappers/detection_results.py:39-48 | the filter fails iff only the maximum is asked for and some requested label has no box |
| ChequeDetections.FilterByLabelsKeeps | src/chequeparser/wrappers/detection_results.py:32-55 | a box remains iff its label is requested and, when only the maximum is asked for, no box of that label has a higher confidence; order and other fields are kept |
| ChequeDetections.FilterByLabelsCounts | src/chequeparser/wrappers/detection_results.py:32-55 | a box that remains occurs as often as in the input; one that does not, not at all |
| ChequeDetections.NoBoxOfLabel | src/chequeparser/wrappers/detection_results.py:38-44 | a requested label has no maximum among the label-filtered boxes iff no box carries it |
| ChequeDetections.AtMaxIffHighest | src/chequeparser/wrappers/detection_results.py:45-48 | matching the table's maximum is the same as having the highest confidence of the label |
| ChequeDetections.Crop | src/chequeparser/wrappers/detection_results.py:102-104 | a crop has as many rows as the Python slice of the image between the box's truncated y coordinates |
| ChequeDetections.GetCrops | src/chequeparser/wrappers/detection_results.py:97-104 | a normalized box is a TypeError; otherwise one crop per box, in order |
| ChequeDetections.ParentSuffix | src/chequeparser/wrappers/detection_results.py:83-85 | no parent gives an empty suffix; otherwise the suffix is the parent's name at the index, with an index error or type error as Python raises them |
| ChequeDetections.CreateDsParts | src/chequeparser/wrappers/detection_results.py:81-95 | the crops with one name per box, each the label joined to the parent suffix by a double underscore |
| Misc.GetSamples | src/chequeparser/utilities/misc.py:72-82 | a negative k is a ValueError; otherwise k (clamped to the length) distinct positions are drawn and returned with the elements there |
| Misc.FullDrawCoversAll | src/chequeparser/utilities/misc.py:76-81 | drawing as many positions as the list has takes every position |
| Misc.SampleFromPool | src/chequeparser/utilities/misc.py:81-82 | a sample has the requested size, takes only pool elements, and repeats none from a pool without repeats |
| Misc.FilterList | src/chequeparser/utilities/misc.py:85-98 | the items passing the target test are mapped in order, and the rest are sampled; a negative sample count is a ValueError |
| Misc.PartitionList | src/chequeparser/utilities/misc.py:101-111 | sizes that do not add up to the length are an AssertionError; otherwise the runs are cut at the running totals |
| Misc.PartsPartition | src/chequeparser/utilities/misc.py:101-111 | with non-negative sizes the runs have the given sizes and concatenate back to the list |
| Misc.PartsPrefix | src/chequeparser/utilities/misc.py:106-110 | runs whose sizes add up to at most the length concatenate to the prefix of that length |
| Misc.PartitionExample | src/chequeparser/utilities/misc.py:102 | `[1, 2, 3, 5]` cut by `[1, 3]` gives `[[1], [2, 3, 5]]` |
| DsUtils.Lengths | src/chequeparser/utilities/ds_utils.py:11-13 | one length per dataset |
| DsUtils.AllItemsLength | src/chequeparser/utilities/ds_utils.py:12 | the concatenated items number the sum of the lengths |
| DsUtils.AllItemsAppend | src/chequeparser/utilities/ds_utils.py:12 | concatenating two groups of datasets concatenates their items |
| DsUtils.AllNamesMatch | src/chequeparser/utilities/ds_utils.py:12-13 | for well-formed datasets there are as many concatenated names as items |
| DsUtils.ConcatDs | src/chequeparser/utilities/ds_utils.py:1-21 | no datasets gives None and one gives it back; otherwise a fresh unbatched dataset holds all items and names in order (names reset if asked) with the first one's size and grayscale flag and the key table of all names and positions (a valid dataset when names are kept), or an AssertionError when its lengths or names clash |
| PyList.PyIndex | src/ocrtoolkit/datasets/base.py:118-119 | a Python index is valid iff it is within ±n, and negative ones count from the end |
| PyList.PySlice | src/ocrtoolkit/datasets/base.py:81-82 | Python slicing with step 1 clamps its bounds to the list, and an empty range gives an empty list |
| PyList.PySliceFromEnd | src/ocrtoolkit/datasets/base.py:81-82 | a negative slice bound counts from the end of the list, and one before the start is clamped to it |
| PyList.Filter | src/ocrtoolkit/datasets/io.py:49-51 | a filter keeps only elements passing the test, as a subsequence |
| PyList.FilterExact | src/ocrtoolkit/datasets/io.py:49-51 | an element is kept iff it is in the list and passes the test |
| PyList.FilterMultiset | src/ocrtoolkit/datasets/io.py:49-51 | an element passing the test is kept as often as it occurs; others not at all |
| PyList.MapAll | src/ocrtoolkit/datasets/io.py:59-73 | a loop that stops at the first error fails iff some element fails, and otherwise maps each element |
| PyList.Lower | src/ocrtoolkit/wrappers/bbox.py:260-272 | `str.lower` on ASCII letters |

## Left out

- Trigonometry and floating point:
  - `estimate_page_angle`, the rotation matrix of `rotate_boxes` and the remap to a target shape are not modelled.
  - The three-dimensional (rotated) branch of `sort_boxes` is not modelled.
  - `BBox.dist` is not modelled: it needs real powers and roots.
  - Reals stand for Python floats, so rounding is not modelled.
- GeometryUtils.RotateBoxes: records the decision and the angle but does not compute rotated points, because the rotation needs `cos`/`sin`.
- BoxUtils.SortBoxes and BoxUtils.ResolveLines require a non-zero median height. In numpy a zero median divides to `inf`/`nan` and the order is then unspecified.
- Divisions by zero are excluded by `requires` rather than modelled as a ZeroDivisionError. This applies to:
  - GeometryUtils.RemapBoxes
  - DatasetBase.NumBatches and DatasetBase.BatchBounds
  - OcrBBox.Normalize
  - ChequeBBox.Normalize
- Same-space `assert`s are a `requires` on the box operations below, so the AssertionError a mixed-space call raises is not promised there. `filter_by_bbox` and text-box addition (ChequeTextBBox.Add, ChequeTextBBox.SumBoxes) do model it.
  - OcrBBox.IntersectionArea, OcrBBox.IsInside, OcrBBox.Add
  - ChequeBBox.IntersectionArea, ChequeBBox.IsInside, ChequeBBox.Add
- ChequeTextBBox.SumBoxes: requires a non-empty list. Python's `sum([])` is the integer 0, which is not a box.
- DatasetBase.Dataset.constructor: the two `assert`s of `setup` (names as many as items, no duplicates) are a `requires`. `get_as_ds` and `concat_ds`, whose callers can break them, model the AssertionError.
- DatasetBase.Dataset.constructor: a missing `items` is taken from the source, as the subclass datasets' item hooks do (those subclasses are not part of this model). The base class's own `_setup_items` gives no items. So on a bare `BaseDS`, `batch` and `sample` (which pass only a source and names) fail setup's length assertion unless the result is empty. Batch and Sample model the subclass behaviour.
- DatasetBase.Dataset.GetAsDs: a slice key with a step (`ds.get_as_ds(slice(a, b, k))`) is not modelled; only the start and stop of a slice are.
- DatasetBase.Select: only the start and stop of a slice are modelled, not a step.
- PyList.PySlice: models slices with step 1 only; `s[i:j:k]` is not modelled.
- DatasetBase.Dataset.TrainTestSplit: the size `assert` is a `requires`. The scikit-learn splitter's random choice of positions is a parameter, and only the items of the two parts are stated.
- DatasetBase.Dataset.Sample: ocrtoolkit's `misc_utils.get_samples` is not part of this model. The positions it draws are a parameter, required to be distinct positions of the items. (Misc.GetSamples models chequeparser's function of the same name.)
- Sorting.ArgSort: numpy's `argsort` is not stable. The model fixes one order among equal keys, and its contract states only what every order satisfies.
- BoxUtils.RowAt makes box lookup total. Every caller passes valid indices (`Indexes`), so the fallback row is never reached.
- Transforms (`apply_ops`), persistence (`save`/`load` through h5py), serialization of items, drawing and logging are not modelled.
- `to_numpy` stringifies fields into a numpy array; that is modelled as a sequence of tagged values plus a flag saying whether the strings were UTF-8 encoded.
- OcrBBox.FieldsRoundTrip: the text rendering of numbers and of the flag, and `literal_eval` reading the flag back, are not modelled. Only the ASCII cast of unencoded strings can fail.
- PyList.Lower: lower-cases ASCII letters only; Unicode case mapping is not modelled.
- `FileDS`, `_read_image_paths_from_txt_or_dir` and the dataset YAML file are not part of this model.
  - The image list and the class names are inputs to DatasetIo.LoadYolo.
  - The dataset `load_yolo` builds is taken to be named by the images' file names, as its lookup `ds[img_name]` requires. So its setup rejects two kept images with one file name.
  - The label sub-directory is a single path component.
- The ocrtoolkit `DetectionResults` is a plain record (name, size, boxes). The `chequeparser` datasets other than the base dataset are not part of this model.
- ChequeDetections.CreateDsParts:
  - returns the crops and names that `create_ds` hands to `ImageDS`; building the `ImageDS` itself is not modelled;
  - represents the parent dataset by its names, and an empty parent counts as falsy.
- DsUtils.ConcatDs: modelled over the ocrtoolkit base dataset. Its naming hook gives no names, and, as in the source, the key table is not rebuilt after `reset_names`, so with `reset_names` on non-empty items the result is not a valid dataset.
- OcrBBox.Normalize and OcrBBox.Denormalize return the same object when no conversion is needed; object identity is not modelled, only equal values. The same holds for ChequeBBox.Normalize and ChequeBBox.Denormalize.
- Misc.FilterList: exceptions raised by the caller's target or condition functions are not modelled (they are total functions here).
- Misc.GetSamples: `random.sample` is a nondeterministic choice of any valid draw; its distribution is not modelled.
