# Annotation geometry of lss, in Dafny

This project models the geometry layer of `lss/parsers.py`, the part of lss
that reads baselines and masks out of ALTO and PAGE annotation files and
writes simplified ones back:

- the point-list text codec (`_string_to_points_list`, `_points_list_to_string`);
- the height of a point list (`_compute_height`);
- the dialect accessors of `Alto` and `PageXML`: line parse, line height,
  line write, mask enumeration, mask parse, mask height, mask write;
- the two batch passes of `Parsed`:
  - `simplify_lines`, with its epsilon taken from `kwargs` or cached from the
    first line;
  - `simplify_masks`, with its tolerance recomputed while it is falsy;
- the output path chosen by `Parsed.write`.

Modules, one per file:

| file | module | contents |
|---|---|---|
| outcomes.dfy | `Outcomes` | The exceptions the layer raises, as values: `KeyError`, `IndexError`, `ValueError`, `ZeroDivisionError`. The `Result`/`Option` wrappers. `MapAll`, the list comprehension that raises the first element's exception. |
| text.dfy | `Text` | `str.split()`, `str.split(sep)` and `sep.join(...)`, with their round trips. |
| numerals.dfy | `Numerals` | `float(...)` on integer literals and `{:.0f}` on integers, with their round trips. |
| points.dfy | `PointText` | The point codec and `_compute_height`, with the height's properties. |
| dialects.dfy | `Dialects` | A `TextLine` record per dialect and the accessors over it. A PAGE document's masks are a flat sequence in document order, written back through `SetMask`. |
| parsers.dfy | `Parsers` | The `Parsed` class and its passes. |

About `parsers.dfy`:
- `Parsed` is a class whose `lines` field the two passes rewrite in place.
- Each pass is a `while` loop, proved against a functional specification `Run`: a fold of one step function over the elements, threading the tolerance kept between iterations.
- The lemmas about `Run`, `RunLines` and `RunMasks` state what a pass does: which tolerance each element was simplified with, what each element became, and where an exception ends the pass.

Conventions:
- Coordinates are integers and a parsed point is a `seq<int>` (a Python tuple of any arity).
- Ratios, epsilons and tolerances are `real`.
- The simplifiers of `lss/utils.py` are a function-valued parameter `simplify: (PointList, real) -> PointList`.

## Model

| member | source | states |
|---|---|---|
| Outcomes.MapAll | lss/parsers.py:14-17 | A comprehension succeeds iff every element's call succeeds, and then holds each element's result in place. Otherwise it fails with the exception of the first element whose call fails. |
| Text.Tokens | lss/parsers.py:16 | Every token of `str.split()` is non-empty and free of whitespace. |
| Text.Gaps | lss/parsers.py:16 | Every text is its `str.split()` tokens in order, with whitespace before, between and after them, and at least one whitespace character between two tokens. |
| Text.TokensOfSpaced | lss/parsers.py:16 | Whitespace-free words laid out with any such whitespace give exactly those words back. With `Gaps`, the tokens of a text are its maximal runs of non-whitespace, in order. |
| Text.Fields | lss/parsers.py:15 | `str.split(sep)` returns at least one piece, no piece holds the separator, and joining the pieces with the separator gives the input back. |
| Text.TokensOfJoin | lss/parsers.py:16 | Splitting on whitespace the single-space join of whitespace-free words gives the words back. |
| Text.FieldsOfJoin | lss/parsers.py:15 | Splitting on `sep` the `sep`-join of pieces without `sep` gives the pieces back. |
| Text.FieldsAtLastSeparator | lss/parsers.py:99 | Splitting `x + sep + y` (no `sep` in `y`) gives the pieces of `x` followed by `y`. |
| Numerals.ParseInt | lss/parsers.py:15 | A field reads as a number exactly when it is an optional sign followed by at least one digit. Otherwise it raises ValueError. |
| Numerals.ParseIntSignsAndZeros | lss/parsers.py:15 | A digit string reads as its decimal value. A `+` sign or a leading zero leaves that value unchanged, and a `-` sign negates it, as `float` does (`+5` and `05` both read as 5). With ShowParseInt, this fixes the number read from every accepted numeral. |
| Numerals.ShowInt | lss/parsers.py:22 | The text written for a coordinate is non-empty and holds no comma. |
| Numerals.ParseShowInt | lss/parsers.py:15-22 | Reading the text `{:.0f}` wrote for an integer gives the integer back. |
| Numerals.ShowParseInt | lss/parsers.py:15-22 | Writing a canonical numeral after reading it gives the same text. |
| PointText.ParseFields | lss/parsers.py:15 | A token's fields become a tuple iff every field reads as a number, one coordinate per field in order. Otherwise ValueError. |
| PointText.ParseToken | lss/parsers.py:15 | A token parses iff every comma-separated field reads as a number. Coordinate j is then the number field j reads as, so there is at least one. Otherwise it raises ValueError. |
| PointText.ParseTokens | lss/parsers.py:14-17 | The text's tokens become points iff every token parses, one point per token in order. Otherwise ValueError. |
| PointText.ParsePoints | lss/parsers.py:13-17 | The text parses iff each of its whitespace tokens parses, and then gives one point per token, in order. Otherwise it raises ValueError. |
| PointText.ShowPoint | lss/parsers.py:22 | A point is written iff it has at least two coordinates. The text is one whitespace-free word whose comma-separated fields are the formatted x and y; further coordinates are dropped. |
| PointText.ShowTokens | lss/parsers.py:21-24 | The points are written iff each has an x and a y, one token per point in order. Otherwise IndexError. |
| PointText.ShowPoints | lss/parsers.py:20-24 | Writing succeeds iff every point has an x and a y. Otherwise it raises IndexError (from `point[1]`). No points give the empty string. |
| PointText.ShowPointsTokens | lss/parsers.py:20-24 | The written text splits into one token per point, in order, each holding that point's formatted x and y. Joining those tokens with single spaces gives the text back. |
| PointText.ParseShowPoint | lss/parsers.py:15-22 | Reading back the token written for a two-coordinate point gives that point. |
| PointText.ParseShowPoints | lss/parsers.py:13-24 | Round trip: reading the text written for two-coordinate integer points gives the same list. |
| PointText.ShowParseToken | lss/parsers.py:15-22 | A canonical "x,y" token is read as a pair that is written back as the same token. |
| PointText.ShowParsePoints | lss/parsers.py:13-24 | Round trip the other way: text in the writer's own form is read, and writing it back gives the same text. |
| PointText.Height | lss/parsers.py:104-107 | The height exists iff the list is non-empty and every point has a y. A missing y raises IndexError; an empty list raises ValueError (from `min`). The height is never negative. |
| PointText.MinIsLeast | lss/parsers.py:106 | `min` returns one of the values, and no value is smaller. |
| PointText.MaxIsGreatest | lss/parsers.py:106 | `max` returns one of the values, and no value is larger. |
| PointText.HeightIsLargestSpread | lss/parsers.py:104-107 | The height bounds the y-difference of every pair of points and equals the difference of some pair. |
| PointText.HeightOfSameExtremes | lss/parsers.py:104-107 | Lists that agree on having every y and on their lowest and highest y have the same height. |
| PointText.HeightIgnoresOrder | lss/parsers.py:104-107 | Reordering the points does not change the height, nor which error is raised. |
| PointText.HeightIgnoresX | lss/parsers.py:104-107 | The height depends on the y coordinates only. |
| PointText.HeightExample | lss/parsers.py:104-107 | Points at y 30, 10 and 20 have height 20. |
| Dialects.LineParse | lss/parsers.py:128-155 | ALTO (lines 128-129) parses the `BASELINE` attribute and raises KeyError without it. PAGE (lines 154-155) parses `points` of the first `Baseline` child, raising IndexError without such a child and KeyError when it has no `points`. Only KeyError, IndexError or ValueError can be raised, and a parsed line has a baseline element. |
| Dialects.LineHeight | lss/parsers.py:125-152 | ALTO (lines 125-126) raises KeyError without `HEIGHT`; otherwise the height is the number `HEIGHT` reads as, or ValueError when it is not one. PAGE (lines 150-152) raises IndexError without a `Coords` child; otherwise the height is the mask height of the first `Coords`, so never negative. |
| Dialects.LineWrite | lss/parsers.py:131-158 | Writing a baseline (ALTO lines 131-132, PAGE lines 157-158) succeeds iff every point has a y and the line has a baseline element. The new ALTO `BASELINE`, or the `points` of the first PAGE `Baseline`, is exactly the ShowPoints text of the points, so only x and y are written, even for a point with more coordinates. It keeps the dialect and the ALTO height. In PAGE it keeps the `Coords` and every `Baseline` after the first. |
| Dialects.LineWriteKeepsHeight | lss/parsers.py:150-158 | Writing the baseline leaves the line's reference height unchanged. |
| Dialects.LineWriteReadBack | lss/parsers.py:128-158 | Reading back a baseline written from two-coordinate points gives those points, in both dialects (ALTO lines 128-132, PAGE lines 154-158). |
| Dialects.MaskParse | lss/parsers.py:166-167 | A mask's points are its `points` attribute parsed, one point per whitespace token. Without `points` it raises KeyError, and unparseable `points` raise ValueError. |
| Dialects.MaskHeight | lss/parsers.py:163-164 | A mask has a height iff its `points` parse and `_compute_height` succeeds on them. The height is then `_compute_height` of those points, so never negative. A parse error and an exception of `_compute_height` (ValueError for no points, IndexError for a point without y) propagate unchanged. |
| Dialects.MaskWrite | lss/parsers.py:169-170 | Writing a mask succeeds iff every point has a y. The written element is the mask with `points` set to the ShowPoints text of the points, and nothing else changed. |
| Dialects.MaskWriteReadBack | lss/parsers.py:166-170 | Reading back a mask written from two-coordinate points gives those points. |
| Dialects.Masks | lss/parsers.py:160-161 | Every `Coords` child of every line is among the enumerated masks. |
| Dialects.MasksOfConcat | lss/parsers.py:160-161 | The masks of two documents one after the other are the first document's masks, then the second's, in document order. |
| Dialects.SetMask | lss/parsers.py:160-161 | Writing the `j`-th mask in document order changes that mask and nothing else. The layout stays the same and the document stays PAGE. |
| Dialects.LayoutAndMasksDetermineLines | lss/parsers.py:160-161 | Two PAGE documents with the same layout and the same masks are the same document. |
| Parsers.Advance | lss/parsers.py:55-63 | An iteration never changes the number of elements. |
| Parsers.Run | lss/parsers.py:55-63 | A pass keeps the number of elements and records at most one tolerance per element visited. It records one for each when no exception was raised. |
| Parsers.RunNext | lss/parsers.py:55-63 | A pass that has not failed goes on with the next element's step, given the tolerance it kept. |
| Parsers.RunKeepsLastTolerance | lss/parsers.py:57-58 | The tolerance a pass keeps is the last one it used, or the supplied one when it has used none. |
| Parsers.RunRecordsSteps | lss/parsers.py:55-63 | Each rewritten element is its step's result, given the tolerance in force before it. |
| Parsers.RunLeavesRestUntouched | lss/parsers.py:55-63 | Elements after the last rewritten one are unchanged. |
| Parsers.RunStopsAtFailure | lss/parsers.py:55-63 | After an exception, later elements change nothing. |
| Parsers.RunDone | lss/parsers.py:55-63 | A pass gets through n elements iff it got through n - 1 and the n-th step went through. It then keeps that step's tolerance. |
| Parsers.RunFollowsChain | lss/parsers.py:55-63 | When each step goes through iff its chosen tolerance exists and the element can be rewritten with it, a pass gets through n elements iff each of them, in order, can be rewritten with its chained tolerance. |
| Parsers.ChainSucceedsEach | lss/parsers.py:55-63 | The chain succeeds iff each element, on its own, has its chained tolerance and can be rewritten with it. |
| Parsers.RunFailsAtFirstUnwritten | lss/parsers.py:55-63 | A failed pass failed at its first unwritten element, with that element's own exception. |
| Parsers.StepEpsilon | lss/parsers.py:57-58 | An epsilon kept in `kwargs` is used as it is. Otherwise the epsilon is the ratio times the line's height, and the height's exception propagates. |
| Parsers.LineStep | lss/parsers.py:56-63 | The baseline is parsed before the epsilon is derived, so a parse error wins over a height error. Once both are had, the step succeeds iff every simplified point has a y; otherwise the write raises IndexError (`point[1]`). A successful step keeps the dialect and reuses a kept epsilon. |
| Parsers.Rewrite | lss/parsers.py:56-63 | A line simplified with a settled epsilon can be written back iff its baseline parses and every simplified point has a y. |
| Parsers.LineStepSucceeds | lss/parsers.py:56-63 | A line iteration goes through iff it has its epsilon and the line, simplified with that epsilon, can be written back. |
| Parsers.LineStepRewrites | lss/parsers.py:56-63 | A successful line iteration rewrites its line (parse, simplify, write) with the epsilon it reports. |
| Parsers.RunLinesSucceeds | lss/parsers.py:55-63 | `simplify_lines` gets through the first n lines iff n is 0, or the batch epsilon (the supplied one, else ratio times the first line's height) exists and every one of those lines parses and simplifies, with it, to points that all have a y. |
| Parsers.RunLinesUsesOneEpsilon | lss/parsers.py:57-58 | Every line simplified so far used the same epsilon: the supplied one, or else the ratio times the FIRST line's height. The pass keeps that epsilon, and each line is its rewrite with it. |
| Parsers.RunLinesKeepsDialect | lss/parsers.py:55-63 | Simplifying lines keeps every line in its dialect. |
| Parsers.RunLinesKeepsAllOf | lss/parsers.py:55-63 | A document of one dialect stays of that dialect. |
| Parsers.FirstLineFixesEpsilon | lss/parsers.py:57-58 | With no supplied epsilon, every line is simplified with ratio times the first line's height, whatever its own height. |
| Parsers.SuppliedEpsilonForAllLines | lss/parsers.py:57 | A supplied epsilon is used for every line. |
| Parsers.StepTolerance | lss/parsers.py:85-86 | A truthy tolerance is used as it is. A falsy one is replaced by the ratio times the mask's height, and the height's exception propagates. |
| Parsers.MaskStep | lss/parsers.py:84-94 | The mask is parsed before the tolerance is taken. With a tolerance, an empty mask raises ZeroDivisionError. For a non-empty mask with its tolerance, the step succeeds iff every simplified point has a y; otherwise the write raises IndexError. A successful step writes `points` and reuses a truthy tolerance. |
| Parsers.RewriteMask | lss/parsers.py:83-94 | A mask simplified with a settled tolerance can be written back iff it parses, is non-empty and every simplified point has a y. |
| Parsers.MaskStepSucceeds | lss/parsers.py:83-94 | A mask iteration goes through iff it has its tolerance and the mask, simplified with it, can be written back. |
| Parsers.MaskStepRewrites | lss/parsers.py:83-94 | A successful mask iteration rewrites its mask with the tolerance it reports. |
| Parsers.RunMasksSucceeds | lss/parsers.py:82-94 | `simplify_masks` gets through the first n masks iff each of them has its tolerance (ToleranceAt: the tolerance rule applied mask after mask) and parses, is non-empty and simplifies, with that tolerance, to points that all have a y. |
| Parsers.RunMasksToleranceRule | lss/parsers.py:85-86 | Each mask used the tolerance in force before it when that is truthy, else the ratio times its own height. Each mask is its rewrite with that tolerance. |
| Parsers.ToleranceSticks | lss/parsers.py:85-86 | Once a mask has used a non-zero tolerance, every later mask uses that same tolerance. |
| Parsers.SuppliedToleranceForAllMasks | lss/parsers.py:81-86 | A non-zero supplied tolerance is used for every mask. |
| Parsers.EmptyMaskAborts | lss/parsers.py:85-91 | An empty mask ends the pass. With a falsy tolerance it raises ValueError (`min` of no points); otherwise it raises ZeroDivisionError (the log message divides by the point count). |
| Parsers.OutputPath | lss/parsers.py:96-100 | The suffix defaults to "simple". With no suffix or an empty one, the path is unchanged. Otherwise the suffix and a dot go right after the last dot of the path, or in front of a path without one. |
| Parsers.OutputPathWithoutSuffix | lss/parsers.py:97-98 | With no suffix or an empty one, the document is written to its own path. |
| Parsers.OutputPathInsertsSuffix | lss/parsers.py:98-100 | The suffix goes before the last extension: `stem.ext` becomes `stem.suffix.ext`. |
| Parsers.OutputPathWithoutDot | lss/parsers.py:98-100 | A path without a dot gets the suffix in front: `page` becomes `suffix.page`. |
| Parsers.Parsed.constructor | lss/parsers.py:28-30 | A document holds its path, its dialect and its lines, all of that dialect. |
| Parsers.Parsed.SimplifyLines | lss/parsers.py:48-63 | The new lines and the outcome are those of `RunLines` over all the old lines. The document stays of one dialect. |
| Parsers.Parsed.SimplifyMasks | lss/parsers.py:81-94 | The new masks and the outcome are those of `RunMasks` over all the old masks. Layout and baselines are unchanged and the document stays PAGE. |
| Parsers.SimplifyLine | lss/parsers.py:56-63 | The imperative loop body for one line computes exactly the step `RunLines` folds. |
| Parsers.SimplifyMask | lss/parsers.py:83-94 | The imperative loop body for one mask computes exactly the step `RunMasks` folds. |

## Left out

- Reading XML (`ET.parse`, the namespaces, the XPath queries at lines 122-123, 147-148 and 160-161) is not modelled. A document is its `TextLine` records in document order; a line holds the attributes and children the accessors use.
- The file write at lines 101-102 is not modelled. Only the path `write` chooses is.
- Logging (lines 61 and 89-92) is left out, except the division at line 91, which can raise and is modelled.
- The simplifiers `simplify_line` and `simplify_mask` of `lss/utils.py` are not part of this model. They are a parameter, and their own exceptions are not modelled. The `kwargs` other than `epsilon` (the algorithm choice) are folded into that parameter.
- Numerals.ParseInt: `float(...)` is modelled on integer literals of ASCII digits only. Decimals, exponents, `inf`/`nan`, underscores, surrounding whitespace and non-ASCII decimal digits (such as Arabic-Indic ones) are reported as ValueError, although Python accepts them. This is because coordinates are modelled as exact integers.
- Numerals.ShowParseInt, PointText.ShowParsePoints, Numerals.ParseShowInt, PointText.ParseShowPoints: the model's integers are exact, but Python's `float` rounds integers beyond 2^53. For example "9007199254740993" reads as 9007199254740992.0, and so is written back as "9007199254740992". These round trips hold in Python only for coordinates of magnitude up to 2^53.
- Dialects.LineHeight: a non-integer ALTO `HEIGHT` is reported as ValueError, for the same reason.
- PointText.ShowPoint: writes integers exactly. `{:.0f}` on a non-integer coordinate (a simplifier returning floats) rounds half to even, and negative zero prints as `-0`; neither is modelled.
- Parsers.Parsed.SimplifyLines: `epsilon = None` stands for "no `epsilon` in `kwargs`". Passing `epsilon=None` explicitly in Python hands `None` to the simplifier; that case is not modelled.
- Alto's mask operations: `Alto` (lines 110-132) leaves the mask accessors abstract, so Python refuses to instantiate it. The model builds ALTO documents anyway so that their line accessors can be stated. `SimplifyMasks` requires a PAGE document.
- `lss/cli.py` and the tests are not part of this model.

What the passes do, as the code has it:
- Epsilon: the first line that derives an epsilon stores it in `kwargs`, and every later line reuses it instead of using its own height (`RunLinesUsesOneEpsilon`, `FirstLineFixesEpsilon`).
- Mask tolerance: the tolerance is recomputed from each mask's height while it is falsy, and the first truthy one is kept for all later masks (`RunMasksToleranceRule`, `ToleranceSticks`).
- Partial writes: when an element raises, the elements written before it stay written (`SimplifyLines`, `SimplifyMasks`, `RunLeavesRestUntouched`).
- The code has no modification records, no reload of a written file and no polygon algorithms of its own, so none are modelled.
