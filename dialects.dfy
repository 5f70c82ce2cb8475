/** The two annotation dialects as records: what `Alto` and `PageXML` in
    lss/parsers.py read from and write to a `TextLine`. The XML tree is left
    out; a document is its `TextLine` elements in document order, each
    holding the attributes and children the accessors touch. */
module Dialects {
  import opened Outcomes
  import opened Numerals
  import opened Text
  import opened PointText

  /** A PAGE `Coords` or `Baseline` element; `points` is its `points`
      attribute, None when the attribute is absent. */
  datatype Element = Element(points: Option<string>)

  /** A `TextLine` element.
      ALTO: its `BASELINE` and `HEIGHT` attributes.
      PAGE: its `Coords` children and its `Baseline` children, each in
      document order (a line normally has one of each; the accessors use the
      first and fail when there is none). */
  datatype TextLine =
    | AltoLine(baseline: Option<string>, height: Option<string>)
    | PageLine(coords: seq<Element>, baselines: seq<Element>)

  datatype Dialect = Alto | PageXML

  function DialectOf(line: TextLine): Dialect {
    if line.AltoLine? then Alto else PageXML
  }

  /** The line has a baseline element to write to. */
  predicate HasBaseline(line: TextLine) {
    line.PageLine? ==> line.baselines != []
  }

  // ---------------------------------------------------------------------------
  // Line accessors

  /** `_line_parse`: the baseline points. ALTO reads the `BASELINE` attribute
      (KeyError when absent); PAGE reads `points` of the first `Baseline`
      child (IndexError when there is none, KeyError when it has no
      `points`). */
  function LineParse(line: TextLine): (r: Result<PointList>)
    ensures r.Ok? ==> HasBaseline(line)
    ensures line.AltoLine? && line.baseline.None? ==> r == Err(KeyError("BASELINE"))
    ensures line.PageLine? && line.baselines == [] ==> r == Err(IndexError)
    ensures line.PageLine? && line.baselines != [] && line.baselines[0].points.None? ==>
              r == Err(KeyError("points"))
    ensures r.Err? ==> r.error in {KeyError("BASELINE"), KeyError("points"), IndexError, ValueError}
    ensures line.AltoLine? && line.baseline.Some? ==> r == ParsePoints(line.baseline.value)
    ensures line.PageLine? && line.baselines != [] && line.baselines[0].points.Some? ==>
              r == ParsePoints(line.baselines[0].points.value)
  {
    match line
    case AltoLine(baseline, _) =>
      if baseline.None? then Err(KeyError("BASELINE")) else ParsePoints(baseline.value)
    case PageLine(_, baselines) =>
      if baselines == [] then Err(IndexError)
      else if baselines[0].points.None? then Err(KeyError("points"))
      else ParsePoints(baselines[0].points.value)
  }

  /** `_line_height`: the reference height the line epsilon is scaled by.
      ALTO converts the `HEIGHT` attribute; PAGE measures the points of the
      line's first `Coords` child. */
  function LineHeight(line: TextLine): (r: Result<real>)
    ensures line.PageLine? && r.Ok? ==> r.value >= 0.0
    ensures line.AltoLine? && line.height.None? ==> r == Err(KeyError("HEIGHT"))
    ensures line.PageLine? && line.coords == [] ==> r == Err(IndexError)
    ensures line.PageLine? && line.coords != [] ==> r == MaskHeight(line.coords[0])
    ensures line.AltoLine? && line.height.Some? ==>
              && (r.Ok? <==> ParseInt(line.height.value).Ok?)
              && (r.Ok? ==> r.value == ParseInt(line.height.value).value as real)
              && (r.Err? ==> r.error == ValueError)
  {
    match line
    case AltoLine(_, height) =>
      if height.None? then Err(KeyError("HEIGHT"))
      else
        var h :- ParseInt(height.value);
        Ok(h as real)
    case PageLine(coords, _) =>
      if coords == [] then Err(IndexError)
      else MaskHeight(coords[0])
  }

  /** `_line_write`: the points serialised into the baseline. Writing fails
      exactly when a point has no y or there is no baseline element; it
      changes nothing but the baseline. */
  function LineWrite(line: TextLine, pts: PointList): (r: Result<TextLine>)
    ensures r.Ok? <==> IsPlanar(pts) && HasBaseline(line)
    ensures r.Ok? ==> DialectOf(r.value) == DialectOf(line)
    ensures r.Ok? && r.value.AltoLine? ==> r.value.height == line.height
    ensures r.Ok? && r.value.PageLine? ==>
              r.value.coords == line.coords
              && |r.value.baselines| == |line.baselines|
              && r.value.baselines[1..] == line.baselines[1..]
    ensures r.Ok? && r.value.AltoLine? ==> r.value.baseline == Some(ShowPoints(pts).value)
    ensures r.Ok? && r.value.PageLine? ==> r.value.baselines[0].points == Some(ShowPoints(pts).value)
  {
    var text :- ShowPoints(pts);
    match line
    case AltoLine(_, _) =>
      Ok(line.(baseline := Some(text)))
    case PageLine(_, baselines) =>
      if baselines == [] then Err(IndexError)
      else Ok(line.(baselines := baselines[0 := baselines[0].(points := Some(text))]))
  }

  /** Writing the baseline leaves the line's reference height as it was. */
  lemma LineWriteKeepsHeight(line: TextLine, pts: PointList)
    requires LineWrite(line, pts).Ok?
    ensures LineHeight(LineWrite(line, pts).value) == LineHeight(line)
  {
  }

  /** Reading back a baseline written from two-coordinate points gives those points. */
  lemma LineWriteReadBack(line: TextLine, pts: PointList)
    requires HasBaseline(line)
    requires forall i | 0 <= i < |pts| :: |pts[i]| == 2
    ensures LineWrite(line, pts).Ok?
    ensures LineParse(LineWrite(line, pts).value) == Ok(pts)
  {
    ParseShowPoints(pts);
  }

  // ---------------------------------------------------------------------------
  // Mask accessors (PAGE only)

  /** `_mask_parse`: the points of a `Coords` element. */
  function MaskParse(mask: Element): (r: Result<PointList>)
    ensures r.Err? ==> r.error == (if mask.points.None? then KeyError("points") else ValueError)
    ensures r.Ok? ==> mask.points.Some? && |r.value| == |Tokens(mask.points.value)|
    ensures mask.points.Some? ==> r == ParsePoints(mask.points.value)
  {
    if mask.points.None? then Err(KeyError("points")) else ParsePoints(mask.points.value)
  }

  /** `_mask_height`: the height of the points of a `Coords` element. */
  function MaskHeight(mask: Element): (r: Result<real>)
    ensures r.Ok? ==> r.value >= 0.0
    ensures r.Ok? <==> MaskParse(mask).Ok? && Height(MaskParse(mask).value).Ok?
    ensures r.Ok? ==> r.value == Height(MaskParse(mask).value).value as real
    ensures MaskParse(mask).Err? ==> r == Err(MaskParse(mask).error)
    ensures MaskParse(mask).Ok? && Height(MaskParse(mask).value).Err? ==>
              r == Err(Height(MaskParse(mask).value).error)
  {
    var pts :- MaskParse(mask);
    var h :- Height(pts);
    Ok(h as real)
  }

  /** `_mask_write`: the points serialised into the `Coords` element. It
      fails exactly when a point has no y. */
  function MaskWrite(mask: Element, pts: PointList): (r: Result<Element>)
    ensures r.Ok? <==> IsPlanar(pts)
    ensures r.Ok? ==> r.value == mask.(points := Some(ShowPoints(pts).value))
  {
    var text :- ShowPoints(pts);
    Ok(mask.(points := Some(text)))
  }

  /** Reading back a mask written from two-coordinate points gives those points. */
  lemma MaskWriteReadBack(mask: Element, pts: PointList)
    requires forall i | 0 <= i < |pts| :: |pts[i]| == 2
    ensures MaskWrite(mask, pts).Ok?
    ensures MaskParse(MaskWrite(mask, pts).value) == Ok(pts)
  {
    ParseShowPoints(pts);
  }

  // ---------------------------------------------------------------------------
  // Enumerating masks: `.//page:TextLine/page:Coords`

  /** Every line is of the given dialect. */
  predicate AllOf(lines: seq<TextLine>, dialect: Dialect) {
    forall i | 0 <= i < |lines| :: DialectOf(lines[i]) == dialect
  }

  /** A PAGE document's lines. */
  predicate AllPage(lines: seq<TextLine>) {
    AllOf(lines, PageXML)
  }

  /** `_masks_get`: every `Coords` child of every line, in document order. */
  function Masks(lines: seq<TextLine>): (ms: seq<Element>)
    requires AllPage(lines)
    ensures forall i, k | 0 <= i < |lines| && 0 <= k < |lines[i].coords| :: lines[i].coords[k] in ms
  {
    if lines == [] then [] else lines[0].coords + Masks(lines[1..])
  }

  /** Enumerating a document split in two enumerates each part in turn. */
  lemma {:induction false} MasksOfConcat(a: seq<TextLine>, b: seq<TextLine>)
    requires AllPage(a) && AllPage(b)
    ensures AllPage(a + b) && Masks(a + b) == Masks(a) + Masks(b)
  {
    assert AllPage(a + b) by {
      assert forall i | 0 <= i < |a + b| :: (a + b)[i] == if i < |a| then a[i] else b[i - |a|];
    }
    if a != [] {
      assert (a + b)[0] == a[0] && (a + b)[1..] == a[1..] + b;
      MasksOfConcat(a[1..], b);
    } else {
      assert a + b == b;
    }
  }

  /** Two PAGE documents with the same lines apart from the points of their
      masks: same baselines, same number of `Coords` per line. */
  predicate SameLayout(a: seq<TextLine>, b: seq<TextLine>)
    requires AllPage(a) && AllPage(b)
  {
    |a| == |b|
    && forall i | 0 <= i < |a| :: a[i].baselines == b[i].baselines && |a[i].coords| == |b[i].coords|
  }

  /** `_mask_write` on the `j`-th mask in document order, as an update of
      the line that owns it: only that mask changes. */
  function SetMask(lines: seq<TextLine>, j: nat, mask: Element): (r: seq<TextLine>)
    requires AllPage(lines) && j < |Masks(lines)|
    ensures AllPage(r) && SameLayout(lines, r)
    ensures Masks(r) == Masks(lines)[j := mask]
  {
    var first := lines[0];
    if j < |first.coords| then
      var r := [first.(coords := first.coords[j := mask])] + lines[1..];
      assert r[1..] == lines[1..];
      r
    else
      var rest := SetMask(lines[1..], j - |first.coords|, mask);
      var r := [first] + rest;
      assert r[1..] == rest;
      r
  }

  /** A PAGE document is determined by its layout and the points of its
      masks: two documents that agree on both are the same document. */
  lemma {:induction false} LayoutAndMasksDetermineLines(a: seq<TextLine>, b: seq<TextLine>)
    requires AllPage(a) && AllPage(b) && SameLayout(a, b)
    requires Masks(a) == Masks(b)
    ensures a == b
  {
    if a != [] {
      var n := |a[0].coords|;
      assert a[0].coords == Masks(a)[..n] && b[0].coords == Masks(b)[..n];
      assert Masks(a[1..]) == Masks(a)[n..] && Masks(b[1..]) == Masks(b)[n..];
      LayoutAndMasksDetermineLines(a[1..], b[1..]);
      assert a == [a[0]] + a[1..] && b == [b[0]] + b[1..];
    }
  }
}
