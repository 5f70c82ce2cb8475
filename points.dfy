/** The point-list text codec and the height primitive of lss/parsers.py:
    `_string_to_points_list`, `_points_list_to_string` and
    `Parsed._compute_height`. */
module PointText {
  import opened Outcomes
  import opened Text
  import opened Numerals

  /** One parsed point: the tuple of numbers read from one token. Its arity is
      whatever the token holds; nothing checks that it is two. */
  type Coord = seq<int>

  type PointList = seq<Coord>

  /** Every point has an x and a y, so it can be written and measured. */
  predicate IsPlanar(pts: PointList) {
    forall i | 0 <= i < |pts| :: |pts[i]| >= 2
  }

  // ---------------------------------------------------------------------------
  // Parsing: "5,10 15,10 25,30" -> [(5, 10), (15, 10), (25, 30)]

  /** `tuple(map(float, fields))`: one number per field, in order; the first
      field that is not a number raises ValueError. */
  function ParseFields(fields: seq<string>): (r: Result<Coord>)
    ensures r.Ok? <==> forall j | 0 <= j < |fields| :: ParseInt(fields[j]).Ok?
    ensures r.Ok? ==> (|r.value| == |fields|
                       && forall j | 0 <= j < |fields| :: r.value[j] == ParseInt(fields[j]).value)
    ensures r.Err? ==> r.error == ValueError
  {
    MapAll(fields, ParseInt)
  }

  /** One token "x,y" read as a tuple: it is split on every comma. */
  function ParseToken(token: string): (r: Result<Coord>)
    ensures r.Ok? ==> forall j | 0 <= j < |Fields(token, ',')| :: ParseInt(Fields(token, ',')[j]).Ok?
    ensures (forall j | 0 <= j < |Fields(token, ',')| :: ParseInt(Fields(token, ',')[j]).Ok?) ==> r.Ok?
    ensures r.Ok? ==> |r.value| == |Fields(token, ',')| >= 1
    ensures r.Ok? ==> forall j | 0 <= j < |r.value| :: ParseInt(Fields(token, ',')[j]) == Ok(r.value[j])
    ensures r.Err? ==> r.error == ValueError
  {
    ParseFields(Fields(token, ','))
  }

  /** The list comprehension over the tokens, in order. */
  function ParseTokens(tokens: seq<string>): (r: Result<PointList>)
    ensures r.Ok? <==> forall i | 0 <= i < |tokens| :: ParseToken(tokens[i]).Ok?
    ensures r.Ok? ==> (|r.value| == |tokens|
                       && forall i | 0 <= i < |tokens| :: r.value[i] == ParseToken(tokens[i]).value)
    ensures r.Err? ==> r.error == ValueError
  {
    MapAll(tokens, ParseToken)
  }

  /** `_string_to_points_list`: the attribute text split on whitespace, one
      tuple per token. */
  function ParsePoints(s: string): (r: Result<PointList>)
    ensures r.Ok? <==> forall i | 0 <= i < |Tokens(s)| :: ParseToken(Tokens(s)[i]).Ok?
    ensures r.Ok? ==> (|r.value| == |Tokens(s)|
                       && forall i | 0 <= i < |Tokens(s)| :: ParseToken(Tokens(s)[i]) == Ok(r.value[i]))
    ensures r.Err? ==> r.error == ValueError
  {
    var parsed := ParseTokens(Tokens(s));
    assert parsed.Ok? ==> forall i | 0 <= i < |Tokens(s)| :: ParseToken(Tokens(s)[i]) == Ok(parsed.value[i]);
    parsed
  }

  // ---------------------------------------------------------------------------
  // Serialising: [(5, 10), (15, 10), (25, 30)] -> "5,10 15,10 25,30"

  /** `f"{point[0]:.0f},{point[1]:.0f}"`: a point with fewer than two
      coordinates raises IndexError; coordinates past the second are dropped. */
  function ShowPoint(p: Coord): (r: Result<string>)
    ensures r.Ok? <==> |p| >= 2
    ensures r.Ok? ==> Fields(r.value, ',') == [ShowInt(p[0]), ShowInt(p[1])]
    ensures r.Ok? ==> IsWord(r.value)
  {
    if |p| < 2 then Err(IndexError)
    else
      var x, y := ShowInt(p[0]), ShowInt(p[1]);
      FieldsOfJoin([x, y], ',');
      assert Join([x, y], ",") == x + "," + y;
      NumeralIsWord(x);
      NumeralIsWord(y);
      Ok(x + "," + y)
  }

  /** A numeral holds no whitespace. */
  lemma NumeralIsWord(s: string)
    requires s != [] && (AllDigits(s) || (s[0] == '-' && AllDigits(s[1..])))
    ensures IsWord(s)
  {
    forall i | 0 <= i < |s| ensures !IsSpace(s[i]) {
      if i > 0 && !AllDigits(s) {
        assert s[i] == s[1..][i - 1];
      }
    }
  }

  /** The list comprehension over the points, in order. */
  function ShowTokens(pts: PointList): (r: Result<seq<string>>)
    ensures r.Ok? <==> IsPlanar(pts)
    ensures r.Ok? ==> (|r.value| == |pts|
                       && forall i | 0 <= i < |pts| :: r.value[i] == ShowPoint(pts[i]).value)
    ensures r.Err? ==> r.error == IndexError
  {
    MapAll(pts, ShowPoint)
  }

  /** `_points_list_to_string`: the tokens joined by single spaces. */
  function ShowPoints(pts: PointList): (r: Result<string>)
    ensures pts == [] ==> r == Ok("")
    ensures r.Ok? <==> IsPlanar(pts)
    ensures r.Err? ==> r.error == IndexError
  {
    var tokens :- ShowTokens(pts);
    Ok(Join(tokens, " "))
  }

  /** The written text holds one "x,y" token per point, in the points' order:
      splitting it on whitespace and then on commas gives back the two
      formatted coordinates of each point. */
  lemma ShowPointsTokens(pts: PointList)
    requires IsPlanar(pts)
    ensures var s := ShowPoints(pts).value;
            Join(Tokens(s), " ") == s
            && |Tokens(s)| == |pts|
            && forall i | 0 <= i < |pts| ::
                 Fields(Tokens(s)[i], ',') == [ShowInt(pts[i][0]), ShowInt(pts[i][1])]
  {
    var tokens := ShowTokens(pts).value;
    TokensOfJoin(tokens);
  }

  /** Reading back the token written for a two-coordinate point gives the point. */
  lemma ParseShowPoint(p: Coord)
    requires |p| == 2
    ensures ShowPoint(p).Ok? && ParseToken(ShowPoint(p).value) == Ok(p)
  {
    ParseShowInt(p[0]);
    ParseShowInt(p[1]);
    var f := Fields(ShowPoint(p).value, ',');
    assert f == [ShowInt(p[0]), ShowInt(p[1])];
    var c := ParseFields(f);
    assert c.Ok? && |c.value| == 2;
    assert c.value == p;
  }

  /** Round trip: for integer points with exactly two coordinates, reading the
      written text gives back the same list. */
  lemma ParseShowPoints(pts: PointList)
    requires forall i | 0 <= i < |pts| :: |pts[i]| == 2
    ensures ShowPoints(pts).Ok? && ParsePoints(ShowPoints(pts).value) == Ok(pts)
  {
    var tokens := ShowTokens(pts).value;
    TokensOfJoin(tokens);
    forall i | 0 <= i < |pts| ensures ParseToken(tokens[i]) == Ok(pts[i]) {
      ParseShowPoint(pts[i]);
    }
    var r := ParsePoints(ShowPoints(pts).value);
    assert r.Ok? && |r.value| == |pts|;
    assert r.value == pts;
  }

  /** A token as `_points_list_to_string` writes it: two canonical numerals
      around one comma. */
  predicate IsCanonicalToken(t: string) {
    var f := Fields(t, ',');
    |f| == 2 && IsCanonicalNumeral(f[0]) && IsCanonicalNumeral(f[1])
  }

  /** Text as `_points_list_to_string` writes it: canonical tokens separated by
      single spaces, with no space before the first or after the last. */
  predicate IsCanonicalPoints(s: string) {
    var tokens := Tokens(s);
    Join(tokens, " ") == s
    && forall i | 0 <= i < |tokens| :: IsCanonicalToken(tokens[i])
  }

  /** A canonical token is read as a pair that is written back as the same token. */
  lemma ShowParseToken(t: string)
    requires IsCanonicalToken(t)
    ensures ParseToken(t).Ok? && |ParseToken(t).value| == 2
    ensures ShowPoint(ParseToken(t).value) == Ok(t)
  {
    var f := Fields(t, ',');
    ShowParseInt(f[0]);
    ShowParseInt(f[1]);
    assert forall j | 0 <= j < |f| :: ParseInt(f[j]).Ok? by {
      assert forall j | 0 <= j < |f| :: f[j] == f[0] || f[j] == f[1];
    }
    var p := ParseToken(t).value;
    assert p[0] == ParseInt(f[0]).value && p[1] == ParseInt(f[1]).value;
    assert ShowPoint(p).value == f[0] + "," + f[1];
    assert Join(f, ",") == f[0] + "," + f[1];
  }

  /** Round trip the other way: writing what was read from canonical text
      gives the same text. */
  lemma ShowParsePoints(s: string)
    requires IsCanonicalPoints(s)
    ensures ParsePoints(s).Ok?
    ensures ShowPoints(ParsePoints(s).value) == Ok(s)
  {
    var tokens := Tokens(s);
    forall i | 0 <= i < |tokens|
      ensures ParseToken(tokens[i]).Ok? && |ParseToken(tokens[i]).value| == 2
      ensures ShowPoint(ParseToken(tokens[i]).value) == Ok(tokens[i])
    {
      ShowParseToken(tokens[i]);
    }
    var pts := ParsePoints(s).value;
    var shown := ShowTokens(pts).value;
    assert |shown| == |tokens|;
    forall i | 0 <= i < |tokens| ensures shown[i] == tokens[i] {
      assert pts[i] == ParseToken(tokens[i]).value;
    }
    assert shown == tokens;
  }

  // ---------------------------------------------------------------------------
  // Height

  /** `[x[1] for x in mask]`: the y of every point, in order. (A point
      without a y makes the comprehension raise IndexError; Height checks that
      first.) */
  function Ys(pts: PointList): (ys: seq<int>)
    requires IsPlanar(pts)
    ensures |ys| == |pts| && forall i | 0 <= i < |pts| :: ys[i] == pts[i][1]
  {
    if pts == [] then []
    else
      assert forall i | 1 <= i < |pts| :: pts[1..][i - 1] == pts[i];
      [pts[0][1]] + Ys(pts[1..])
  }

  /** Python's `min` on a non-empty list. */
  function Min(ys: seq<int>): int
    requires ys != []
  {
    if |ys| == 1 then ys[0]
    else
      var m := Min(ys[1..]);
      if ys[0] <= m then ys[0] else m
  }

  /** Python's `max` on a non-empty list. */
  function Max(ys: seq<int>): int
    requires ys != []
  {
    if |ys| == 1 then ys[0]
    else
      var m := Max(ys[1..]);
      if m < ys[0] then ys[0] else m
  }

  /** `_compute_height`: max(y) - min(y). It fails with IndexError on a point
      without a y and with ValueError (from `min`) on an empty list. */
  function Height(pts: PointList): (r: Result<int>)
    ensures r.Ok? <==> pts != [] && IsPlanar(pts)
    ensures !IsPlanar(pts) ==> r == Err(IndexError)
    ensures pts == [] ==> r == Err(ValueError)
    ensures r.Ok? ==> r.value >= 0
  {
    if !IsPlanar(pts) then Err(IndexError)
    else if pts == [] then Err(ValueError)
    else
      var ys := Ys(pts);
      MinIsLeast(ys);
      MaxIsGreatest(ys);
      Ok(Max(ys) - Min(ys))
  }

  /** `min` returns one of the values, and none is smaller. */
  lemma {:induction false} MinIsLeast(ys: seq<int>)
    requires ys != []
    ensures Min(ys) in ys && forall i | 0 <= i < |ys| :: Min(ys) <= ys[i]
  {
    if |ys| > 1 {
      MinIsLeast(ys[1..]);
      assert forall i | 1 <= i < |ys| :: ys[1..][i - 1] == ys[i];
    }
  }

  /** `max` returns one of the values, and none is larger. */
  lemma {:induction false} MaxIsGreatest(ys: seq<int>)
    requires ys != []
    ensures Max(ys) in ys && forall i | 0 <= i < |ys| :: ys[i] <= Max(ys)
  {
    if |ys| > 1 {
      MaxIsGreatest(ys[1..]);
      assert forall i | 1 <= i < |ys| :: ys[1..][i - 1] == ys[i];
    }
  }

  /** The height is the vertical extent: no two points are further apart in y,
      and some two points are exactly that far apart. */
  lemma HeightIsLargestSpread(pts: PointList)
    requires pts != [] && IsPlanar(pts)
    ensures forall i, j | 0 <= i < |pts| && 0 <= j < |pts| :: pts[i][1] - pts[j][1] <= Height(pts).value
    ensures exists i, j | 0 <= i < |pts| && 0 <= j < |pts| :: pts[i][1] - pts[j][1] == Height(pts).value
  {
    var ys := Ys(pts);
    MinIsLeast(ys);
    MaxIsGreatest(ys);
    var top, bot := Max(ys), Min(ys);
    var i :| 0 <= i < |ys| && ys[i] == top;
    var j :| 0 <= j < |ys| && ys[j] == bot;
    assert pts[i][1] - pts[j][1] == Height(pts).value;
  }

  /** A point of one list is a point of any reordering of it. */
  lemma MemberOfReordering(pts: PointList, other: PointList, i: nat)
    requires multiset(pts) == multiset(other) && i < |pts|
    ensures exists k | 0 <= k < |other| :: other[k] == pts[i]
  {
    assert pts[i] in multiset(pts);
    assert pts[i] in other;
  }

  /** Reordering keeps whether some point lacks a y. */
  lemma ReorderingKeepsPlanar(pts: PointList, other: PointList)
    requires multiset(pts) == multiset(other)
    ensures IsPlanar(pts) ==> IsPlanar(other)
  {
    if IsPlanar(pts) && !IsPlanar(other) {
      var k :| 0 <= k < |other| && |other[k]| < 2;
      MemberOfReordering(other, pts, k);
    }
  }

  /** The lowest and highest y of a list lie within those of any reordering. */
  lemma ReorderingKeepsExtremes(pts: PointList, other: PointList)
    requires multiset(pts) == multiset(other)
    requires IsPlanar(pts) && IsPlanar(other) && pts != [] && other != []
    ensures Min(Ys(other)) <= Min(Ys(pts)) && Max(Ys(pts)) <= Max(Ys(other))
  {
    var ys, zs := Ys(pts), Ys(other);
    MinIsLeast(ys);
    MaxIsGreatest(ys);
    MinIsLeast(zs);
    MaxIsGreatest(zs);
    var i :| 0 <= i < |ys| && ys[i] == Min(ys);
    MemberOfReordering(pts, other, i);
    var k :| 0 <= k < |other| && other[k] == pts[i];
    assert zs[k] == ys[i];
    var i' :| 0 <= i' < |ys| && ys[i'] == Max(ys);
    MemberOfReordering(pts, other, i');
    var k' :| 0 <= k' < |other| && other[k'] == pts[i'];
    assert zs[k'] == ys[i'];
  }

  /** Lists of equal length that have a y everywhere or not alike, and that
      share their lowest and highest y, have the same height. */
  lemma HeightOfSameExtremes(pts: PointList, other: PointList)
    requires |pts| == |other| && (IsPlanar(pts) <==> IsPlanar(other))
    requires IsPlanar(pts) && pts != [] ==>
               Min(Ys(pts)) == Min(Ys(other)) && Max(Ys(pts)) == Max(Ys(other))
    ensures Height(pts) == Height(other)
  {
  }

  /** The height does not depend on the order of the points. */
  lemma HeightIgnoresOrder(pts: PointList, other: PointList)
    requires multiset(pts) == multiset(other)
    ensures Height(pts) == Height(other)
  {
    assert |pts| == |multiset(pts)| == |multiset(other)| == |other|;
    ReorderingKeepsPlanar(pts, other);
    ReorderingKeepsPlanar(other, pts);
    if IsPlanar(pts) && pts != [] {
      ReorderingKeepsExtremes(pts, other);
      ReorderingKeepsExtremes(other, pts);
    }
    HeightOfSameExtremes(pts, other);
  }

  /** The height depends on the ys only: points that agree on their ys (and
      on whether they have one) have the same height whatever their xs. */
  lemma HeightIgnoresX(pts: PointList, other: PointList)
    requires |pts| == |other|
    requires forall i | 0 <= i < |pts| :: (|pts[i]| >= 2) == (|other[i]| >= 2)
    requires forall i | 0 <= i < |pts| && |pts[i]| >= 2 :: pts[i][1] == other[i][1]
    ensures Height(pts) == Height(other)
  {
    if IsPlanar(pts) {
      assert IsPlanar(other);
      assert Ys(pts) == Ys(other);
    }
  }

  /** Three points at ys 10, 20 and 30 have height 20, in any order. */
  lemma HeightExample()
    ensures Height([[0, 30], [0, 10], [0, 20]]) == Ok(20)
  {
    var b: PointList := [[0, 30], [0, 10], [0, 20]];
    assert Ys(b) == [30, 10, 20];
    var yb := Ys(b);
    assert yb[1..] == [10, 20] && yb[1..][1..] == [20];
    assert Max([10, 20]) == 20 && Min([10, 20]) == 10;
  }
}
