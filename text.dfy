/** The three string operations the point codec and the output path rely on:
    `str.split()` (runs of whitespace), `str.split(sep)` (every separator) and
    `sep.join(parts)`. */
module Text {

  /** The characters Python's `str.isspace()` accepts; `str.split()` with no
      argument splits on runs of them. */
  predicate IsSpace(c: char) {
    || c == ' '
    || ('\t' <= c <= '\r')
    || ('\U{1c}' <= c <= '\U{1f}')
    || c == '\U{85}' || c == '\U{a0}' || c == '\U{1680}'
    || ('\U{2000}' <= c <= '\U{200a}')
    || c == '\U{2028}' || c == '\U{2029}' || c == '\U{202f}' || c == '\U{205f}' || c == '\U{3000}'
  }

  /** A token of `str.split()`: non-empty and free of whitespace. */
  predicate IsWord(w: string) {
    w != [] && forall i | 0 <= i < |w| :: !IsSpace(w[i])
  }

  /** The length of the run of non-space characters that starts `s`. */
  function WordLength(s: string): (n: nat)
    ensures n <= |s|
    ensures forall i | 0 <= i < n :: !IsSpace(s[i])
    ensures n < |s| ==> IsSpace(s[n])
  {
    if s == [] || IsSpace(s[0]) then 0 else 1 + WordLength(s[1..])
  }

  /** `s.split()`: the maximal runs of non-space characters, in order. */
  function Tokens(s: string): (r: seq<string>)
    ensures forall i | 0 <= i < |r| :: IsWord(r[i])
    decreases |s|
  {
    if s == [] then []
    else if IsSpace(s[0]) then Tokens(s[1..])
    else
      var n := WordLength(s);
      [s[..n]] + Tokens(s[n..])
  }

  /** `sep.join(parts)`. */
  function Join(parts: seq<string>, sep: string): string {
    if parts == [] then ""
    else if |parts| == 1 then parts[0]
    else parts[0] + sep + Join(parts[1..], sep)
  }

  /** `s.split(sep)` for a one-character separator: the pieces between
      separators, empty pieces included; there is always at least one. */
  function Fields(s: string, sep: char): (r: seq<string>)
    ensures |r| >= 1
    ensures forall i | 0 <= i < |r| :: sep !in r[i]
    ensures Join(r, [sep]) == s
  {
    if s == [] then [""]
    else
      var rest := Fields(s[1..], sep);
      if s[0] == sep then
        assert s == [sep] + Join(rest, [sep]);
        [""] + rest
      else
        var r := [[s[0]] + rest[0]] + rest[1..];
        JoinCons([s[0]], rest, [sep]);
        assert s == [s[0]] + s[1..];
        r
  }

  /** Prepending text to the first part of a join prepends it to the joined text. */
  lemma JoinCons(c: string, parts: seq<string>, sep: string)
    requires parts != []
    ensures Join([c + parts[0]] + parts[1..], sep) == c + Join(parts, sep)
  {
    var q := [c + parts[0]] + parts[1..];
    if |parts| > 1 {
      assert q[1..] == parts[1..];
    }
  }

  /** Joining two non-empty lists puts one separator between their joins. */
  lemma {:induction false} JoinAppend(a: seq<string>, b: seq<string>, sep: string)
    requires a != [] && b != []
    ensures Join(a + b, sep) == Join(a, sep) + sep + Join(b, sep)
  {
    if |a| == 1 {
      assert (a + b)[1..] == b;
    } else {
      assert (a + b)[1..] == a[1..] + b;
      JoinAppend(a[1..], b, sep);
    }
  }

  /** Leading whitespace does not change the tokens. */
  lemma TokensSkipSpace(s: string)
    requires s != [] && IsSpace(s[0])
    ensures Tokens(s) == Tokens(s[1..])
  {
  }

  /** A word followed by nothing or by whitespace is read as one whole token. */
  lemma {:induction false} WordLengthOfWord(w: string, t: string)
    requires IsWord(w)
    requires t == [] || IsSpace(t[0])
    ensures WordLength(w + t) == |w|
    decreases |w|
  {
    var s := w + t;
    if |w| > 1 {
      assert s[1..] == w[1..] + t;
      WordLengthOfWord(w[1..], t);
    } else {
      assert s[1..] == t;
    }
  }

  /** Splitting words joined by single spaces gives the words back. */
  lemma {:induction false} TokensOfJoin(ws: seq<string>)
    requires forall i | 0 <= i < |ws| :: IsWord(ws[i])
    ensures Tokens(Join(ws, " ")) == ws
  {
    if ws == [] {
    } else if |ws| == 1 {
      var w := ws[0];
      WordLengthOfWord(w, "");
      assert w + "" == w;
      assert w[..|w|] == w && w[|w|..] == [];
    } else {
      var w, rest := ws[0], Join(ws[1..], " ");
      var s := Join(ws, " ");
      assert s == w + (" " + rest);
      WordLengthOfWord(w, " " + rest);
      assert s[..|w|] == w;
      assert s[|w|..] == " " + rest;
      TokensSkipSpace(" " + rest);
      assert (" " + rest)[1..] == rest;
      TokensOfJoin(ws[1..]);
      assert ws == [w] + ws[1..];
    }
  }

  /** Text made only of whitespace, possibly none. */
  predicate AllSpace(g: string) {
    forall i | 0 <= i < |g| :: IsSpace(g[i])
  }

  /** Words laid out with the whitespace gaps around and between them:
      `gaps[0] + ws[0] + gaps[1] + ... + ws[n-1] + gaps[n]`. */
  function Spaced(ws: seq<string>, gaps: seq<string>): string
    requires |gaps| == |ws| + 1
  {
    if ws == [] then gaps[0] else gaps[0] + ws[0] + Spaced(ws[1..], gaps[1..])
  }

  /** A gap layout for `n` words: every gap is whitespace, and the gaps
      between two words are not empty. */
  predicate IsLayout(gaps: seq<string>, n: nat)
    decreases n
  {
    && |gaps| == n + 1
    && AllSpace(gaps[0])
    && (n > 0 ==> IsLayout(gaps[1..], n - 1) && (n > 1 ==> gaps[1] != []))
  }

  /** The whitespace around and between the tokens of `s`: every text is
      its tokens laid out with these gaps. */
  function Gaps(s: string): (gaps: seq<string>)
    ensures IsLayout(gaps, |Tokens(s)|)
    ensures Spaced(Tokens(s), gaps) == s
    ensures s != [] && IsSpace(s[0]) ==> gaps[0] != []
    decreases |s|
  {
    if s == [] then [""]
    else if IsSpace(s[0]) then
      var g := Gaps(s[1..]);
      SpacedAfterSpace(s[0], s[1..], Tokens(s[1..]), g);
      assert s == [s[0]] + s[1..];
      [[s[0]] + g[0]] + g[1..]
    else
      var n := WordLength(s);
      var w, t := s[..n], s[n..];
      var g := Gaps(t);
      SpacedAfterWord(w, t, Tokens(t), g);
      assert s == w + t;
      [""] + g
  }

  /** A space in front of a layout joins its first gap. */
  lemma SpacedAfterSpace(c: char, t: string, ws: seq<string>, g: seq<string>)
    requires IsSpace(c)
    requires IsLayout(g, |ws|) && Spaced(ws, g) == t
    ensures IsLayout([[c] + g[0]] + g[1..], |ws|)
    ensures Spaced(ws, [[c] + g[0]] + g[1..]) == [c] + t
  {
    var gaps := [[c] + g[0]] + g[1..];
    AllSpaceConcat([c], g[0]);
    assert gaps[1..] == g[1..];
    SpacedCons([c], ws, g);
  }

  /** Whitespace followed by whitespace is whitespace. */
  lemma AllSpaceConcat(a: string, b: string)
    requires AllSpace(a) && AllSpace(b)
    ensures AllSpace(a + b)
  {
    forall j | 0 <= j < |a + b| ensures IsSpace((a + b)[j]) {
      if j >= |a| {
        assert (a + b)[j] == b[j - |a|];
      }
    }
  }

  /** A word in front of a layout that starts with a gap is its first word,
      after an empty gap. */
  lemma SpacedAfterWord(w: string, t: string, ws: seq<string>, g: seq<string>)
    requires IsLayout(g, |ws|) && Spaced(ws, g) == t
    requires ws != [] ==> g[0] != []
    ensures IsLayout([""] + g, |ws| + 1)
    ensures Spaced([w] + ws, [""] + g) == w + t
  {
    var gaps := [""] + g;
    assert gaps[0] == "" && gaps[1..] == g;
    assert IsLayout(gaps, |ws| + 1) by {
      assert AllSpace(gaps[0]);
      assert |ws| > 0 ==> gaps[1] == g[0];
    }
    assert ([w] + ws)[0] == w && ([w] + ws)[1..] == ws;
    assert Spaced([w] + ws, gaps) == "" + w + t;
  }

  /** Prepending text to the first gap prepends it to the laid-out text. */
  lemma SpacedCons(c: string, ws: seq<string>, gaps: seq<string>)
    requires |gaps| == |ws| + 1
    ensures Spaced(ws, [c + gaps[0]] + gaps[1..]) == c + Spaced(ws, gaps)
  {
    var q := [c + gaps[0]] + gaps[1..];
    assert q[1..] == gaps[1..];
  }

  /** Leading whitespace of any length does not change the tokens. */
  lemma {:induction false} TokensSkipSpaces(g: string, t: string)
    requires AllSpace(g)
    ensures Tokens(g + t) == Tokens(t)
    decreases |g|
  {
    if g != [] {
      TokensSkipSpace(g + t);
      assert (g + t)[1..] == g[1..] + t;
      TokensSkipSpaces(g[1..], t);
    } else {
      assert g + t == t;
    }
  }

  /** A word followed by nothing or by whitespace is the first token. */
  lemma TokensOfWord(w: string, t: string)
    requires IsWord(w)
    requires t == [] || IsSpace(t[0])
    ensures Tokens(w + t) == [w] + Tokens(t)
  {
    WordLengthOfWord(w, t);
    var s := w + t;
    assert s[..|w|] == w && s[|w|..] == t;
  }

  /** Splitting words laid out with any whitespace gaps gives the words
      back: with `Gaps`, the tokens of `s` are the only words that lay out
      to `s`. */
  lemma {:induction false} TokensOfSpaced(ws: seq<string>, gaps: seq<string>)
    requires forall i | 0 <= i < |ws| :: IsWord(ws[i])
    requires IsLayout(gaps, |ws|)
    ensures Tokens(Spaced(ws, gaps)) == ws
  {
    if ws == [] {
      TokensSkipSpaces(gaps[0], "");
      assert gaps[0] + "" == gaps[0];
    } else {
      var rest := Spaced(ws[1..], gaps[1..]);
      TokensOfSpaced(ws[1..], gaps[1..]);
      assert |ws| > 1 ==> gaps[1..][0] == gaps[1];
      SpacedHead(ws[1..], gaps[1..]);
      TokensOfWord(ws[0], rest);
      TokensSkipSpaces(gaps[0], ws[0] + rest);
      assert Spaced(ws, gaps) == gaps[0] + (ws[0] + rest);
      assert ws == [ws[0]] + ws[1..];
    }
  }

  /** Laid-out text whose first gap is not empty (or that has no words)
      is empty or starts with whitespace. */
  lemma SpacedHead(ws: seq<string>, gaps: seq<string>)
    requires IsLayout(gaps, |ws|)
    requires ws != [] ==> gaps[0] != []
    ensures var t := Spaced(ws, gaps); t == [] || IsSpace(t[0])
  {
    if ws != [] {
      assert Spaced(ws, gaps)[0] == gaps[0][0];
    }
  }

  /** Splitting text that starts with a separator-free prefix extends the
      first field by that prefix. */
  lemma {:induction false} FieldsPrefix(a: string, t: string, sep: char)
    requires sep !in a
    ensures Fields(a + t, sep) == [a + Fields(t, sep)[0]] + Fields(t, sep)[1..]
  {
    if a != [] {
      assert (a + t)[0] == a[0];
      assert (a + t)[1..] == a[1..] + t;
      FieldsPrefix(a[1..], t, sep);
      var f, r := Fields(t, sep), Fields((a + t)[1..], sep);
      assert r[0] == a[1..] + f[0] && r[1..] == f[1..];
      assert a[0] != sep;
      assert [a[0]] + r[0] == a + f[0];
    } else {
      assert a + t == t;
      var f := Fields(t, sep);
      assert a + f[0] == f[0];
      assert f == [f[0]] + f[1..];
    }
  }

  /** Splitting a join of separator-free parts gives the parts back. */
  lemma {:induction false} FieldsOfJoin(parts: seq<string>, sep: char)
    requires parts != []
    requires forall i | 0 <= i < |parts| :: sep !in parts[i]
    ensures Fields(Join(parts, [sep]), sep) == parts
  {
    var p := parts[0];
    if |parts| == 1 {
      FieldsPrefix(p, "", sep);
      assert p + "" == p;
    } else {
      var rest := Join(parts[1..], [sep]);
      assert Join(parts, [sep]) == p + ([sep] + rest);
      FieldsPrefix(p, [sep] + rest, sep);
      assert ([sep] + rest)[1..] == rest;
      FieldsOfJoin(parts[1..], sep);
      assert Fields([sep] + rest, sep) == [""] + parts[1..];
      assert p + "" == p;
      assert parts == [p] + parts[1..];
    }
  }

  /** Splitting at a last separator: the fields before it, then the text after it. */
  lemma {:induction false} FieldsAtLastSeparator(x: string, y: string, sep: char)
    requires sep !in y
    ensures Fields(x + [sep] + y, sep) == Fields(x, sep) + [y]
  {
    if x == [] {
      assert x + [sep] + y == [sep] + y;
      assert ([sep] + y)[1..] == y;
      FieldsPrefix(y, "", sep);
      assert y + "" == y;
    } else {
      var s := x + [sep] + y;
      assert s[0] == x[0];
      assert s[1..] == x[1..] + [sep] + y;
      FieldsAtLastSeparator(x[1..], y, sep);
    }
  }
}
