/** Coordinates as decimal text. The point codec reads each coordinate with
    `float(...)` and writes it with the format `{:.0f}`. Both are modelled on
    exact integers: the reader accepts an optional sign and ASCII digits, the
    writer prints the integer exactly. Python's floats agree with this for
    integers of magnitude up to 2^53 only. */
module Numerals {
  import opened Outcomes

  predicate IsDigit(c: char) { '0' <= c <= '9' }

  predicate AllDigits(s: string) {
    forall i | 0 <= i < |s| :: IsDigit(s[i])
  }

  function DigitValue(c: char): (d: nat)
    requires IsDigit(c)
    ensures d < 10
  {
    c as int - '0' as int
  }

  function DigitChar(d: nat): (c: char)
    requires d < 10
    ensures IsDigit(c) && DigitValue(c) == d
  {
    ('0' as int + d) as char
  }

  /** The decimal digits of `n`, most significant first, without leading zeros. */
  function ShowNat(n: nat): (s: string)
    ensures s != [] && AllDigits(s)
    ensures s[0] == '0' ==> n == 0 && s == "0"
  {
    if n < 10 then [DigitChar(n)] else ShowNat(n / 10) + [DigitChar(n % 10)]
  }

  /** `f"{n:.0f}"` for an integer-valued coordinate `n`. */
  function ShowInt(n: int): (s: string)
    ensures s != [] && ',' !in s
  {
    if n < 0 then "-" + ShowNat(-n) else ShowNat(n)
  }

  /** The number a string of decimal digits denotes. */
  function ValueOfDigits(s: string): nat
    requires AllDigits(s)
  {
    if s == [] then 0 else 10 * ValueOfDigits(s[..|s| - 1]) + DigitValue(s[|s| - 1])
  }

  /** `float(s)` on a coordinate field, restricted to integer literals: an
      optional sign and at least one digit; anything else raises ValueError. */
  function ParseInt(s: string): (r: Result<int>)
    ensures r.Ok? <==> (s != [] && AllDigits(if s[0] == '+' || s[0] == '-' then s[1..] else s)
                                && (s[0] == '+' || s[0] == '-' ==> |s| > 1))
    ensures r.Err? ==> r.error == ValueError
  {
    var signed := s != [] && (s[0] == '+' || s[0] == '-');
    var digits := if signed then s[1..] else s;
    if digits != [] && AllDigits(digits) then
      var v: int := ValueOfDigits(digits);
      Ok(if signed && s[0] == '-' then -v else v)
    else
      Err(ValueError)
  }

  /** The numerals `{:.0f}` produces: "0", or digits without a leading zero,
      optionally after a minus sign. */
  predicate IsCanonicalNumeral(s: string) {
    || s == "0"
    || (s != [] && s[0] != '-' && AllDigits(s) && s[0] != '0')
    || (|s| > 1 && s[0] == '-' && AllDigits(s[1..]) && s[1] != '0')
  }

  lemma {:induction false} ValueOfShowNat(n: nat)
    ensures ValueOfDigits(ShowNat(n)) == n
  {
    if n >= 10 {
      var s := ShowNat(n);
      assert s[..|s| - 1] == ShowNat(n / 10);
      ValueOfShowNat(n / 10);
    }
  }

  lemma {:induction false} ShowValueOfDigits(s: string)
    requires s != [] && AllDigits(s) && s[0] != '0'
    ensures ValueOfDigits(s) >= 1
    ensures ShowNat(ValueOfDigits(s)) == s
  {
    var last := s[|s| - 1];
    assert DigitChar(DigitValue(last)) == last;
    if |s| > 1 {
      var init := s[..|s| - 1];
      ShowValueOfDigits(init);
      var v := ValueOfDigits(s);
      assert v / 10 == ValueOfDigits(init) && v % 10 == DigitValue(last);
      assert s == init + [last];
    }
  }

  /** Reading back what `{:.0f}` wrote gives the same coordinate. */
  lemma ParseShowInt(n: int)
    ensures ParseInt(ShowInt(n)) == Ok(n)
  {
    var s := ShowInt(n);
    if n < 0 {
      ValueOfShowNat(-n);
      assert s[1..] == ShowNat(-n);
    } else {
      ValueOfShowNat(n);
    }
  }

  /** Writing a canonical numeral that was read gives the same text back. */
  lemma ShowParseInt(s: string)
    requires IsCanonicalNumeral(s)
    ensures ParseInt(s).Ok? && ShowInt(ParseInt(s).value) == s
  {
    if s == "0" {
      assert ValueOfDigits(s) == 10 * ValueOfDigits([]) + 0;
      assert ParseInt(s) == Ok(0);
    } else if s[0] == '-' {
      var digits := s[1..];
      ShowValueOfDigits(digits);
      assert ParseInt(s) == Ok(-(ValueOfDigits(digits) as int));
      assert s == "-" + digits;
    } else {
      ShowValueOfDigits(s);
      assert ParseInt(s) == Ok(ValueOfDigits(s));
    }
  }
  /** A leading zero does not change the number a digit string denotes. */
  lemma {:induction false} ValueOfLeadingZero(s: string)
    requires AllDigits(s)
    ensures AllDigits("0" + s) && ValueOfDigits("0" + s) == ValueOfDigits(s)
  {
    var z := "0" + s;
    assert AllDigits(z) by {
      assert forall i | 0 <= i < |z| :: z[i] == if i == 0 then '0' else s[i - 1];
    }
    if s == [] {
      assert ValueOfDigits(z) == 10 * ValueOfDigits([]) + 0;
    } else {
      var init := s[..|s| - 1];
      assert z[..|z| - 1] == "0" + init && z[|z| - 1] == s[|s| - 1];
      ValueOfLeadingZero(init);
    }
  }

  /** `float` reads a numeral with a plus sign or a leading zero as the
      digits alone, and one with a minus sign as their negation. With
      ShowParseInt this fixes the number read from every accepted numeral. */
  lemma ParseIntSignsAndZeros(d: string)
    requires d != [] && AllDigits(d)
    ensures ParseInt(d) == Ok(ValueOfDigits(d))
    ensures ParseInt("+" + d) == ParseInt(d)
    ensures ParseInt("-" + d) == Ok(-(ValueOfDigits(d) as int))
    ensures ParseInt("0" + d) == ParseInt(d)
  {
    ParseIntSigned(d, '+');
    ParseIntSigned(d, '-');
    ValueOfLeadingZero(d);
    ParseIntUnsigned("0" + d);
    ParseIntUnsigned(d);
  }

  /** Helper for ParseIntSignsAndZeros: a digit string reads as its value. */
  lemma ParseIntUnsigned(d: string)
    requires d != [] && AllDigits(d)
    ensures ParseInt(d) == Ok(ValueOfDigits(d))
  {
    assert !IsDigit('+') && !IsDigit('-');
  }

  /** Helper for ParseIntSignsAndZeros: a signed digit string reads as its
      value, negated after a minus. */
  lemma ParseIntSigned(d: string, sign: char)
    requires d != [] && AllDigits(d) && (sign == '+' || sign == '-')
    ensures ParseInt([sign] + d) == Ok(if sign == '-' then -(ValueOfDigits(d) as int) else ValueOfDigits(d))
  {
    assert ([sign] + d)[1..] == d;
  }
}
