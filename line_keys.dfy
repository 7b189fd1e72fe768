/**
 * `normalizeLijnnummer`: the one canonical string key for a line number that may
 * arrive as a JSON number, a string such as " 136.0 ", or some other JSON value.
 */
module LineKeys {
  import opened Wrappers
  import opened Text
  import opened Dtos

  const Int32Min: int := -0x8000_0000
  const Int32Max: int := 0x7FFF_FFFF

  /**
   * `Number.toInt()` on a decoded JSON number. JSON numbers decode to `Double`,
   * whose `toInt()` saturates at the 32-bit bounds; the model's numbers are whole.
   */
  function ToInt32Saturating(n: int): (r: int)
    ensures Int32Min <= r <= Int32Max
    ensures Int32Min <= n <= Int32Max ==> r == n
  {
    if n < Int32Min then Int32Min else if n > Int32Max then Int32Max else n
  }

  /** `s.matches(Regex("^\\d+\\.0$"))` */
  predicate IsDigitsDotZero(s: string) {
    |s| >= 3 && s[|s| - 2..] == ".0" && AllDigits(s[..|s| - 2])
  }

  /** `s.substringBefore('.')`: the text before the first dot, or all of `s`. */
  function BeforeFirstDot(s: string): (r: string)
    ensures |r| <= |s| && r == s[..|r|]
    ensures forall i | 0 <= i < |r| :: r[i] != '.'
    ensures |r| < |s| ==> s[|r|] == '.'
  {
    if s == [] || s[0] == '.' then [] else [s[0]] + BeforeFirstDot(s[1..])
  }

  lemma {:induction false} BeforeFirstDotOf(d: string, rest: string)
    requires AllDigits(d) && rest != [] && rest[0] == '.'
    ensures BeforeFirstDot(d + rest) == d
  {
    if d != [] {
      assert (d + rest)[1..] == d[1..] + rest;
      BeforeFirstDotOf(d[1..], rest);
    }
  }

  /** No dot in a decimal number's text, so it is never a `<digits>.0` text. */
  lemma DecimalIsNotDigitsDotZero(k: string)
    requires AllDigits(k) || (k != [] && k[0] == '-' && AllDigits(k[1..]))
    ensures !IsDigitsDotZero(k)
  {
    if |k| >= 3 {
      if AllDigits(k) {
        assert IsDigit(k[|k| - 2]);
      } else {
        assert IsDigit(k[1..][|k| - 3]);
      }
    }
  }

  /** The string branch: trim, then keep only the digits of a `<digits>.0` text. */
  function NormalizeText(text: string): (r: string)
    ensures Unpadded(r)
    ensures IsDigitsDotZero(Trim(text)) ==> r != [] && AllDigits(r) && r + ".0" == Trim(text)
    ensures !IsDigitsDotZero(Trim(text)) ==> r == Trim(text)
  {
    var t := Trim(text);
    if IsDigitsDotZero(t) then
      DigitsDotZeroParts(t);
      BeforeFirstDot(t)
    else t
  }

  /** The digits before the dot of a `<digits>.0` text. */
  lemma DigitsDotZeroParts(t: string)
    requires IsDigitsDotZero(t)
    ensures var r := BeforeFirstDot(t);
      r != [] && AllDigits(r) && Unpadded(r) && r + ".0" == t
  {
    var digits := t[..|t| - 2];
    assert t == digits + ".0";
    BeforeFirstDotOf(digits, ".0");
    assert IsDigit(digits[0]) && IsDigit(digits[|digits| - 1]);
  }

  /** `normalizeLijnnummer` */
  function NormalizeLijnnummer(v: Option<LijnValue>): (r: Option<string>)
    ensures r.None? <==> v.None?
    ensures r.Some? ==> Unpadded(r.value)
    ensures v.Some? && v.value.Num? ==> r == Some(IntToDecimal(ToInt32Saturating(v.value.n)))
    ensures v.Some? && v.value.Str? ==> r == Some(NormalizeText(v.value.s))
    ensures v.Some? && v.value.Other? ==> r == Some(NormalizeText(v.value.text))
  {
    match v
    case None => None
    case Some(Num(n)) => Some(IntToDecimal(ToInt32Saturating(n)))
    case Some(Str(s)) => Some(NormalizeText(s))
    case Some(Other(text)) => Some(NormalizeText(text))
  }

  /** A padded `<digits>.0` text normalises to its digits. */
  lemma NormalizeDecimalText(pre: string, digits: string, post: string)
    requires IsBlank(pre) && IsBlank(post) && digits != [] && AllDigits(digits)
    ensures NormalizeLijnnummer(Some(Str(pre + (digits + ".0") + post))) == Some(digits)
  {
    var body := digits + ".0";
    assert Unpadded(body) by {
      assert IsDigit(body[0]) && body[|body| - 1] == '0';
    }
    TrimOfPadded(pre, body, post);
    assert pre + (digits + ".0") + post == pre + body + post;
    assert body[..|body| - 2] == digits && body[|body| - 2..] == ".0";
    assert IsDigitsDotZero(body);
    var r := NormalizeText(pre + body + post);
    assert r + ".0" == body;
    assert r == (r + ".0")[..|r|];
  }

  /** The number 136 and the texts "136" and "136.0" give one and the same key. */
  lemma NumberAndTextKeysAgree(n: nat)
    requires n <= Int32Max
    ensures NormalizeLijnnummer(Some(Num(n))) == Some(NatToDecimal(n))
    ensures NormalizeLijnnummer(Some(Str(NatToDecimal(n)))) == Some(NatToDecimal(n))
    ensures NormalizeLijnnummer(Some(Str(NatToDecimal(n) + ".0"))) == Some(NatToDecimal(n))
  {
    var d := NatToDecimal(n);
    NormalizeDecimalText([], d, []);
    assert [] + (d + ".0") + [] == d + ".0";
    TrimUnpadded(d);
    DecimalIsNotDigitsDotZero(d);
  }

  /**
   * A negative number and its text agree as well, but the `<digits>.0` rule has
   * no sign: "-136.0" is kept as it is, so it differs from the number -136.
   */
  lemma NegativeKeys(n: int)
    requires 0 < n <= -Int32Min
    ensures NormalizeLijnnummer(Some(Num(-n))) == Some("-" + NatToDecimal(n))
    ensures NormalizeLijnnummer(Some(Str("-" + NatToDecimal(n)))) == Some("-" + NatToDecimal(n))
    ensures NormalizeLijnnummer(Some(Str("-" + NatToDecimal(n) + ".0"))) == Some("-" + NatToDecimal(n) + ".0")
  {
    NegativeText(NatToDecimal(n));
    NegativeDotZeroText(NatToDecimal(n));
  }

  /** A signed decimal text is already a key. */
  lemma NegativeText(d: string)
    requires d != [] && AllDigits(d)
    ensures NormalizeLijnnummer(Some(Str("-" + d))) == Some("-" + d)
  {
    var k := "-" + d;
    assert k[1..] == d;
    assert Unpadded(k) by {
      assert k[|k| - 1] == d[|d| - 1];
    }
    TrimUnpadded(k);
    DecimalIsNotDigitsDotZero(k);
  }

  /** A signed `<digits>.0` text is kept whole. */
  lemma NegativeDotZeroText(d: string)
    requires d != []
    ensures NormalizeLijnnummer(Some(Str("-" + d + ".0"))) == Some("-" + d + ".0")
  {
    var t := "-" + d + ".0";
    assert Unpadded(t) by {
      assert t[0] == '-' && t[|t| - 1] == '0';
    }
    TrimUnpadded(t);
    assert !IsDigitsDotZero(t) by {
      assert t[..|t| - 2][0] == '-';
    }
  }

  /** A key is a fixed point: normalising it again as a string changes nothing. */
  lemma NormalizeIdempotent(v: LijnValue)
    ensures NormalizeLijnnummer(Some(Str(NormalizeLijnnummer(Some(v)).value))) == NormalizeLijnnummer(Some(v))
  {
    var k := NormalizeLijnnummer(Some(v)).value;
    TrimUnpadded(k);
    match v {
      case Num(n) =>
        var m := ToInt32Saturating(n);
        if m < 0 { assert k[1..] == NatToDecimal(-m); }
        DecimalIsNotDigitsDotZero(k);
      case Str(s) =>
        if IsDigitsDotZero(Trim(s)) { DecimalIsNotDigitsDotZero(k); }
      case Other(s) =>
        if IsDigitsDotZero(Trim(s)) { DecimalIsNotDigitsDotZero(k); }
    }
  }
}
