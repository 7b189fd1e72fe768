/**
 * The few Kotlin string operations the mappers rely on: whitespace and blankness,
 * `trim`, ASCII case folding, `endsWith`/`contains`, and decimal digit strings
 * (Java's `\d` is ASCII `0`-`9`).
 */
module Text {
  import opened Wrappers

  /** Kotlin's `Char.isWhitespace`: a Java whitespace character or a Unicode space separator. */
  predicate IsWhitespace(c: char) {
    || c == ' ' || c == '\t' || c == '\n' || c == '\r' || c == '\U{000B}' || c == '\U{000C}'
    || ('\U{001C}' <= c <= '\U{001F}')
    || c == '\U{00A0}' || c == '\U{1680}' || ('\U{2000}' <= c <= '\U{200A}')
    || c == '\U{2028}' || c == '\U{2029}' || c == '\U{202F}' || c == '\U{205F}' || c == '\U{3000}'
  }

  /** `isBlank()`: empty or whitespace only. */
  predicate IsBlank(s: string) {
    forall i | 0 <= i < |s| :: IsWhitespace(s[i])
  }

  /** `isNullOrBlank()` */
  predicate IsNullOrBlank(o: Option<string>) {
    o.None? || IsBlank(o.value)
  }

  /** Neither end of `s` is whitespace: what `trim()` leaves behind. */
  predicate Unpadded(s: string) {
    s == [] || (!IsWhitespace(s[0]) && !IsWhitespace(s[|s| - 1]))
  }

  function TrimStart(s: string): (r: string)
    ensures |r| <= |s| && r == s[|s| - |r|..]
    ensures forall i | 0 <= i < |s| - |r| :: IsWhitespace(s[i])
    ensures r == [] || !IsWhitespace(r[0])
  {
    if |s| > 0 && IsWhitespace(s[0]) then TrimStart(s[1..]) else s
  }

  function TrimEnd(s: string): (r: string)
    ensures |r| <= |s| && r == s[..|r|]
    ensures forall i | |r| <= i < |s| :: IsWhitespace(s[i])
    ensures r == [] || !IsWhitespace(r[|r| - 1])
  {
    if |s| > 0 && IsWhitespace(s[|s| - 1]) then TrimEnd(s[..|s| - 1]) else s
  }

  /** Kotlin's `trim()`: drop the whitespace at both ends. */
  function Trim(s: string): (r: string)
    ensures Unpadded(r)
    ensures r == [] <==> IsBlank(s)
    ensures |r| <= |s|
  {
    var t := TrimStart(s);
    var r := TrimEnd(t);
    assert r != [] ==> !IsWhitespace(r[0]) by {
      if r != [] { assert r[0] == t[0]; }
    }
    r
  }

  lemma {:induction false} TrimStartOfPadded(pad: string, body: string)
    requires IsBlank(pad) && (body == [] || !IsWhitespace(body[0]))
    ensures TrimStart(pad + body) == body
  {
    if pad != [] {
      assert (pad + body)[1..] == pad[1..] + body;
      TrimStartOfPadded(pad[1..], body);
    }
  }

  lemma {:induction false} TrimEndOfPadded(body: string, pad: string)
    requires IsBlank(pad) && (body == [] || !IsWhitespace(body[|body| - 1]))
    ensures TrimEnd(body + pad) == body
  {
    if pad != [] {
      assert (body + pad)[..|body + pad| - 1] == body + pad[..|pad| - 1];
      TrimEndOfPadded(body, pad[..|pad| - 1]);
    } else {
      assert body + pad == body;
    }
  }

  /** Surrounding whitespace is exactly what `trim()` removes. */
  lemma TrimOfPadded(pre: string, body: string, post: string)
    requires IsBlank(pre) && IsBlank(post) && body != [] && Unpadded(body)
    ensures Trim(pre + body + post) == body
  {
    assert pre + body + post == pre + (body + post);
    TrimStartOfPadded(pre, body + post);
    TrimEndOfPadded(body, post);
    assert TrimStart(pre + body + post) == body + post;
  }

  /** Trimming an already trimmed string changes nothing. */
  lemma TrimUnpadded(s: string)
    requires Unpadded(s)
    ensures Trim(s) == s
  {
    if s != [] {
      TrimOfPadded([], s, []);
      assert [] + s + [] == s;
    }
  }

  // ---- ASCII case folding (the model's stand-in for locale-dependent case mapping) ----

  function LowerChar(c: char): (d: char)
    ensures 'A' <= c <= 'Z' ==> d as int == c as int + 32
    ensures !('A' <= c <= 'Z') ==> d == c
  {
    if 'A' <= c <= 'Z' then (c as int + 32) as char else c
  }

  /** `lowercase()` */
  function Lower(s: string): (r: string)
    ensures |r| == |s| && forall i | 0 <= i < |s| :: r[i] == LowerChar(s[i])
  {
    seq(|s|, i requires 0 <= i < |s| => LowerChar(s[i]))
  }

  /** Text without capital letters is its own lower-case form. */
  lemma LowerUnchanged(s: string)
    requires forall i | 0 <= i < |s| :: !('A' <= s[i] <= 'Z')
    ensures Lower(s) == s
  {
  }

  /** `a.equals(b, ignoreCase = true)` */
  predicate EqualsIgnoreCase(a: string, b: string) {
    |a| == |b| && forall i | 0 <= i < |a| :: LowerChar(a[i]) == LowerChar(b[i])
  }

  /** `s.endsWith(suffix, ignoreCase = true)` */
  predicate EndsWithIgnoreCase(s: string, suffix: string) {
    |suffix| <= |s| && EqualsIgnoreCase(s[|s| - |suffix|..], suffix)
  }

  /** `t` occurs in `s` starting at index `i`. */
  predicate OccursAt(s: string, t: string, i: int) {
    0 <= i && i + |t| <= |s| && s[i..i + |t|] == t
  }

  /** `s.contains(t)`: case-sensitive substring test. */
  function Contains(s: string, t: string): (b: bool)
    ensures b <==> exists i :: OccursAt(s, t, i)
  {
    if t <= s then
      assert OccursAt(s, t, 0);
      true
    else if s == [] then
      false
    else
      var b := Contains(s[1..], t);
      assert b ==> exists i :: OccursAt(s, t, i) by {
        if b {
          var i :| OccursAt(s[1..], t, i);
          assert s[1..][i..i + |t|] == s[i + 1..i + 1 + |t|];
          assert OccursAt(s, t, i + 1);
        }
      }
      assert (exists i :: OccursAt(s, t, i)) ==> b by {
        if exists i :: OccursAt(s, t, i) {
          var i :| OccursAt(s, t, i);
          assert i != 0;
          assert s[1..][i - 1..i - 1 + |t|] == s[i..i + |t|];
          assert OccursAt(s[1..], t, i - 1);
        }
      }
      b
  }

  /** A character that does not occur in `s` is not contained in it. */
  lemma NotContainsChar(s: string, c: char)
    requires forall i | 0 <= i < |s| :: s[i] != c
    ensures !Contains(s, [c])
  {
    forall i ensures !OccursAt(s, [c], i) {
      if 0 <= i && i + 1 <= |s| {
        assert s[i..i + 1][0] == s[i];
      }
    }
  }

  // ---- decimal digits ----

  predicate IsDigit(c: char) {
    '0' <= c <= '9'
  }

  predicate AllDigits(s: string) {
    forall i | 0 <= i < |s| :: IsDigit(s[i])
  }

  function DigitChar(d: nat): (c: char)
    requires d < 10
    ensures IsDigit(c) && c as int - '0' as int == d
  {
    ('0' as int + d) as char
  }

  function DigitValue(c: char): (d: nat)
    requires IsDigit(c)
    ensures d < 10 && DigitChar(d) == c
  {
    c as int - '0' as int
  }

  /** The number a string of decimal digits stands for. */
  function DecimalValue(s: string): nat
    requires AllDigits(s)
  {
    if s == [] then 0 else DecimalValue(s[..|s| - 1]) * 10 + DigitValue(s[|s| - 1])
  }

  /** `n.toString()` for a non-negative number: no sign, no leading zero. */
  function NatToDecimal(n: nat): (s: string)
    ensures s != [] && AllDigits(s)
    ensures |s| > 1 ==> s[0] != '0'
  {
    if n < 10 then [DigitChar(n)] else NatToDecimal(n / 10) + [DigitChar(n % 10)]
  }

  /** `n.toString()` for any integer. */
  function IntToDecimal(n: int): (s: string)
    ensures s != [] && Unpadded(s)
    ensures n >= 0 ==> s == NatToDecimal(n)
    ensures n < 0 ==> s == "-" + NatToDecimal(-n)
  {
    if n >= 0 then NatToDecimal(n) else "-" + NatToDecimal(-n)
  }

  /** Reading back what `NatToDecimal` writes gives the number again. */
  lemma {:induction false} DecimalRoundTrip(n: nat)
    ensures DecimalValue(NatToDecimal(n)) == n
  {
    if n >= 10 {
      var s := NatToDecimal(n);
      assert s[..|s| - 1] == NatToDecimal(n / 10);
      DecimalRoundTrip(n / 10);
    }
  }

  /** `n` written in exactly `w` digits, with leading zeros (a `%0wd` field). */
  function Padded(n: nat, w: nat): (s: string)
    ensures |s| == w && AllDigits(s)
  {
    if w == 0 then [] else Padded(n / 10, w - 1) + [DigitChar(n % 10)]
  }

  function Pow10(w: nat): (p: nat)
    ensures p >= 1
  {
    if w == 0 then 1 else 10 * Pow10(w - 1)
  }

  lemma {:induction false} PaddedRoundTrip(n: nat, w: nat)
    requires n < Pow10(w)
    ensures DecimalValue(Padded(n, w)) == n
  {
    if w > 0 {
      var s := Padded(n, w);
      assert s[..|s| - 1] == Padded(n / 10, w - 1);
      PaddedRoundTrip(n / 10, w - 1);
    }
  }

  /** The longest prefix of `s` made of digits. */
  function DigitPrefix(s: string): (d: string)
    ensures |d| <= |s| && d == s[..|d|] && AllDigits(d)
    ensures |d| < |s| ==> !IsDigit(s[|d|])
  {
    if s != [] && IsDigit(s[0]) then [s[0]] + DigitPrefix(s[1..]) else []
  }

  lemma {:induction false} DigitPrefixOf(d: string, rest: string)
    requires AllDigits(d) && (rest == [] || !IsDigit(rest[0]))
    ensures DigitPrefix(d + rest) == d
  {
    if d != [] {
      assert (d + rest)[1..] == d[1..] + rest;
      DigitPrefixOf(d[1..], rest);
    } else {
      assert d + rest == rest;
    }
  }

  /** `d` occurs in `s` at `i` as a maximal run of digits with no digit before it. */
  predicate RunAt(s: string, i: nat, d: string) {
    i + |d| <= |s| && s[i..i + |d|] == d
    && (forall j | 0 <= j < i :: !IsDigit(s[j]))
    && (i + |d| < |s| ==> !IsDigit(s[i + |d|]))
  }

  /** `Regex("\\d+").find(s)?.value`: the first maximal run of digits, if any. */
  function FirstDigitRun(s: string): (r: Option<string>)
    ensures r.Some? ==> r.value != [] && AllDigits(r.value)
    ensures r.None? <==> forall i | 0 <= i < |s| :: !IsDigit(s[i])
  {
    if s == [] then None
    else if IsDigit(s[0]) then Some(DigitPrefix(s))
    else
      var r := FirstDigitRun(s[1..]);
      assert forall i | 1 <= i < |s| :: s[i] == s[1..][i - 1];
      r
  }

  /** What `find` returns is the leftmost match, and `\d+` is greedy: the run is maximal. */
  lemma {:induction false} FirstDigitRunIsLeftmost(s: string)
    ensures FirstDigitRun(s).Some? ==> exists i: nat :: RunAt(s, i, FirstDigitRun(s).value)
  {
    if s != [] && IsDigit(s[0]) {
      assert RunAt(s, 0, DigitPrefix(s));
    } else if s != [] {
      FirstDigitRunIsLeftmost(s[1..]);
      if FirstDigitRun(s).Some? {
        RunAtAfterNonDigit(s, FirstDigitRun(s).value);
      }
    }
  }

  /** A run found after a leading non-digit is found one place later in the whole text. */
  lemma RunAtAfterNonDigit(s: string, d: string)
    requires s != [] && !IsDigit(s[0])
    requires exists i: nat :: RunAt(s[1..], i, d)
    ensures exists i: nat :: RunAt(s, i, d)
  {
    var i: nat :| RunAt(s[1..], i, d);
    assert s[i + 1..i + 1 + |d|] == s[1..][i..i + |d|];
    forall j | 0 <= j < i + 1
      ensures !IsDigit(s[j])
    {
      if j > 0 {
        assert s[j] == s[1..][j - 1];
      }
    }
    if i + 1 + |d| < |s| {
      assert s[i + 1 + |d|] == s[1..][i + |d|];
    }
    assert RunAt(s, i + 1, d);
  }
}
