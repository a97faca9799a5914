/**
 * Decimal text of unsigned 64-bit integers: what `u64::to_string` (the `Display`
 * rendering used for the `limit` query parameter) produces, and its inverse.
 */
module DecimalText {
  import opened Wrappers

  const U64_LIMIT: int := 0x1_0000_0000_0000_0000

  /** Rust's `u64`. */
  type U64 = n: int | 0 <= n < U64_LIMIT

  predicate IsDigit(c: char) {
    '0' <= c <= '9'
  }

  predicate AllDigits(s: string) {
    forall i :: 0 <= i < |s| ==> IsDigit(s[i])
  }

  /** A digit string in canonical form: non-empty and without a leading zero (except "0" itself). */
  predicate Canonical(s: string) {
    |s| >= 1 && AllDigits(s) && (s[0] == '0' ==> |s| == 1)
  }

  function DigitChar(d: int): (c: char)
    requires 0 <= d < 10
    ensures IsDigit(c) && c as int - '0' as int == d
  {
    ('0' as int + d) as char
  }

  /** The `Display` rendering of a non-negative integer: most significant digit first. */
  function RenderU64(n: nat): (s: string)
    ensures Canonical(s)
    decreases n
  {
    if n < 10 then [DigitChar(n)] else RenderU64(n / 10) + [DigitChar(n % 10)]
  }

  /** The number a digit string denotes (leading zeros allowed). */
  function DigitsValue(s: string): nat
    requires AllDigits(s)
  {
    if s == [] then 0 else DigitsValue(s[..|s| - 1]) * 10 + (s[|s| - 1] as int - '0' as int)
  }

  /** Reads a non-empty string of decimal digits; anything else is rejected. */
  function ParseDecimal(s: string): (r: Option<nat>)
    ensures r.Some? <==> |s| >= 1 && AllDigits(s)
  {
    if |s| >= 1 && AllDigits(s) then Some(DigitsValue(s)) else None
  }

  lemma {:induction false} DigitsValueOfRender(n: nat)
    ensures DigitsValue(RenderU64(n)) == n
    decreases n
  {
    if n >= 10 {
      var p := RenderU64(n / 10);
      DigitsValueOfRender(n / 10);
      assert (p + [DigitChar(n % 10)])[..|p|] == p;
    }
  }

  /** Parsing the rendering of a number gives the number back. */
  lemma ParseRender(n: nat)
    ensures ParseDecimal(RenderU64(n)) == Some(n)
  {
    DigitsValueOfRender(n);
  }

  /** Distinct numbers render to distinct strings. */
  lemma RenderInjective(a: nat, b: nat)
    ensures RenderU64(a) == RenderU64(b) ==> a == b
  {
    ParseRender(a);
    ParseRender(b);
  }

  /** Rendering a number of two or more digits: the rendering of all but the last, then the last. */
  lemma RenderStep(v: nat, d: nat)
    requires v >= 1 && d < 10
    ensures RenderU64(v * 10 + d) == RenderU64(v) + [DigitChar(d)]
  {
    assert (v * 10 + d) / 10 == v && (v * 10 + d) % 10 == d;
  }

  /** Every canonical digit string is the rendering of the number it denotes. */
  lemma {:induction false} RenderParse(s: string)
    requires Canonical(s)
    ensures ParseDecimal(s).Some? && RenderU64(ParseDecimal(s).value) == s
    decreases |s|
  {
    if |s| > 1 {
      var p := s[..|s| - 1];
      assert p[0] == s[0];
      RenderParse(p);
      var v := DigitsValue(p);
      assert RenderU64(0) == "0";
      assert v != 0 by {
        assert p != "0";
      }
      var d := s[|s| - 1] as int - '0' as int;
      assert DigitsValue(s) == v * 10 + d;
      RenderStep(v, d);
      assert DigitChar(d) == s[|s| - 1];
      assert RenderU64(v) == p;
      assert s == p + [s[|s| - 1]];
    } else {
      var d := s[0] as int - '0' as int;
      assert DigitsValue(s) == d by {
        assert s[..0] == [];
      }
      assert DigitChar(d) == s[0];
      assert s == [s[0]];
    }
  }
}
