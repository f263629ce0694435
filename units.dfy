/** USDC amounts: `ethers.parseUnits(expectedAmount, 6)` as called at
    app/api/generate/route.ts:88. The decimal string is read the way the
    library's fixed-point parser reads it: an optional minus sign, digits, an
    optional point and more digits, at least one digit in all; decimals past
    the sixth must be zeros; anything else throws (`None` here). */
module Units {
  import opened Wrappers

  /** USDC has six decimal places. */
  const Decimals := 6
  const Scale := 1000000

  predicate IsDigit(c: char)
  {
    '0' <= c <= '9'
  }

  predicate AllDigits(s: string)
  {
    forall i :: 0 <= i < |s| ==> IsDigit(s[i])
  }

  predicate AllZeros(s: string)
  {
    forall i :: 0 <= i < |s| ==> s[i] == '0'
  }

  function DigitChar(d: int): (c: char)
    requires 0 <= d < 10
    ensures IsDigit(c)
  {
    ('0' as int + d) as char
  }

  /** The value of a string of decimal digits, most significant first ("" is 0). */
  function DigitsValue(s: string): nat
    requires AllDigits(s)
  {
    if |s| == 0 then 0
    else DigitsValue(s[..|s| - 1]) * 10 + (s[|s| - 1] as int - '0' as int)
  }

  function Pow10(k: nat): (r: nat)
    ensures r >= 1
  {
    if k == 0 then 1 else 10 * Pow10(k - 1)
  }

  /** Index of the first '.' in `s`, or `|s|` when there is none. */
  function DotIndex(s: string): (i: nat)
    ensures i <= |s|
    ensures i < |s| ==> s[i] == '.'
    ensures forall k :: 0 <= k < i ==> s[k] != '.'
  {
    if |s| == 0 then 0
    else if s[0] == '.' then 0
    else 1 + DotIndex(s[1..])
  }

  function Min(a: int, b: int): int
  {
    if a <= b then a else b
  }

  /** `parseUnits(s, 6)`: the amount in base units (millionths), or `None`
      where the library throws. */
  function ParseUnits6(s: string): (r: Option<int>)
    ensures r.Some? ==> exists i :: 0 <= i < |s| && IsDigit(s[i])
    ensures r.Some? && r.value < 0 ==> s[0] == '-'
  {
    var negative := |s| > 0 && s[0] == '-';
    var body := if negative then s[1..] else s;
    var dot := DotIndex(body);
    var whole := body[..dot];
    var frac := if dot < |body| then body[dot + 1..] else "";
    if !AllDigits(whole) || !AllDigits(frac) || |whole| + |frac| == 0 then None
    else
      var kept := Min(|frac|, Decimals);
      if !AllZeros(frac[kept..]) then None
      else
        var magnitude := DigitsValue(whole) * Scale + DigitsValue(frac[..kept]) * Pow10(Decimals - kept);
        assert |whole| > 0 ==> whole[0] == s[|s| - |body|];
        assert |whole| == 0 ==> frac[0] == s[|s| - |body| + dot + 1];
        Some(if negative then -magnitude else magnitude)
  }

  /** Decimal digits of a natural number, no leading zeros. */
  function NatDigits(n: nat): (s: string)
    ensures |s| > 0 && AllDigits(s)
    ensures DigitsValue(s) == n
  {
    if n < 10 then [DigitChar(n)]
    else
      var s := NatDigits(n / 10) + [DigitChar(n % 10)];
      assert s[..|s| - 1] == NatDigits(n / 10);
      s
  }

  /** The low `width` decimal digits of `n`, zero-padded. */
  function FixedDigits(n: nat, width: nat): (s: string)
    ensures |s| == width && AllDigits(s)
    ensures DigitsValue(s) == n % Pow10(width)
  {
    if width == 0 then ""
    else
      var s := FixedDigits(n / 10, width - 1) + [DigitChar(n % 10)];
      assert s[..|s| - 1] == FixedDigits(n / 10, width - 1);
      ModPow10Step(n, width);
      s
  }

  lemma ModPow10Step(n: nat, width: nat)
    requires width > 0
    ensures n % Pow10(width) == (n / 10) % Pow10(width - 1) * 10 + n % 10
  {
    var p := Pow10(width - 1);
    var q := n / 10;
    assert n == q * 10 + n % 10;
    assert q == (q / p) * p + q % p;
    assert n == (q / p) * (10 * p) + ((q % p) * 10 + n % 10);
    assert 0 <= (q % p) * 10 + n % 10 < 10 * p;
    DivModUnique(n, 10 * p, q / p, (q % p) * 10 + n % 10);
  }

  lemma DivModUnique(n: int, d: int, q: int, r: int)
    requires d > 0 && 0 <= r < d && n == q * d + r
    ensures n % d == r
  {
    var q0, r0 := n / d, n % d;
    assert (q0 - q) * d == r - r0;
    if q0 > q {
      MulAtLeast(q0 - q, d);
    } else if q0 < q {
      MulAtLeast(q - q0, d);
    }
  }

  lemma {:induction false} MulAtLeast(k: int, d: int)
    requires k >= 1 && d > 0
    ensures k * d >= d
  {
    if k > 1 {
      MulAtLeast(k - 1, d);
      assert k * d == (k - 1) * d + d;
    }
  }

  /** Renders an amount in base units as a decimal with exactly six places. */
  function FormatUnits6(n: nat): (s: string)
  {
    NatDigits(n / Scale) + "." + FixedDigits(n % Scale, Decimals)
  }

  lemma ParseFormatUnits6(n: nat)
    ensures ParseUnits6(FormatUnits6(n)) == Some(n)
  {
    var s := FormatUnits6(n);
    var whole := NatDigits(n / Scale);
    var frac := FixedDigits(n % Scale, Decimals);
    assert s[0] == whole[0] && IsDigit(s[0]);
    assert s[|whole|] == '.';
    assert forall k :: 0 <= k < |whole| ==> s[k] == whole[k];
    assert DotIndex(s) == |whole| by { DotIndexAt(s, |whole|); }
    assert s[..|whole|] == whole;
    assert s[|whole| + 1..] == frac;
    assert frac[6..] == "";
    assert frac[..6] == frac;
    assert Pow10(6) == Scale;
    assert (n % Scale) % Scale == n % Scale;
  }

  lemma DotIndexAt(s: string, i: nat)
    requires i < |s| && s[i] == '.'
    requires forall k :: 0 <= k < i ==> s[k] != '.'
    ensures DotIndex(s) == i
  {
  }

}
