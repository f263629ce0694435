/** Challenge nonces: `crypto.randomBytes(16).toString('hex')`
    (app/api/generate/route.ts:11-13). The random bytes are an input. */
module Nonces {
  import opened Wrappers

  newtype byte = x: int | 0 <= x < 256

  /** The number of random bytes behind one nonce. */
  const NonceBytes := 16

  /** A lower-case hexadecimal digit, `0`-`9` or `a`-`f`. */
  predicate IsHexChar(c: char)
  {
    '0' <= c <= '9' || 'a' <= c <= 'f'
  }

  function HexChar(n: int): (c: char)
    requires 0 <= n < 16
    ensures IsHexChar(c)
  {
    if n < 10 then ('0' as int + n) as char else ('a' as int + n - 10) as char
  }

  /** The inverse of HexChar on lower-case hex digits; anything else is not a digit. */
  function HexValue(c: char): (r: Option<int>)
    ensures r.Some? <==> IsHexChar(c)
    ensures r.Some? ==> 0 <= r.value < 16 && HexChar(r.value) == c
    ensures forall n :: 0 <= n < 16 && c == HexChar(n) ==> r == Some(n)
  {
    if '0' <= c <= '9' then Some(c as int - '0' as int)
    else if 'a' <= c <= 'f' then Some(c as int - 'a' as int + 10)
    else None
  }

  /** Node's `Buffer.toString('hex')`: two lower-case digits per byte, high nibble first. */
  function Hex(bytes: seq<byte>): (r: string)
    ensures |r| == 2 * |bytes|
    ensures forall i :: 0 <= i < |r| ==> IsHexChar(r[i])
  {
    if |bytes| == 0 then ""
    else [HexChar(bytes[0] as int / 16), HexChar(bytes[0] as int % 16)] + Hex(bytes[1..])
  }

  /** Reads a hex string back into bytes; `None` for an odd length or a non-digit. */
  function Unhex(s: string): (r: Option<seq<byte>>)
    ensures r.Some? ==> 2 * |r.value| == |s|
    decreases |s|
  {
    if |s| == 0 then Some([])
    else if |s| == 1 then None
    else
      var hi, lo, rest := HexValue(s[0]), HexValue(s[1]), Unhex(s[2..]);
      if hi.Some? && lo.Some? && rest.Some? then Some([(hi.value * 16 + lo.value) as byte] + rest.value)
      else None
  }

  lemma {:induction false} UnhexHex(bytes: seq<byte>)
    ensures Unhex(Hex(bytes)) == Some(bytes)
  {
    if |bytes| > 0 {
      var h := Hex(bytes);
      var b := bytes[0] as int;
      assert h[2..] == Hex(bytes[1..]);
      UnhexHex(bytes[1..]);
      assert HexValue(h[0]) == Some(b / 16);
      assert HexValue(h[1]) == Some(b % 16);
      assert (b / 16) * 16 + b % 16 == b;
      assert bytes == [bytes[0]] + bytes[1..];
    }
  }

  /** Distinct random draws always give distinct nonces. */
  lemma HexInjective(a: seq<byte>, b: seq<byte>)
    ensures Hex(a) == Hex(b) ==> a == b
  {
    UnhexHex(a);
    UnhexHex(b);
  }

  /** `generateNonce()`: the hex rendering of sixteen random bytes. */
  function GenerateNonce(entropy: seq<byte>): (nonce: string)
    requires |entropy| == NonceBytes
    ensures |nonce| == 32
    ensures forall i :: 0 <= i < |nonce| ==> IsHexChar(nonce[i])
    ensures Unhex(nonce) == Some(entropy)
  {
    UnhexHex(entropy);
    Hex(entropy)
  }
}
