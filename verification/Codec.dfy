/** Big-endian integers and hexadecimal, as math/big and encoding/hex write them. */
module Codec {
  import opened Prelude

  type Byte = x: int | 0 <= x < 256

  // ---------- big-endian bytes ----------

  /** big.Int.Bytes: no leading zeros, the empty string for zero. */
  function BytesOf(n: nat): seq<Byte>
  {
    if n == 0 then [] else BytesOf(n / 256) + [n % 256]
  }

  /** big.Int.SetBytes: leading zeros are ignored. */
  function NatOf(s: seq<Byte>): nat
  {
    if s == [] then 0 else NatOf(s[..|s| - 1]) * 256 + s[|s| - 1]
  }

  lemma {:induction false} NatOfBytes(n: nat)
    ensures NatOf(BytesOf(n)) == n
  {
    if n > 0 {
      var s := BytesOf(n);
      assert s[..|s| - 1] == BytesOf(n / 256);
      NatOfBytes(n / 256);
    }
  }

  /** Big-endian: what comes first counts for more. */
  lemma {:induction false} NatOfConcat(s: seq<Byte>, x: Byte)
    ensures NatOf(s + [x]) == NatOf(s) * 256 + x && NatOf([x]) == x && NatOf([]) == 0
  {
    assert (s + [x])[..|s|] == s;
    assert [x][..0] == [];
  }

  function Zeros(k: nat): seq<Byte>
  {
    seq(k, _ => 0)
  }

  lemma {:induction false} NatOfZeros(k: nat, s: seq<Byte>)
    ensures NatOf(Zeros(k) + s) == NatOf(s)
    decreases k, |s|
  {
    var t := Zeros(k) + s;
    if s != [] {
      assert t[..|t| - 1] == Zeros(k) + s[..|s| - 1];
      NatOfZeros(k, s[..|s| - 1]);
    } else if k > 0 {
      assert t[..|t| - 1] == Zeros(k - 1) + [];
      NatOfZeros(k - 1, []);
    }
  }

  function BitLen(n: nat): nat
  {
    if n == 0 then 0 else 1 + BitLen(n / 2)
  }

  lemma {:induction false} BytesAreBits(n: nat)
    ensures |BytesOf(n)| == (BitLen(n) + 7) / 8
  {
    if n >= 256 {
      BytesAreBits(n / 256);
      FourBits(n);
      FourBits(n / 16);
      assert n / 16 / 16 == n / 256;
    } else if n > 0 {
      assert BytesOf(n / 256) == [];
      ByteBits(n, 8);
    }
  }

  lemma FourBits(n: nat)
    requires n >= 16
    ensures BitLen(n) == 4 + BitLen(n / 16)
  {
    var n1 := n / 2;
    var n2 := n1 / 2;
    var n3 := n2 / 2;
    assert n1 > 0 && n2 > 0 && n3 > 0 && n3 / 2 == n / 16;
    assert BitLen(n) == 1 + BitLen(n1);
    assert BitLen(n1) == 1 + BitLen(n2);
    assert BitLen(n2) == 1 + BitLen(n3);
  }

  lemma {:induction false} ByteBits(n: nat, k: nat)
    requires k <= 8 && 0 < n < 256 && n < Pow2(k)
    ensures 1 <= BitLen(n) <= k
  {
    if n > 1 {
      ByteBits(n / 2, k - 1);
    }
  }

  function Pow2(k: nat): nat
  {
    if k == 0 then 1 else 2 * Pow2(k - 1)
  }

  lemma {:induction false} BytesMonotone(m: nat, n: nat)
    requires m <= n
    ensures |BytesOf(m)| <= |BytesOf(n)|
    decreases n
  {
    if m > 0 {
      BytesMonotone(m / 256, n / 256);
    }
  }

  /** `pad`: left-filled with zeros to `width` bytes, longer values left as they are. */
  function Padded(x: nat, width: nat): seq<Byte>
  {
    var b := BytesOf(x);
    if |b| >= width then b else Zeros(width - |b|) + b
  }

  /** The number of bytes of the modulus. */
  function Width(modulus: nat): nat
  {
    (BitLen(modulus) + 7) / 8
  }

  /** Up to the modulus, padding has the modulus' own width. */
  lemma PaddedWidth(x: nat, modulus: nat)
    requires x <= modulus
    ensures |Padded(x, Width(modulus))| == Width(modulus) == |BytesOf(modulus)|
  {
    BytesAreBits(modulus);
    BytesMonotone(x, modulus);
  }

  /** Padding keeps the value, so it is injective. */
  lemma PaddedInjective(x: nat, y: nat, width: nat)
    requires Padded(x, width) == Padded(y, width)
    ensures x == y
  {
    PaddedValue(x, width);
    PaddedValue(y, width);
  }

  lemma PaddedValue(x: nat, width: nat)
    ensures NatOf(Padded(x, width)) == x
  {
    NatOfBytes(x);
    if |BytesOf(x)| < width {
      NatOfZeros(width - |BytesOf(x)|, BytesOf(x));
    }
  }

  /** `pad` as written: a zeroed buffer whose tail is overwritten. */
  method Pad(x: nat, modulus: nat) returns (out: array<Byte>)
    ensures fresh(out)
    ensures out[..] == Padded(x, Width(modulus))
  {
    var nLen := (BitLen(modulus) + 7) / 8;
    var bytes := BytesOf(x);
    if |bytes| >= nLen {
      out := new Byte[|bytes|](i requires 0 <= i < |bytes| => bytes[i]);
      return;
    }
    out := new Byte[nLen](_ => 0);
    var shift := nLen - |bytes|;
    for i := 0 to |bytes|
      invariant forall j :: 0 <= j < nLen ==> out[j] == if shift <= j < shift + i then bytes[j - shift] else 0
    {
      out[shift + i] := bytes[i];
    }
  }

  // ---------- hexadecimal ----------

  function HexDigit(d: int): char
    requires 0 <= d < 16
  {
    "0123456789abcdef"[d]
  }

  /** Digits in either case are accepted. */
  function HexValue(ch: char): Option<int>
  {
    if '0' <= ch <= '9' then Some(ch as int - '0' as int)
    else if 'a' <= ch <= 'f' then Some(ch as int - 'a' as int + 10)
    else if 'A' <= ch <= 'F' then Some(ch as int - 'A' as int + 10)
    else None
  }

  function HexEncode(s: seq<Byte>): string
  {
    if s == [] then "" else [HexDigit(s[0] / 16), HexDigit(s[0] % 16)] + HexEncode(s[1..])
  }

  function HexDecode(h: string): Option<seq<Byte>>
  {
    if h == "" then Some([])
    else if |h| == 1 then None
    else
      var hi, lo, rest := HexValue(h[0]), HexValue(h[1]), HexDecode(h[2..]);
      if hi.Some? && lo.Some? && rest.Some? then Some([(hi.value * 16 + lo.value) as Byte] + rest.value) else None
  }

  predicate IsHexDigit(ch: char)
  {
    '0' <= ch <= '9' || 'a' <= ch <= 'f' || 'A' <= ch <= 'F'
  }

  /** Encoding writes lower-case digits only, two a byte. */
  lemma {:induction false} HexIsLowerCase(s: seq<Byte>)
    ensures |HexEncode(s)| == 2 * |s|
    ensures forall i :: 0 <= i < |HexEncode(s)| ==> '0' <= HexEncode(s)[i] <= '9' || 'a' <= HexEncode(s)[i] <= 'f'
  {
    if s != [] {
      HexIsLowerCase(s[1..]);
    }
  }

  /** Decoding does not care about the case of a digit. */
  lemma UpperCaseDigit(d: int)
    requires 10 <= d < 16
    ensures HexValue("0123456789ABCDEF"[d]) == Some(d) == HexValue("0123456789abcdef"[d])
  {
  }

  lemma DigitValue(d: int)
    requires 0 <= d < 16
    ensures HexValue(HexDigit(d)) == Some(d)
  {
  }

  lemma DecodeByte(x: Byte, rest: string)
    requires HexDecode(rest).Some?
    ensures HexDecode([HexDigit(x / 16), HexDigit(x % 16)] + rest) == Some([x] + HexDecode(rest).value)
  {
    var h := [HexDigit(x / 16), HexDigit(x % 16)] + rest;
    DigitValue(x / 16);
    DigitValue(x % 16);
    assert h[2..] == rest;
  }

  lemma {:induction false} HexRoundTrip(s: seq<Byte>)
    ensures HexDecode(HexEncode(s)) == Some(s)
  {
    if s != [] {
      HexRoundTrip(s[1..]);
      DecodeByte(s[0], HexEncode(s[1..]));
      assert [s[0]] + s[1..] == s;
    }
  }

  /** Decoding fails on exactly the strings of odd length and those with a character that is not a hex digit. */
  lemma {:induction false} HexDecodeSucceedsIff(h: string)
    ensures HexDecode(h).Some? <==> |h| % 2 == 0 && forall i :: 0 <= i < |h| ==> IsHexDigit(h[i])
    ensures HexDecode(h).Some? ==> |HexDecode(h).value| * 2 == |h|
  {
    if |h| >= 2 {
      HexDecodeSucceedsIff(h[2..]);
      assert forall i :: 2 <= i < |h| ==> h[i] == h[2..][i - 2];
      assert forall i :: 0 <= i < |h[2..]| ==> h[2..][i] == h[i + 2];
    }
  }
}
