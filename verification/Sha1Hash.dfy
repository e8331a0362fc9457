/** `SHA1Hash`: hexadecimal text and ordering of hashes. */
module Sha1Hash {
  import opened Prelude

  const SIZE: nat := 20
  const HEX_TABLE: string := "0123456789abcdef"

  function HexChar(n: byte): char
    requires n < 16
  {
    HEX_TABLE[n as int]
  }

  /** Value of a hex digit of either case; any other character counts as zero. */
  function DecodeChar(c: char): byte {
    if '0' <= c <= '9' then (c as int - '0' as int) as byte
    else if 'A' <= c <= 'F' then (c as int - 'A' as int + 10) as byte
    else if 'a' <= c <= 'f' then (c as int - 'a' as int + 10) as byte
    else 0
  }

  function HighNibble(b: byte): (n: byte)
    ensures n < 16
  {
    (b & 0xf0) >> 4
  }

  function LowNibble(b: byte): (n: byte)
    ensures n < 16
  {
    b & 0x0f
  }

  function HexOf(b: byte): string {
    [HexChar(HighNibble(b)), HexChar(LowNibble(b))]
  }

  function Hex(bytes: seq<byte>): (s: string)
    ensures |s| == 2 * |bytes|
  {
    if bytes == [] then "" else Hex(bytes[..|bytes| - 1]) + HexOf(bytes[|bytes| - 1])
  }

  /** Two digits as a byte. */
  function ByteOf(hi: char, lo: char): byte {
    (DecodeChar(hi) << 4) + DecodeChar(lo)
  }

  /** `str[i]`, where the position behind the end holds a NUL. */
  function CharAt(str: string, i: nat): char
    requires i <= |str|
  {
    if i < |str| then str[i] else '\0'
  }

  /** The `k`-th byte a hex string stands for. */
  function DecodedAt(str: string, k: nat): byte
    requires 2 * k < |str|
  {
    ByteOf(str[2 * k], CharAt(str, 2 * k + 1))
  }

  method ToString(hash: array<byte>) returns (str: string)
    requires hash.Length == SIZE
    ensures str == Hex(hash[..])
    ensures forall k :: 0 <= k < SIZE ==>
              && str[2 * k] == "0123456789abcdef"[hash[k] as int / 16]
              && str[2 * k + 1] == "0123456789abcdef"[hash[k] as int % 16]
  {
    hide HexOf;
    str := "";
    for i := 0 to hash.Length
      invariant str == Hex(hash[..i])
    {
      assert hash[..i + 1][..i] == hash[..i];
      str := str + HexOf(hash[i]);
    }
    assert hash[..hash.Length] == hash[..];
    forall k | 0 <= k < SIZE
      ensures str[2 * k] == "0123456789abcdef"[hash[k] as int / 16]
      ensures str[2 * k + 1] == "0123456789abcdef"[hash[k] as int % 16]
    {
      HexAt(hash[..], k);
      HexDigits(hash[k]);
    }
  }

  lemma {:induction false} NibblesAre(b: byte)
    ensures HighNibble(b) as int == b as int / 16 && LowNibble(b) as int == b as int % 16
  {
  }

  /** The digit of the sixteens, then that of the ones. */
  lemma {:induction false} HexDigits(b: byte)
    ensures HexOf(b) == ["0123456789abcdef"[b as int / 16], "0123456789abcdef"[b as int % 16]]
  {
    hide HighNibble, LowNibble;
    NibblesAre(b);
  }

  /** Digits are read in either case; what is no digit counts as zero. */
  lemma {:induction false} DigitsRead(c: char)
    ensures 'A' <= c <= 'F' ==> DecodeChar(c) == DecodeChar((c as int + 32) as char)
    ensures !('0' <= c <= '9' || 'A' <= c <= 'F' || 'a' <= c <= 'f') ==> DecodeChar(c) == 0
  {
  }

  /** Fills the hash from the front; it is accepted exactly when the text gives all twenty bytes. */
  method FromHexString(str: string, hash: array<byte>) returns (ok: bool)
    requires hash.Length == SIZE
    modifies hash
    ensures ok <==> |str| >= 39
    ensures forall k :: 0 <= k < SIZE && 2 * k < |str| ==> hash[k] == DecodedAt(str, k)
    ensures forall k :: 0 <= k < SIZE && 2 * k >= |str| ==> hash[k] == old(hash[k])
  {
    hide ByteOf;
    var off, i := 0, 0;
    while i < |str| && off < SIZE
      invariant i == 2 * off && 0 <= off <= SIZE && i <= |str| + 1
      invariant forall k :: 0 <= k < off ==> 2 * k < |str| && hash[k] == DecodedAt(str, k)
      invariant forall k :: off <= k < SIZE ==> hash[k] == old(hash[k])
    {
      hash[off] := ByteOf(str[i], CharAt(str, i + 1));
      off := off + 1;
      i := i + 2;
    }
    ok := off == SIZE;
  }

  /** A digit without a second one is the high digit of its byte. */
  lemma {:induction false} SingleDigit(str: string, k: nat)
    requires |str| == 2 * k + 1
    ensures DecodedAt(str, k) == DecodeChar(str[2 * k]) << 4
  {
    hide DecodeChar;
    DigitsRead('\0');
  }

  lemma {:induction false} NibbleRoundTrip(n: byte)
    requires n < 16
    ensures DecodeChar(HexChar(n)) == n
  {
  }

  lemma {:induction false} NibblesMakeByte(b: byte)
    ensures (HighNibble(b) << 4) + LowNibble(b) == b
  {
  }

  lemma {:induction false} ByteRoundTrip(b: byte)
    ensures ByteOf(HexOf(b)[0], HexOf(b)[1]) == b
  {
    hide HexChar, DecodeChar, HighNibble, LowNibble;
    NibbleRoundTrip(HighNibble(b));
    NibbleRoundTrip(LowNibble(b));
    NibblesMakeByte(b);
  }

  lemma {:induction false} HexAt(bytes: seq<byte>, k: nat)
    requires k < |bytes|
    ensures Hex(bytes)[2 * k] == HexOf(bytes[k])[0] && Hex(bytes)[2 * k + 1] == HexOf(bytes[k])[1]
  {
    if k < |bytes| - 1 {
      HexAt(bytes[..|bytes| - 1], k);
    }
  }

  /** Reading the text of a hash gives the hash back, byte by byte. */
  lemma {:induction false} HexRoundTrip(bytes: seq<byte>, k: nat)
    requires |bytes| == SIZE && k < SIZE
    ensures |Hex(bytes)| >= 39
    ensures DecodedAt(Hex(bytes), k) == bytes[k]
  {
    hide HexOf, ByteOf;
    HexAt(bytes, k);
    ByteRoundTrip(bytes[k]);
  }

  // ---------------------------------------------------------------- order

  /** The hash read as a little-endian number. */
  function Value(bytes: seq<byte>): nat {
    if bytes == [] then 0 else Value(bytes[..|bytes| - 1]) + (bytes[|bytes| - 1] as int) * Power256(|bytes| - 1)
  }

  function Power256(n: nat): (p: nat)
    ensures p > 0
  {
    if n == 0 then 1 else 256 * Power256(n - 1)
  }

  /** `SHA1::compare`: from the last byte down to the first. */
  method Compare(a: array<byte>, b: array<byte>) returns (r: int)
    requires a.Length == SIZE && b.Length == SIZE
    ensures r == Sign(Value(a[..]) - Value(b[..]))
  {
    hide Value;
    var i := SIZE;
    assert a[..SIZE] == a[..] && b[..SIZE] == b[..];
    while i > 0
      invariant 0 <= i <= SIZE
      invariant Sign(Value(a[..i]) - Value(b[..i])) == Sign(Value(a[..]) - Value(b[..]))
    {
      i := i - 1;
      TopByteDecides(a[..i + 1], b[..i + 1]);
      assert a[..i + 1][..i] == a[..i] && b[..i + 1][..i] == b[..i];
      if a[i] < b[i] {
        return -1;
      }
      if a[i] > b[i] {
        return 1;
      }
    }
    EmptyValue();
    return 0;
  }

  function Sign(d: int): int {
    if d < 0 then -1 else if d > 0 then 1 else 0
  }

  lemma {:induction false} EmptyValue()
    ensures Value([]) == 0
  {
  }

  lemma {:induction false} ValueBound(bytes: seq<byte>)
    ensures Value(bytes) < Power256(|bytes|)
  {
    if bytes != [] {
      var n := |bytes| - 1;
      ValueBound(bytes[..n]);
      TopDigitBound(bytes[n] as int, Power256(n));
    }
  }

  lemma {:induction false} TopDigitBound(top: nat, p: nat)
    requires top <= 255
    ensures p + top * p <= 256 * p
  {
  }

  lemma {:induction false} ByteOrder(x: byte, y: byte)
    ensures x < y <==> x as int < y as int
  {
  }

  lemma {:induction false} TopByteDecides(a: seq<byte>, b: seq<byte>)
    requires |a| == |b| > 0
    ensures var n := |a| - 1;
            Sign(Value(a) - Value(b)) ==
            if a[n] < b[n] then -1 else if a[n] > b[n] then 1 else Sign(Value(a[..n]) - Value(b[..n]))
  {
    hide Sign;
    var n := |a| - 1;
    ByteOrder(a[n], b[n]);
    ByteOrder(b[n], a[n]);
    ValueBound(a[..n]);
    ValueBound(b[..n]);
    TopDigitDecides(a[n] as int, b[n] as int, Power256(n), Value(a[..n]), Value(b[..n]));
  }

  lemma {:induction false} TopDigitDecides(x: int, y: int, p: nat, v: nat, w: nat)
    requires v < p && w < p
    ensures Sign((v + x * p) - (w + y * p)) == if x < y then -1 else if x > y then 1 else Sign(v - w)
  {
    if x < y {
      LargerDigit(x, y, p);
    } else if x > y {
      LargerDigit(y, x, p);
    }
  }

  lemma {:induction false} LargerDigit(x: int, y: int, p: nat)
    requires x < y
    ensures x * p + p <= y * p
  {
    var d := y - x - 1;
    assert y * p == (x + 1 + d) * p == x * p + p + d * p;
  }

  /** Only equal hashes compare as equal, so the order agrees with `==`. */
  lemma {:induction false} EqualValues(a: seq<byte>, b: seq<byte>)
    requires |a| == |b|
    ensures Sign(Value(a) - Value(b)) == 0 <==> a == b
  {
    hide Sign, Value;
    SignZero(Value(a) - Value(b));
    if a != [] {
      var n := |a| - 1;
      TopByteDecides(a, b);
      EqualValues(a[..n], b[..n]);
      SignZero(Value(a[..n]) - Value(b[..n]));
      assert a == a[..n] + [a[n]] && b == b[..n] + [b[n]];
    } else {
      assert a == b;
    }
  }

  lemma {:induction false} SignZero(d: int)
    ensures Sign(d) == 0 <==> d == 0
  {
  }
}
