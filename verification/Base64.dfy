/**
 `Base64::encode` and `Base64::decode`, against the base 64 encoding of
 section 4 of RFC 4648 described on strings of bits.
 */
module Base64 {
  import opened Prelude

  // ---------------------------------------------------------------- the alphabet

  /** `chrtbl`: the character of a six-bit value. */
  function Symbol(v: byte): (c: char)
    requires v < 64
  {
    if v < 26 then ('A' as int + v as int) as char
    else if v < 52 then ('a' as int + v as int - 26) as char
    else if v < 62 then ('0' as int + v as int - 52) as char
    else if v == 62 then '+' else '/'
  }

  /** `pr2six`: the value of a character, 64 for all others. */
  function Pr2Six(c: char): (v: byte)
    ensures v <= 64
  {
    if 'A' <= c <= 'Z' then (c as int - 'A' as int) as byte
    else if 'a' <= c <= 'z' then (c as int - 'a' as int + 26) as byte
    else if '0' <= c <= '9' then (c as int - '0' as int + 52) as byte
    else if c == '+' then 62 else if c == '/' then 63 else 64
  }

  lemma {:induction false} UpperRoundTrip(v: byte)
    requires v < 26
    ensures Pr2Six(Symbol(v)) == v
  {
  }

  lemma {:induction false} LowerRoundTrip(v: byte)
    requires 26 <= v < 52
    ensures Pr2Six(Symbol(v)) == v
  {
  }

  lemma {:induction false} DigitRoundTrip(v: byte)
    requires 52 <= v < 64
    ensures Pr2Six(Symbol(v)) == v
  {
  }

  lemma {:induction false} SymbolRoundTrip(v: byte)
    requires v < 64
    ensures Pr2Six(Symbol(v)) == v
  {
    hide Symbol, Pr2Six;
    if v < 26 {
      UpperRoundTrip(v);
    } else if v < 52 {
      LowerRoundTrip(v);
    } else {
      DigitRoundTrip(v);
    }
  }

  lemma {:induction false} UpperOf(c: char)
    requires 'A' <= c <= 'Z'
    ensures Pr2Six(c) < 64 && Symbol(Pr2Six(c)) == c
  {
  }

  lemma {:induction false} LowerOf(c: char)
    requires 'a' <= c <= 'z'
    ensures Pr2Six(c) < 64 && Symbol(Pr2Six(c)) == c
  {
  }

  lemma {:induction false} DigitOf(c: char)
    requires '0' <= c <= '9' || c == '+' || c == '/'
    ensures Pr2Six(c) < 64 && Symbol(Pr2Six(c)) == c
  {
  }

  /** And the other way round: what the table knows is the alphabet, character by character. */
  lemma {:induction false} CharRoundTrip(c: char)
    ensures Pr2Six(c) < 64 <==> exists v: byte :: v < 64 && Symbol(v) == c
    ensures Pr2Six(c) < 64 ==> Symbol(Pr2Six(c)) == c
  {
    hide Symbol, Pr2Six;
    if 'A' <= c <= 'Z' {
      UpperOf(c);
    } else if 'a' <= c <= 'z' {
      LowerOf(c);
    } else if '0' <= c <= '9' || c == '+' || c == '/' {
      DigitOf(c);
    } else {
      NoSymbol(c);
    }
    forall v: byte | v < 64 && Symbol(v) == c ensures Pr2Six(c) < 64 {
      SymbolRoundTrip(v);
    }
  }

  lemma {:induction false} NoSymbol(c: char)
    requires !('A' <= c <= 'Z' || 'a' <= c <= 'z' || '0' <= c <= '9' || c == '+' || c == '/')
    ensures Pr2Six(c) == 64
  {
  }

  /** Table 1 of section 4 of RFC 4648. */
  lemma {:induction false} Alphabet()
    ensures [Symbol(0), Symbol(1), Symbol(2), Symbol(3), Symbol(4), Symbol(5), Symbol(6), Symbol(7),
             Symbol(8), Symbol(9), Symbol(10), Symbol(11), Symbol(12), Symbol(13), Symbol(14), Symbol(15)]
         == "ABCDEFGHIJKLMNOP"
    ensures [Symbol(16), Symbol(17), Symbol(18), Symbol(19), Symbol(20), Symbol(21), Symbol(22), Symbol(23),
             Symbol(24), Symbol(25), Symbol(26), Symbol(27), Symbol(28), Symbol(29), Symbol(30), Symbol(31)]
         == "QRSTUVWXYZabcdef"
    ensures [Symbol(32), Symbol(33), Symbol(34), Symbol(35), Symbol(36), Symbol(37), Symbol(38), Symbol(39),
             Symbol(40), Symbol(41), Symbol(42), Symbol(43), Symbol(44), Symbol(45), Symbol(46), Symbol(47)]
         == "ghijklmnopqrstuv"
    ensures [Symbol(48), Symbol(49), Symbol(50), Symbol(51), Symbol(52), Symbol(53), Symbol(54), Symbol(55),
             Symbol(56), Symbol(57), Symbol(58), Symbol(59), Symbol(60), Symbol(61), Symbol(62), Symbol(63)]
         == "wxyz0123456789+/"
  {
  }

  // ---------------------------------------------------------------- bits

  type bits = seq<bool>

  function BitsOfByte(b: byte): (s: bits)
    ensures |s| == 8
  {
    [b & 0x80 != 0, b & 0x40 != 0, b & 0x20 != 0, b & 0x10 != 0,
     b & 0x08 != 0, b & 0x04 != 0, b & 0x02 != 0, b & 0x01 != 0]
  }

  function Weight(bit: bool, w: byte): byte {
    if bit then w else 0
  }

  function ByteOfBits(s: bits): byte
    requires |s| == 8
  {
    Weight(s[0], 0x80) | Weight(s[1], 0x40) | Weight(s[2], 0x20) | Weight(s[3], 0x10)
    | Weight(s[4], 0x08) | Weight(s[5], 0x04) | Weight(s[6], 0x02) | Weight(s[7], 0x01)
  }

  function SextetOfBits(s: bits): (v: byte)
    requires |s| == 6
    ensures v < 64
  {
    Weight(s[0], 0x20) | Weight(s[1], 0x10) | Weight(s[2], 0x08)
    | Weight(s[3], 0x04) | Weight(s[4], 0x02) | Weight(s[5], 0x01)
  }

  function BitsOfSextet(v: byte): (s: bits)
    ensures |s| == 6
  {
    [v & 0x20 != 0, v & 0x10 != 0, v & 0x08 != 0, v & 0x04 != 0, v & 0x02 != 0, v & 0x01 != 0]
  }

  function Bits(data: seq<byte>): (s: bits)
    ensures |s| == 8 * |data|
  {
    if data == [] then [] else BitsOfByte(data[0]) + Bits(data[1..])
  }

  /** The whole bytes of a bit string; up to seven bits at its end are dropped. */
  function Bytes(s: bits): (data: seq<byte>)
    ensures |data| == |s| / 8
  {
    if |s| < 8 then [] else [ByteOfBits(s[..8])] + Bytes(s[8..])
  }

  /** Bits in groups of six; zero bits complete the last group. */
  function Symbols(s: bits): (text: string)
    ensures |text| == (|s| + 5) / 6
  {
    if s == [] then ""
    else if |s| < 6 then [Symbol(SextetOfBits(s + seq(6 - |s|, i => false)))]
    else [Symbol(SextetOfBits(s[..6]))] + Symbols(s[6..])
  }

  /** What completes the encoding of `n` bytes. */
  function Padding(n: nat): (pad: string)
    ensures |pad| == (3 - n % 3) % 3
    ensures forall i :: 0 <= i < |pad| ==> pad[i] == '='
  {
    if n % 3 == 1 then "==" else if n % 3 == 2 then "=" else ""
  }

  /** The encoding: the symbols, then `=` up to a multiple of four characters. */
  function Encoded(data: seq<byte>): (text: string)
    ensures |text| == (|data| + 2) / 3 * 4
  {
    Symbols(Bits(data)) + Padding(|data|)
  }

  /** Length of the longest prefix of alphabet characters. */
  function PrefixLength(text: string): (k: nat)
    ensures k <= |text|
  {
    if text == "" || Pr2Six(text[0]) > 63 then 0 else 1 + PrefixLength(text[1..])
  }

  function BitsOfText(text: string): (s: bits)
    ensures |s| == 6 * |text|
  {
    if text == "" then [] else BitsOfSextet(Pr2Six(text[0])) + BitsOfText(text[1..])
  }

  /** What any text decodes to: the whole bytes in the bits of its alphabet prefix. */
  function Decoded(text: string): (data: seq<byte>)
    ensures |data| == 3 * PrefixLength(text) / 4
  {
    Bytes(BitsOfText(text[..PrefixLength(text)]))
  }

  // ---------------------------------------------------------------- round trip on bits

  lemma {:induction false} ByteBitsRoundTrip(b: byte)
    ensures ByteOfBits(BitsOfByte(b)) == b
  {
  }

  lemma {:induction false} SextetBitsRoundTrip(s: bits)
    requires |s| == 6
    ensures BitsOfSextet(SextetOfBits(s)) == s
  {
    var v := SextetOfBits(s);
    assert v & 0x20 != 0 <==> s[0];
    assert v & 0x10 != 0 <==> s[1];
    assert v & 0x08 != 0 <==> s[2];
    assert v & 0x04 != 0 <==> s[3];
    assert v & 0x02 != 0 <==> s[4];
    assert v & 0x01 != 0 <==> s[5];
  }

  lemma {:induction false} BytesOfBitsOfBytes(data: seq<byte>, more: bits)
    requires |more| < 8
    ensures Bytes(Bits(data) + more) == data
  {
    hide ByteOfBits, BitsOfByte;
    if data == [] {
      assert Bits(data) + more == more;
    } else {
      var b, rest := BitsOfByte(data[0]), Bits(data[1..]) + more;
      assert Bits(data) + more == b + rest;
      assert (b + rest)[..8] == b && (b + rest)[8..] == rest;
      ByteBitsRoundTrip(data[0]);
      BytesOfBitsOfBytes(data[1..], more);
      assert data == [data[0]] + data[1..];
    }
  }

  /** The bits of the symbols are the bits encoded, with the zeros that completed the last group. */
  lemma {:induction false} BitsOfSymbols(s: bits) returns (more: bits)
    ensures |more| < 6 && BitsOfText(Symbols(s)) == s + more
    ensures forall i :: 0 <= i < |more| ==> !more[i]
    ensures PrefixLength(Symbols(s)) == |Symbols(s)|
    decreases |s|
  {
    hide Symbol, Pr2Six, SextetOfBits, BitsOfSextet, BitsOfText, PrefixLength;
    if s == [] {
      more := [];
      NoText();
    } else if |s| < 6 {
      more := seq(6 - |s|, i => false);
      var c := Symbol(SextetOfBits(s + more));
      OneSymbol(s + more);
      NoText();
      SymbolBefore(c, "");
      assert [c] + "" == Symbols(s);
      assert (s + more) + [] == s + more;
    } else {
      more := BitsOfSymbols(s[6..]);
      var c := Symbol(SextetOfBits(s[..6]));
      OneSymbol(s[..6]);
      SymbolBefore(c, Symbols(s[6..]));
      assert s[..6] + (s[6..] + more) == s + more;
    }
  }

  lemma {:induction false} NoText()
    ensures BitsOfText("") == [] && PrefixLength("") == 0
  {
  }

  lemma {:induction false} SymbolBefore(c: char, text: string)
    requires Pr2Six(c) <= 63
    ensures BitsOfText([c] + text) == BitsOfSextet(Pr2Six(c)) + BitsOfText(text)
    ensures PrefixLength([c] + text) == 1 + PrefixLength(text)
  {
    hide Pr2Six, BitsOfSextet;
    assert ([c] + text)[1..] == text;
  }

  lemma {:induction false} OneSymbol(s: bits)
    requires |s| == 6
    ensures BitsOfSextet(Pr2Six(Symbol(SextetOfBits(s)))) == s
    ensures Pr2Six(Symbol(SextetOfBits(s))) <= 63
  {
    hide Symbol, Pr2Six, SextetOfBits, BitsOfSextet;
    SymbolRoundTrip(SextetOfBits(s));
    SextetBitsRoundTrip(s);
  }

  lemma {:induction false} PrefixStops(text: string, pad: string)
    requires PrefixLength(text) == |text|
    requires pad == "" || Pr2Six(pad[0]) > 63
    ensures PrefixLength(text + pad) == |text| && (text + pad)[..|text|] == text
  {
    if text == "" {
      assert text + pad == pad;
    } else {
      assert (text + pad)[1..] == text[1..] + pad;
      PrefixStops(text[1..], pad);
    }
  }

  /** Decoding an encoding gives the data back. */
  lemma {:induction false} DecodeEncode(data: seq<byte>)
    ensures Decoded(Encoded(data)) == data
  {
    hide Bytes, Bits, Symbols, BitsOfText, PrefixLength;
    var text, pad := Symbols(Bits(data)), Padding(|data|);
    var more := BitsOfSymbols(Bits(data));
    PrefixStops(text, pad);
    BytesOfBitsOfBytes(data, more);
  }

  lemma {:induction false} HighBits(s: bits)
    requires |s| == 8
    ensures ByteOfBits(s) & 0x80 != 0 <==> s[0]
    ensures ByteOfBits(s) & 0x40 != 0 <==> s[1]
    ensures ByteOfBits(s) & 0x20 != 0 <==> s[2]
    ensures ByteOfBits(s) & 0x10 != 0 <==> s[3]
  {
  }

  lemma {:induction false} LowBits(s: bits)
    requires |s| == 8
    ensures ByteOfBits(s) & 0x08 != 0 <==> s[4]
    ensures ByteOfBits(s) & 0x04 != 0 <==> s[5]
    ensures ByteOfBits(s) & 0x02 != 0 <==> s[6]
    ensures ByteOfBits(s) & 0x01 != 0 <==> s[7]
  {
  }

  lemma {:induction false} BitsByteRoundTrip(s: bits)
    requires |s| == 8
    ensures BitsOfByte(ByteOfBits(s)) == s
  {
    hide ByteOfBits;
    HighBits(s);
    LowBits(s);
  }

  lemma {:induction false} BitsOfBytes(s: bits)
    ensures Bits(Bytes(s)) == s[..|s| - |s| % 8]
    decreases |s|
  {
    hide ByteOfBits, BitsOfByte;
    if |s| >= 8 {
      BitsByteRoundTrip(s[..8]);
      BitsOfBytes(s[8..]);
      assert Bytes(s)[1..] == Bytes(s[8..]);
      assert s[..8] + s[8..][..|s[8..]| - |s[8..]| % 8] == s[..|s| - |s| % 8];
    }
  }

  /** What any text decodes to holds the bits of its alphabet prefix, without the last ones that make no byte. */
  lemma {:induction false} DecodedBits(text: string) returns (dropped: bits)
    ensures |dropped| < 8
    ensures Bits(Decoded(text)) + dropped == BitsOfText(text[..PrefixLength(text)])
  {
    hide Bytes, Bits, BitsOfText, PrefixLength;
    var s := BitsOfText(text[..PrefixLength(text)]);
    BitsOfBytes(s);
    dropped := s[|s| - |s| % 8..];
  }

  lemma {:induction false} BitsSextetRoundTrip(v: byte)
    requires v < 64
    ensures SextetOfBits(BitsOfSextet(v)) == v
  {
  }

  /** Alphabet characters are the characters of their own bits. */
  lemma {:induction false} SymbolsOfText(text: string)
    requires PrefixLength(text) == |text|
    ensures Symbols(BitsOfText(text)) == text
  {
    hide Symbol, Pr2Six, SextetOfBits, BitsOfSextet;
    if text != "" {
      var v := Pr2Six(text[0]);
      CharRoundTrip(text[0]);
      BitsSextetRoundTrip(v);
      SymbolsOfText(text[1..]);
      SymbolsCons(BitsOfSextet(v), BitsOfText(text[1..]));
      assert text == [text[0]] + text[1..];
    }
  }

  lemma {:induction false} FourCharacters(n: nat)
    requires n % 4 == 0
    ensures (6 * n) % 8 == 0 && (3 * n / 4) % 3 == 0
  {
    var k := n / 4;
    assert 6 * n == 8 * (3 * k) && 3 * n == 4 * (3 * k);
  }

  /** The other way round: whole groups of alphabet characters are the encoding of what they decode to. */
  lemma {:induction false} EncodeDecode(text: string)
    requires PrefixLength(text) == |text| && |text| % 4 == 0
    ensures Encoded(Decoded(text)) == text
  {
    hide Bytes, Bits, Symbols, BitsOfText, PrefixLength;
    assert text[..|text|] == text;
    var data := Decoded(text);
    FourCharacters(|text|);
    var s := BitsOfText(text);
    BitsOfBytes(s);
    assert s[..|s|] == s;
    SymbolsOfText(text);
    assert |data| % 3 == 0;
    assert text + "" == text;
  }

  // ---------------------------------------------------------------- encode

  lemma {:induction false} BitsAppend(x: seq<byte>, y: seq<byte>)
    ensures Bits(x + y) == Bits(x) + Bits(y)
  {
    hide BitsOfByte;
    if x == [] {
      assert x + y == y;
    } else {
      assert (x + y)[1..] == x[1..] + y;
      BitsAppend(x[1..], y);
    }
  }

  lemma {:induction false} SymbolsAppend(s: bits, t: bits)
    requires |s| % 6 == 0
    ensures Symbols(s + t) == Symbols(s) + Symbols(t)
  {
    hide Symbol, SextetOfBits;
    if s == [] {
      assert s + t == t;
    } else {
      assert (s + t)[..6] == s[..6] && (s + t)[6..] == s[6..] + t;
      SymbolsAppend(s[6..], t);
    }
  }

  lemma {:induction false} FirstSextet(b0: byte)
    ensures SextetOfBits(BitsOfByte(b0)[..6]) == (b0 >> 2) & 0x3f
  {
  }

  lemma {:induction false} SecondSextet(b0: byte, b1: byte)
    ensures SextetOfBits(BitsOfByte(b0)[6..] + BitsOfByte(b1)[..4]) == ((b0 & 0x3) << 4) | ((b1 & 0xf0) >> 4)
  {
  }

  lemma {:induction false} ThirdSextet(b1: byte, b2: byte)
    ensures SextetOfBits(BitsOfByte(b1)[4..] + BitsOfByte(b2)[..2]) == ((b1 & 0xf) << 2) | ((b2 & 0xc0) >> 6)
  {
  }

  lemma {:induction false} FourthSextet(b2: byte)
    ensures SextetOfBits(BitsOfByte(b2)[2..]) == b2 & 0x3f
  {
  }

  /** The four values the loop makes of three bytes. */
  function Sextet0(b0: byte): (v: byte)
    ensures v < 64
  {
    (b0 >> 2) & 0x3f
  }

  function Sextet1(b0: byte, b1: byte): (v: byte)
    ensures v < 64
  {
    ((b0 & 0x3) << 4) | ((b1 & 0xf0) >> 4)
  }

  function Sextet2(b1: byte, b2: byte): (v: byte)
    ensures v < 64
  {
    ((b1 & 0xf) << 2) | ((b2 & 0xc0) >> 6)
  }

  function Sextet3(b2: byte): (v: byte)
    ensures v < 64
  {
    b2 & 0x3f
  }

  function ThreeBytes(b0: byte, b1: byte, b2: byte): string {
    [Symbol(Sextet0(b0)), Symbol(Sextet1(b0, b1)), Symbol(Sextet2(b1, b2)), Symbol(Sextet3(b2))]
  }

  lemma {:induction false} SymbolsOfThree(b0: byte, b1: byte, b2: byte)
    ensures Symbols(Bits([b0, b1, b2])) == ThreeBytes(b0, b1, b2)
  {
    hide Symbol, SextetOfBits, BitsOfByte;
    var x, y, z := BitsOfByte(b0), BitsOfByte(b1), BitsOfByte(b2);
    BitsOfThree(b0, b1, b2);
    FirstSextet(b0);
    SecondSextet(b0, b1);
    ThirdSextet(b1, b2);
    FourthSextet(b2);
    var s := x[..6] + ((x[6..] + y[..4]) + ((y[4..] + z[..2]) + z[2..]));
    assert x + y + z == s;
    SymbolsCons(x[..6], (x[6..] + y[..4]) + ((y[4..] + z[..2]) + z[2..]));
    SymbolsCons(x[6..] + y[..4], (y[4..] + z[..2]) + z[2..]);
    SymbolsCons(y[4..] + z[..2], z[2..]);
    assert z[2..] == z[2..] + [];
    SymbolsCons(z[2..], []);
  }

  lemma {:induction false} BitsOfThree(b0: byte, b1: byte, b2: byte)
    ensures Bits([b0, b1, b2]) == BitsOfByte(b0) + BitsOfByte(b1) + BitsOfByte(b2)
  {
    hide BitsOfByte;
    assert [b0, b1, b2][1..] == [b1, b2] && [b1, b2][1..] == [b2] && [b2][1..] == [];
    assert Bits([b2]) == BitsOfByte(b2) + [];
    assert Bits([b1, b2]) == BitsOfByte(b1) + BitsOfByte(b2);
  }

  lemma {:induction false} SymbolsCons(s: bits, t: bits)
    requires |s| == 6
    ensures Symbols(s + t) == [Symbol(SextetOfBits(s))] + Symbols(t)
  {
    hide Symbol, SextetOfBits;
    assert (s + t)[..6] == s && (s + t)[6..] == t;
  }

  lemma {:induction false} LastOfOne(b0: byte)
    ensures (b0 & 0x3) << 4 < 64
    ensures SextetOfBits(BitsOfByte(b0)[6..] + [false, false, false, false]) == (b0 & 0x3) << 4
  {
  }

  lemma {:induction false} LastOfTwo(b1: byte)
    ensures (b1 & 0xf) << 2 < 64
    ensures SextetOfBits(BitsOfByte(b1)[4..] + [false, false]) == (b1 & 0xf) << 2
  {
  }

  function LastSextet1(b0: byte): (v: byte)
    ensures v < 64
  {
    (b0 & 0x3) << 4
  }

  function LastSextet2(b1: byte): (v: byte)
    ensures v < 64
  {
    (b1 & 0xf) << 2
  }

  lemma {:induction false} SymbolsEnd(s: bits, zeros: bits)
    requires 0 < |s| < 6 && zeros == seq(6 - |s|, i => false)
    ensures Symbols(s) == [Symbol(SextetOfBits(s + zeros))]
  {
    hide Symbol, SextetOfBits;
  }

  lemma {:induction false} SymbolsOfOne(b0: byte)
    ensures Symbols(Bits([b0])) == [Symbol(Sextet0(b0)), Symbol(LastSextet1(b0))]
  {
    hide Symbol, SextetOfBits, BitsOfByte;
    var x := BitsOfByte(b0);
    assert [b0][1..] == [] && Bits([b0]) == x + [];
    assert x == x[..6] + x[6..] && x + [] == x;
    SymbolsCons(x[..6], x[6..]);
    SymbolsEnd(x[6..], [false, false, false, false]);
    FirstSextet(b0);
    LastOfOne(b0);
  }

  lemma {:induction false} SymbolsOfTwo(b0: byte, b1: byte)
    ensures Symbols(Bits([b0, b1])) == [Symbol(Sextet0(b0)), Symbol(Sextet1(b0, b1)), Symbol(LastSextet2(b1))]
  {
    hide Symbol, SextetOfBits, BitsOfByte;
    var x, y := BitsOfByte(b0), BitsOfByte(b1);
    assert [b0, b1][1..] == [b1] && [b1][1..] == [];
    assert Bits([b1]) == y + [] == y;
    var s := x[..6] + ((x[6..] + y[..4]) + y[4..]);
    assert Bits([b0, b1]) == x + y == s;
    SymbolsCons(x[..6], (x[6..] + y[..4]) + y[4..]);
    SymbolsCons(x[6..] + y[..4], y[4..]);
    SymbolsEnd(y[4..], [false, false]);
    FirstSextet(b0);
    SecondSextet(b0, b1);
    LastOfTwo(b1);
  }

  /** Examples of section 10 of RFC 4648. */
  lemma {:induction false} Rfc4648Examples()
    ensures Encoded([]) == ""
    ensures Encoded([0x66]) == "Zg=="
    ensures Encoded([0x66, 0x6f]) == "Zm8="
    ensures Encoded([0x66, 0x6f, 0x6f]) == "Zm9v"
  {
    hide Symbols, Bits;
    NoSymbols();
    SymbolsOfOne(0x66);
    SymbolsOfTwo(0x66, 0x6f);
    SymbolsOfThree(0x66, 0x6f, 0x6f);
  }

  lemma {:induction false} WholeGroups(n: nat)
    requires n % 3 == 0
    ensures (8 * n) % 6 == 0
  {
    var k := n / 3;
    assert 8 * n == 6 * (4 * k);
  }

  lemma {:induction false} SymbolsOfAppend(x: seq<byte>, y: seq<byte>)
    requires |x| % 3 == 0
    ensures Symbols(Bits(x + y)) == Symbols(Bits(x)) + Symbols(Bits(y))
  {
    hide Symbols, Bits;
    BitsAppend(x, y);
    WholeGroups(|x|);
    SymbolsAppend(Bits(x), Bits(y));
  }

  lemma {:induction false} SymbolsSplit(data: seq<byte>, i: nat)
    requires i <= |data| && i % 3 == 0
    ensures Symbols(Bits(data)) == Symbols(Bits(data[..i])) + Symbols(Bits(data[i..]))
  {
    hide Symbols, Bits;
    SymbolsOfAppend(data[..i], data[i..]);
    assert data[..i] + data[i..] == data;
  }

  /**
   Appends the encoding of `data`.  The size is compared as `len - 2` on an
   unsigned type, so the caller passes at least two bytes; `&` removes what a
   signed `char` adds when it is widened.
   */
  method Encode(data: seq<byte>, out0: string) returns (out: string)
    requires |data| >= 2
    ensures out == out0 + Encoded(data)
  {
    hide Symbol, Bits, Symbols, Padding, Sextet0, Sextet1, Sextet2, Sextet3, LastSextet1, LastSextet2;
    out := out0;
    var len := |data|;
    var i := 0;
    NoSymbols();
    assert data[..0] == [];
    while i < len - 2
      invariant 0 <= i <= len && i % 3 == 0
      invariant out == out0 + Symbols(Bits(data[..i]))
    {
      SymbolsSplit(data[..i + 3], i);
      assert data[..i + 3][..i] == data[..i];
      assert data[..i + 3][i..] == [data[i], data[i + 1], data[i + 2]];
      SymbolsOfThree(data[i], data[i + 1], data[i + 2]);
      out := out + [Symbol(Sextet0(data[i]))];
      out := out + [Symbol(Sextet1(data[i], data[i + 1]))];
      out := out + [Symbol(Sextet2(data[i + 1], data[i + 2]))];
      out := out + [Symbol(Sextet3(data[i + 2]))];
      i := i + 3;
    }
    SymbolsSplit(data, i);
    out := EncodeRest(data, i, out);
    Regroup(out0, Symbols(Bits(data[..i])), Symbols(Bits(data[i..])), Padding(len));
  }

  /** The part after the loop: at most two bytes are left. */
  method EncodeRest(data: seq<byte>, i: nat, out0: string) returns (out: string)
    requires i <= |data| <= i + 2 && i % 3 == 0
    ensures out == out0 + (Symbols(Bits(data[i..])) + Padding(|data|))
  {
    hide Symbol, Bits, Symbols, Sextet0, Sextet1, LastSextet1, LastSextet2;
    out := out0;
    var len := |data|;
    if i < len {
      out := out + [Symbol(Sextet0(data[i]))];
      if i == len - 1 {
        assert data[i..] == [data[i]];
        SymbolsOfOne(data[i]);
        out := out + [Symbol(LastSextet1(data[i]))];
        out := out + "=";
      } else {
        assert data[i..] == [data[i], data[i + 1]];
        SymbolsOfTwo(data[i], data[i + 1]);
        out := out + [Symbol(Sextet1(data[i], data[i + 1]))];
        out := out + [Symbol(LastSextet2(data[i + 1]))];
      }
      out := out + "=";
    } else {
      NoSymbols();
      assert data[i..] == [];
    }
  }

  lemma {:induction false} Regroup(a: string, b: string, c: string, d: string)
    ensures (a + b) + (c + d) == a + ((b + c) + d)
  {
  }

  lemma {:induction false} NoSymbols()
    ensures Symbols(Bits([])) == ""
  {
  }

  // ---------------------------------------------------------------- decode

  lemma {:induction false} BitsOfTextAppend(s: string, t: string)
    ensures BitsOfText(s + t) == BitsOfText(s) + BitsOfText(t)
  {
    hide BitsOfSextet, Pr2Six;
    if s == "" {
      assert s + t == t;
    } else {
      assert (s + t)[1..] == s[1..] + t;
      BitsOfTextAppend(s[1..], t);
    }
  }

  /** The three bytes the loop makes of four values below 64. */
  function Byte0(v0: byte, v1: byte): byte { (v0 << 2) | (v1 >> 4) }

  function Byte1(v1: byte, v2: byte): byte { (v1 << 4) | (v2 >> 2) }

  function Byte2(v2: byte, v3: byte): byte { (v2 << 6) | v3 }

  lemma {:induction false} FirstByte(v0: byte, v1: byte)
    requires v0 < 64 && v1 < 64
    ensures ByteOfBits(BitsOfSextet(v0) + BitsOfSextet(v1)[..2]) == Byte0(v0, v1)
  {
  }

  lemma {:induction false} SecondByte(v1: byte, v2: byte)
    requires v1 < 64 && v2 < 64
    ensures ByteOfBits(BitsOfSextet(v1)[2..] + BitsOfSextet(v2)[..4]) == Byte1(v1, v2)
  {
  }

  lemma {:induction false} ThirdByte(v2: byte, v3: byte)
    requires v2 < 64 && v3 < 64
    ensures ByteOfBits(BitsOfSextet(v2)[4..] + BitsOfSextet(v3)) == Byte2(v2, v3)
  {
  }

  lemma {:induction false} BytesCons(s: bits, t: bits)
    requires |s| == 8
    ensures Bytes(s + t) == [ByteOfBits(s)] + Bytes(t)
  {
    hide ByteOfBits;
    assert (s + t)[..8] == s && (s + t)[8..] == t;
  }

  lemma {:induction false} BytesOfFew(s: bits)
    requires |s| < 8
    ensures Bytes(s) == []
  {
  }

  /** The bytes in the bits of two, three or four values, followed by more bits. */
  lemma {:induction false} BytesOfFour(v0: byte, v1: byte, v2: byte, v3: byte, more: bits)
    requires v0 < 64 && v1 < 64 && v2 < 64 && v3 < 64
    ensures Bytes(BitsOfSextet(v0) + BitsOfSextet(v1) + BitsOfSextet(v2) + BitsOfSextet(v3) + more)
         == [Byte0(v0, v1), Byte1(v1, v2), Byte2(v2, v3)] + Bytes(more)
    ensures Bytes(BitsOfSextet(v0) + BitsOfSextet(v1) + BitsOfSextet(v2)) == [Byte0(v0, v1), Byte1(v1, v2)]
    ensures Bytes(BitsOfSextet(v0) + BitsOfSextet(v1)) == [Byte0(v0, v1)]
  {
    hide ByteOfBits, BitsOfSextet, Bytes, Byte0, Byte1, Byte2;
    var w, x, y, z := BitsOfSextet(v0), BitsOfSextet(v1), BitsOfSextet(v2), BitsOfSextet(v3);
    FirstByte(v0, v1);
    SecondByte(v1, v2);
    ThirdByte(v2, v3);
    var a, b, c := w + x[..2], x[2..] + y[..4], y[4..] + z;
    assert w + x + y + z + more == a + (b + (c + more));
    BytesCons(a, b + (c + more));
    BytesCons(b, c + more);
    BytesCons(c, more);
    assert w + x + y == a + (b + y[4..]);
    BytesCons(a, b + y[4..]);
    BytesCons(b, y[4..]);
    BytesOfFew(y[4..]);
    assert w + x == a + x[2..];
    BytesCons(a, x[2..]);
    BytesOfFew(x[2..]);
  }

  /** Counts the alphabet characters at the front; the scan stops at the latest at the closing NUL. */
  method ScanPrefix(text: string) returns (nprbytes: nat)
    ensures nprbytes == PrefixLength(text)
  {
    hide Pr2Six;
    nprbytes := 0;
    assert text[0..] == text;
    while nprbytes < |text| && Pr2Six(text[nprbytes]) <= 63
      invariant nprbytes <= |text|
      invariant PrefixLength(text) == nprbytes + PrefixLength(text[nprbytes..])
    {
      assert text[nprbytes..][1..] == text[nprbytes + 1..];
      nprbytes := nprbytes + 1;
    }
  }

  predicate InAlphabet(text: string) {
    forall i :: 0 <= i < |text| ==> Pr2Six(text[i]) < 64
  }

  lemma {:induction false} PrefixInAlphabet(text: string)
    ensures InAlphabet(text[..PrefixLength(text)])
  {
    hide Pr2Six;
    if PrefixLength(text) > 0 {
      PrefixInAlphabet(text[1..]);
      assert text[..PrefixLength(text)] == [text[0]] + text[1..][..PrefixLength(text[1..])];
    }
  }

  function TextBytes(text: string): seq<byte> {
    Bytes(BitsOfText(text))
  }

  lemma {:induction false} BitsOfTwo(text: string)
    requires |text| >= 2
    ensures BitsOfText(text)
         == BitsOfSextet(Pr2Six(text[0])) + BitsOfSextet(Pr2Six(text[1])) + BitsOfText(text[2..])
  {
    hide BitsOfSextet, Pr2Six;
    assert text[1..][1..] == text[2..];
  }

  lemma {:induction false} NextFour(text: string)
    requires |text| >= 4 && InAlphabet(text)
    ensures TextBytes(text)
         == [Byte0(Pr2Six(text[0]), Pr2Six(text[1])), Byte1(Pr2Six(text[1]), Pr2Six(text[2])),
             Byte2(Pr2Six(text[2]), Pr2Six(text[3]))] + TextBytes(text[4..])
  {
    hide BitsOfSextet, Pr2Six, Bytes, BitsOfText, Byte0, Byte1, Byte2;
    BitsOfTwo(text);
    BitsOfTwo(text[2..]);
    assert text[2..][2..] == text[4..];
    var v0, v1, v2, v3 := Pr2Six(text[0]), Pr2Six(text[1]), Pr2Six(text[2]), Pr2Six(text[3]);
    BytesOfFour(v0, v1, v2, v3, BitsOfText(text[4..]));
    RegroupBits(BitsOfSextet(v0), BitsOfSextet(v1), BitsOfSextet(v2), BitsOfSextet(v3), BitsOfText(text[4..]));
  }

  lemma {:induction false} RegroupBits(a: bits, b: bits, c: bits, d: bits, e: bits)
    ensures (a + b) + (c + d + e) == a + b + c + d + e
  {
  }

  /** The last one to four characters; a single one is ignored. */
  lemma {:induction false} LastFew(text: string)
    requires |text| <= 4 && InAlphabet(text)
    ensures |text| <= 1 ==> TextBytes(text) == []
    ensures |text| == 2 ==> TextBytes(text) == [Byte0(Pr2Six(text[0]), Pr2Six(text[1]))]
    ensures |text| == 3 ==>
              TextBytes(text) == [Byte0(Pr2Six(text[0]), Pr2Six(text[1])), Byte1(Pr2Six(text[1]), Pr2Six(text[2]))]
    ensures |text| == 4 ==>
              TextBytes(text) == [Byte0(Pr2Six(text[0]), Pr2Six(text[1])), Byte1(Pr2Six(text[1]), Pr2Six(text[2])),
                                  Byte2(Pr2Six(text[2]), Pr2Six(text[3]))]
  {
    hide BitsOfSextet, Pr2Six, Bytes, Byte0, Byte1, Byte2;
    if |text| <= 1 {
      BytesOfFew(BitsOfText(text));
    } else if |text| == 4 {
      NextFour(text);
      assert text[4..] == "";
      BytesOfFew([]);
    } else {
      LastTwoOrThree(text);
    }
  }

  lemma {:induction false} LastTwoOrThree(text: string)
    requires 2 <= |text| <= 3 && InAlphabet(text)
    ensures |text| == 2 ==> TextBytes(text) == [Byte0(Pr2Six(text[0]), Pr2Six(text[1]))]
    ensures |text| == 3 ==>
              TextBytes(text) == [Byte0(Pr2Six(text[0]), Pr2Six(text[1])), Byte1(Pr2Six(text[1]), Pr2Six(text[2]))]
  {
    hide BitsOfSextet, Pr2Six, Bytes, Byte0, Byte1, Byte2;
    BitsOfTwo(text);
    var v0, v1 := Pr2Six(text[0]), Pr2Six(text[1]);
    var v2 := if |text| == 3 then Pr2Six(text[2]) else 0;
    BytesOfFour(v0, v1, v2, 0, []);
    var rest := text[2..];
    if |text| == 2 {
      assert BitsOfText(rest) == [];
      assert BitsOfSextet(v0) + BitsOfSextet(v1) + [] == BitsOfSextet(v0) + BitsOfSextet(v1);
    } else {
      assert rest[1..] == "" && rest[0] == text[2];
      assert BitsOfText(rest) == BitsOfSextet(v2) + [] == BitsOfSextet(v2);
    }
  }

  /** Appends what the text decodes to. */
  method Decode(text: string, out0: seq<byte>) returns (out: seq<byte>)
    ensures out == out0 + Decoded(text)
  {
    hide Pr2Six, TextBytes, PrefixLength, Byte0, Byte1, Byte2, InAlphabet;
    var nprbytes := ScanPrefix(text);
    PrefixInAlphabet(text);
    ghost var size, rest := nprbytes, text[..nprbytes];
    ghost var whole := TextBytes(rest);
    out := out0;
    var bufin := 0;
    while nprbytes > 4
      invariant 0 <= nprbytes && bufin + nprbytes == size <= |text|
      invariant rest == text[bufin..size] && InAlphabet(rest)
      invariant out + TextBytes(rest) == out0 + whole
      decreases nprbytes
    {
      NextFour(rest);
      RestInAlphabet(rest);
      var c0, c1, c2, c3 := text[bufin], text[bufin + 1], text[bufin + 2], text[bufin + 3];
      ghost var three := [Byte0(Pr2Six(c0), Pr2Six(c1)), Byte1(Pr2Six(c1), Pr2Six(c2)), Byte2(Pr2Six(c2), Pr2Six(c3))];
      AppendThree(out, three[0], three[1], three[2], TextBytes(rest[4..]));
      out := out + [Byte0(Pr2Six(c0), Pr2Six(c1))];
      out := out + [Byte1(Pr2Six(c1), Pr2Six(c2))];
      out := out + [Byte2(Pr2Six(c2), Pr2Six(c3))];
      bufin := bufin + 4;
      nprbytes := nprbytes - 4;
      rest := rest[4..];
    }
    LastFew(rest);
    ghost var before := out;
    if nprbytes > 1 {
      out := out + [Byte0(Pr2Six(text[bufin]), Pr2Six(text[bufin + 1]))];
    }
    if nprbytes > 2 {
      out := out + [Byte1(Pr2Six(text[bufin + 1]), Pr2Six(text[bufin + 2]))];
    }
    if nprbytes > 3 {
      out := out + [Byte2(Pr2Six(text[bufin + 2]), Pr2Six(text[bufin + 3]))];
    }
    assert out == before + TextBytes(rest);
    DecodedIs(text);
  }

  lemma {:induction false} DecodedIs(text: string)
    ensures Decoded(text) == TextBytes(text[..PrefixLength(text)])
  {
  }

  lemma {:induction false} RestInAlphabet(text: string)
    requires |text| >= 4 && InAlphabet(text)
    ensures InAlphabet(text[4..])
  {
  }

  lemma {:induction false} AppendThree(out: seq<byte>, a: byte, b: byte, c: byte, rest: seq<byte>)
    ensures out + ([a, b, c] + rest) == out + [a] + [b] + [c] + rest
  {
  }
}
