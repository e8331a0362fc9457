/**
 The SHA-1 algorithm of FIPS 180-4 (sections 4.1.1, 4.2.1, 5.1.1, 5.2.1,
 5.3.1 and 6.1.2) for messages of whole bytes.
 */
module Sha1Spec {
  import opened Prelude

  type word = bv32

  /** The five working variables, and the five words of a hash value. */
  datatype Vars = Vars(a: word, b: word, c: word, d: word, e: word)

  // ---------------------------------------------------------------- functions and constants

  function Rotl1(x: word): word { x.RotateLeft(1) }

  function Rotl5(x: word): word { x.RotateLeft(5) }

  function Rotl30(x: word): word { x.RotateLeft(30) }

  function Ch(x: word, y: word, z: word): word { (x & y) ^ (!x & z) }

  function Parity(x: word, y: word, z: word): word { x ^ y ^ z }

  function Maj(x: word, y: word, z: word): word { (x & y) ^ (x & z) ^ (y & z) }

  function F(t: nat, x: word, y: word, z: word): word {
    if t < 20 then Ch(x, y, z)
    else if t < 40 then Parity(x, y, z)
    else if t < 60 then Maj(x, y, z)
    else Parity(x, y, z)
  }

  function K(t: nat): word {
    if t < 20 then 0x5a827999
    else if t < 40 then 0x6ed9eba1
    else if t < 60 then 0x8f1bbcdc
    else 0xca62c1d6
  }

  const H0: Vars := Vars(0x67452301, 0xefcdab89, 0x98badcfe, 0x10325476, 0xc3d2e1f0)

  // ---------------------------------------------------------------- one block

  function Xor4(p: word, q: word, r: word, s: word): word { p ^ q ^ r ^ s }

  function NextWord(w: seq<word>, t: nat): word
    requires 16 <= t <= |w|
  {
    Rotl1(Xor4(w[t - 3], w[t - 8], w[t - 14], w[t - 16]))
  }

  /** The first `n` words of the message schedule. */
  function Schedule(block: seq<word>, n: nat): (w: seq<word>)
    requires |block| == 16
    ensures |w| == n
  {
    if n <= 16 then block[..n]
    else
      var w := Schedule(block, n - 1);
      w + [NextWord(w, n - 1)]
  }

  /** The sum of five words, modulo 2^32. */
  function Sum(p: word, q: word, r: word, s: word, t: word): word {
    p + q + r + s + t
  }

  function Round(v: Vars, t: nat, wt: word): Vars {
    Vars(Sum(Rotl5(v.a), F(t, v.b, v.c, v.d), v.e, K(t), wt), v.a, Rotl30(v.b), v.c, v.d)
  }

  /** The working variables after `n` rounds. */
  function Rounds(v: Vars, block: seq<word>, n: nat): Vars
    requires |block| == 16
  {
    if n == 0 then v
    else Round(Rounds(v, block, n - 1), n - 1, Schedule(block, n)[n - 1])
  }

  /** Addition modulo 2^32. */
  function Plus(x: word, y: word): word { x + y }

  function Add(h: Vars, v: Vars): Vars {
    Vars(Plus(h.a, v.a), Plus(h.b, v.b), Plus(h.c, v.c), Plus(h.d, v.d), Plus(h.e, v.e))
  }

  function Compress(h: Vars, block: seq<word>): Vars
    requires |block| == 16
  {
    Add(h, Rounds(h, block, 80))
  }

  /** All blocks of 16 words, in order. */
  function HashBlocks(h: Vars, words: seq<word>): Vars
    decreases |words|
  {
    if |words| < 16 then h else HashBlocks(Compress(h, words[..16]), words[16..])
  }

  // ---------------------------------------------------------------- padding and parsing

  /** Four bytes, most significant first. */
  function Word(b0: byte, b1: byte, b2: byte, b3: byte): word {
    (b0 as word << 24) | (b1 as word << 16) | (b2 as word << 8) | b3 as word
  }

  function WordsOf(bytes: seq<byte>): (ws: seq<word>)
    requires |bytes| % 4 == 0
    ensures |ws| == |bytes| / 4
  {
    if bytes == [] then []
    else [Word(bytes[0], bytes[1], bytes[2], bytes[3])] + WordsOf(bytes[4..])
  }

  function Zeros(n: nat): (z: seq<byte>)
    ensures |z| == n && forall i :: 0 <= i < n ==> z[i] == 0
  {
    seq(n, i => 0)
  }

  function ZeroWords(n: nat): (z: seq<word>)
    ensures |z| == n && forall i :: 0 <= i < n ==> z[i] == 0
  {
    seq(n, i => 0)
  }

  const TWO_TO_THE_32: nat := 0x1_0000_0000

  /** Messages of this many bytes have bit lengths beyond 64 bits. */
  const MAX_MESSAGE: nat := 0x2000_0000_0000_0000

  /** The 64-bit block that holds a bit length, as two words. */
  function LengthWords(bits: nat): (ws: seq<word>)
    requires bits < 8 * MAX_MESSAGE
    ensures |ws| == 2
  {
    [(bits / TWO_TO_THE_32) as word, (bits % TWO_TO_THE_32) as word]
  }

  /** The message, a one bit, and zero bits up to 448 modulo 512. */
  function Extended(message: seq<byte>): (bytes: seq<byte>)
    ensures |bytes| % 64 == 56
  {
    message + [0x80] + Zeros((55 - |message|) % 64)
  }

  /** The fewest zero bits that end there. */
  lemma {:induction false} PaddingForm(message: seq<byte>) returns (zeros: nat)
    ensures zeros < 64 && (|message| + 1 + zeros) % 64 == 56
    ensures Extended(message) == message + [0x80] + seq(zeros, i => 0)
  {
    zeros := (55 - |message|) % 64;
  }

  function PaddedWords(message: seq<byte>): seq<word>
    requires |message| < MAX_MESSAGE
  {
    WordsOf(Extended(message)) + LengthWords(8 * |message|)
  }

  // ---------------------------------------------------------------- digest

  /** The byte that lies `s` bits from the low end of a word. */
  function Shifted(w: word, s: nat): byte
    requires s < 32
  {
    ((w >> s) & 0xff) as byte
  }

  function BytesOf(w: word): (bytes: seq<byte>)
    ensures |bytes| == 4
  {
    [Shifted(w, 24), Shifted(w, 16), Shifted(w, 8), Shifted(w, 0)]
  }

  function Digest(h: Vars): (bytes: seq<byte>)
    ensures |bytes| == 20
  {
    BytesOf(h.a) + BytesOf(h.b) + BytesOf(h.c) + BytesOf(h.d) + BytesOf(h.e)
  }

  function Sha1(message: seq<byte>): (bytes: seq<byte>)
    requires |message| < MAX_MESSAGE
    ensures |bytes| == 20
  {
    Digest(HashBlocks(H0, PaddedWords(message)))
  }
}
