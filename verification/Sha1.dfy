/** `SHA1::compute`: rounds and padding in place, over two reused arrays of words. */
module Sha1 {
  import opened Prelude
  import opened Sha1Spec

  // ---------------------------------------------------------------- the rounds

  function Rol(value: word, steps: nat): word
    requires 0 < steps < 32
  {
    (value << steps) | (value >> (32 - steps))
  }

  lemma {:induction false} RolIsRotl(x: word)
    ensures Rol(x, 1) == Rotl1(x) && Rol(x, 5) == Rotl5(x) && Rol(x, 30) == Rotl30(x)
  {
  }

  function Choose(b: word, c: word, d: word): word { (b & c) | (!b & d) }

  function Majority(b: word, c: word, d: word): word { (b & c) | (b & d) | (c & d) }

  lemma {:induction false} DisjointOr(x: word, y: word)
    requires x & y == 0
    ensures x | y == x ^ y
  {
  }

  lemma {:induction false} ChosenApart(b: word, c: word, d: word)
    ensures (b & c) & (!b & d) == 0
  {
  }

  lemma {:induction false} ChooseIsCh(b: word, c: word, d: word)
    ensures Choose(b, c, d) == Ch(b, c, d)
  {
    ChosenApart(b, c, d);
    DisjointOr(b & c, !b & d);
  }

  lemma {:induction false} OrAsXor(x: word, y: word)
    ensures x | y == x ^ y ^ (x & y)
  {
  }

  lemma {:induction false} CommonToAll(b: word, c: word, d: word)
    ensures (b & c) & (b & d) == b & c & d
    ensures ((b & c) | (b & d)) & (c & d) == b & c & d
  {
  }

  lemma {:induction false} XorCancels(x: word, y: word, z: word, t: word)
    ensures (x ^ y ^ t) ^ z ^ t == x ^ y ^ z
  {
  }

  lemma {:induction false} MajorityIsMaj(b: word, c: word, d: word)
    ensures Majority(b, c, d) == Maj(b, c, d)
  {
    OrAsXor(b & c, b & d);
    OrAsXor((b & c) | (b & d), c & d);
    CommonToAll(b, c, d);
    XorCancels(b & c, b & d, c & d, b & c & d);
  }

  /** The macro of the round loops. */
  function Sha1Macro(v: Vars, func: word, val: word, wt: word): Vars {
    Vars(Sum(Rol(v.a, 5), func, v.e, val, wt), v.a, Rol(v.b, 30), v.c, v.d)
  }

  /** The macro is one round when it is given the function and the constant of that round. */
  lemma {:induction false} MacroIsRound(v: Vars, t: nat, wt: word)
    ensures Sha1Macro(v, F(t, v.b, v.c, v.d), K(t), wt) == Round(v, t, wt)
  {
    hide Rol, Rotl5, Rotl30, F, K, Sum;
    RolIsRotl(v.a);
    RolIsRotl(v.b);
  }

  /** After `round` rounds: the variables, and the schedule words written so far; the rest of the array is arbitrary. */
  ghost predicate InRound(v: Vars, h: Vars, block: seq<word>, w: seq<word>, round: nat) {
    && |block| == 16 && |w| == 80 && round <= 80
    && v == Rounds(h, block, round)
    && w[..Max(16, round)] == Schedule(block, Max(16, round))
  }

  /** The word that the loops beyond the first sixteen rounds store before using it. */
  function Mixed(w: seq<word>, round: nat): word
    requires 16 <= round < |w|
  {
    Rol(Xor4(w[round - 3], w[round - 8], w[round - 14], w[round - 16]), 1)
  }

  lemma {:induction false} StartRounds(h: Vars, w: seq<word>)
    requires |w| == 80
    ensures InRound(h, h, w[..16], w, 0)
  {
    assert w[..16][..16] == w[..16];
  }

  lemma {:induction false} ScheduleGrows(block: seq<word>, n: nat, m: nat)
    requires |block| == 16 && n <= m
    ensures Schedule(block, m)[..n] == Schedule(block, n)
  {
    hide NextWord;
    if n < m {
      ScheduleGrows(block, n, m - 1);
      if m <= 16 {
        assert block[..m][..n] == block[..n];
      } else {
        var w := Schedule(block, m - 1);
        assert (w + [NextWord(w, m - 1)])[..n] == w[..n];
      }
    }
  }

  /** A round whose word is already in the schedule. */
  lemma {:induction false} NextRound(v: Vars, h: Vars, block: seq<word>, w: seq<word>, round: nat)
    requires InRound(v, h, block, w, round) && round < 80
    requires w[..Max(16, round + 1)] == Schedule(block, Max(16, round + 1))
    ensures InRound(Sha1Macro(v, F(round, v.b, v.c, v.d), K(round), w[round]), h, block, w, round + 1)
  {
    hide F, K, Round, Sha1Macro, Schedule;
    MacroIsRound(v, round, w[round]);
    ScheduleGrows(block, round + 1, Max(16, round + 1));
    assert w[..round + 1][round] == w[round];
    assert w[..Max(16, round + 1)][..round + 1] == w[..round + 1];
  }

  /** Storing the mixed word extends the schedule. */
  lemma {:induction false} NextScheduled(v: Vars, h: Vars, block: seq<word>, w: seq<word>, round: nat)
    requires InRound(v, h, block, w, round) && 16 <= round < 80
    ensures var w' := w[round := Mixed(w, round)];
            InRound(v, h, block, w', round) && w'[..round + 1] == Schedule(block, round + 1)
  {
    hide Rol, Rotl1, Rounds, Xor4;
    var w' := w[round := Mixed(w, round)];
    var s := Schedule(block, round);
    RolIsRotl(Xor4(w[round - 3], w[round - 8], w[round - 14], w[round - 16]));
    assert s[round - 3] == w[round - 3] && s[round - 8] == w[round - 8];
    assert s[round - 14] == w[round - 14] && s[round - 16] == w[round - 16];
    assert w'[..round] == w[..round];
    assert w'[..round + 1] == w'[..round] + [w'[round]];
  }

  function AsVars(s: seq<word>): Vars
    requires |s| == 5
  {
    Vars(s[0], s[1], s[2], s[3], s[4])
  }

  /** The first loop: sixteen rounds on the words of the block. */
  method BlockRounds(v0: Vars, w: array<word>) returns (v: Vars)
    requires w.Length == 80
    ensures InRound(v, v0, w[..16], w[..], 16)
  {
    hide Rounds, Schedule, Sha1Macro, Choose, InRound;
    v := v0;
    ghost var block := w[..16];
    StartRounds(v0, w[..]);
    assert w[..][..16] == block;
    var round := 0;
    while round < 16
      invariant 0 <= round <= 16 && InRound(v, v0, block, w[..], round)
    {
      FirstRound(v, v0, block, w[..], round);
      v := Sha1Macro(v, Choose(v.b, v.c, v.d), 0x5a827999, w[round]);
      round := round + 1;
    }
  }

  /** One of the loops that follow: each round stores its schedule word and uses it at once. */
  method MixRounds(v0: Vars, w: array<word>, first: nat, last: nat,
                   func: (word, word, word) -> word, val: word, ghost h: Vars, ghost block: seq<word>)
    returns (v: Vars)
    requires w.Length == 80 && 16 <= first <= last <= 80
    requires InRound(v0, h, block, w[..], first)
    requires forall r: nat, x, y, z :: first <= r < last ==> func(x, y, z) == F(r, x, y, z)
    requires forall r: nat :: first <= r < last ==> val == K(r)
    modifies w
    ensures InRound(v, h, block, w[..], last)
  {
    hide Rounds, Schedule, Sha1Macro, InRound, Rol, Xor4, F, K;
    v := v0;
    var round := first;
    while round < last
      invariant first <= round <= last && InRound(v, h, block, w[..], round)
    {
      LaterRound(v, h, block, w[..], round);
      w[round] := Rol(Xor4(w[round - 3], w[round - 8], w[round - 14], w[round - 16]), 1);
      v := Sha1Macro(v, func(v.b, v.c, v.d), val, w[round]);
      round := round + 1;
    }
  }

  lemma {:induction false} LoopFunctions()
    ensures forall t: nat, x, y, z :: 16 <= t < 20 ==> Choose(x, y, z) == F(t, x, y, z)
    ensures forall t: nat, x, y, z :: 20 <= t < 40 || 60 <= t < 80 ==> Parity(x, y, z) == F(t, x, y, z)
    ensures forall t: nat, x, y, z :: 40 <= t < 60 ==> Majority(x, y, z) == F(t, x, y, z)
    ensures forall t: nat :: 16 <= t < 20 ==> K(t) == 0x5a827999
    ensures forall t: nat :: 20 <= t < 40 ==> K(t) == 0x6ed9eba1
    ensures forall t: nat :: 40 <= t < 60 ==> K(t) == 0x8f1bbcdc
    ensures forall t: nat :: 60 <= t < 80 ==> K(t) == 0xca62c1d6
  {
    hide Choose, Ch, Majority, Maj, Parity;
    forall t: nat, x, y, z | 16 <= t < 20 ensures Choose(x, y, z) == F(t, x, y, z) {
      ChooseIsCh(x, y, z);
    }
    forall t: nat, x, y, z | 40 <= t < 60 ensures Majority(x, y, z) == F(t, x, y, z) {
      MajorityIsMaj(x, y, z);
    }
  }

  /** Adds one block to the hash value; what the array held beyond the block does not matter. */
  method InnerHash(result: array<word>, w: array<word>)
    requires result.Length == 5 && w.Length == 80 && result != w
    modifies result, w
    ensures AsVars(result[..]) == Compress(AsVars(old(result[..])), old(w[..16]))
  {
    hide InRound, Choose, Parity, Majority, F, K, Compress, Add, AsVars;
    ghost var block := w[..16];
    LoopFunctions();
    var h := AsVars(result[..]);
    var v := BlockRounds(h, w);
    v := MixRounds(v, w, 16, 20, Choose, 0x5a827999, h, block);
    v := MixRounds(v, w, 20, 40, Parity, 0x6ed9eba1, h, block);
    v := MixRounds(v, w, 40, 60, Majority, 0x8f1bbcdc, h, block);
    v := MixRounds(v, w, 60, 80, Parity, 0xca62c1d6, h, block);
    CompressIs(v, h, block, w[..]);
    AddTo(result, v);
  }

  method AddTo(result: array<word>, v: Vars)
    requires result.Length == 5
    modifies result
    ensures AsVars(result[..]) == Add(AsVars(old(result[..])), v)
  {
    hide Plus;
    result[0] := Plus(result[0], v.a);
    result[1] := Plus(result[1], v.b);
    result[2] := Plus(result[2], v.c);
    result[3] := Plus(result[3], v.d);
    result[4] := Plus(result[4], v.e);
  }

  lemma {:induction false} CompressIs(v: Vars, h: Vars, block: seq<word>, w: seq<word>)
    requires InRound(v, h, block, w, 80)
    ensures Compress(h, block) == Add(h, v)
  {
    hide Rounds;
  }

  lemma {:induction false} FirstRound(v: Vars, h: Vars, block: seq<word>, w: seq<word>, round: nat)
    requires InRound(v, h, block, w, round) && round < 16
    ensures InRound(Sha1Macro(v, Choose(v.b, v.c, v.d), 0x5a827999, w[round]), h, block, w, round + 1)
  {
    hide Choose, Ch, Sha1Macro, Rounds, Schedule;
    ChooseIsCh(v.b, v.c, v.d);
    NextRound(v, h, block, w, round);
  }

  lemma {:induction false} LaterRound(v: Vars, h: Vars, block: seq<word>, w: seq<word>, round: nat)
    requires InRound(v, h, block, w, round) && 16 <= round < 80
    ensures var w' := w[round := Mixed(w, round)];
            InRound(Sha1Macro(v, F(round, v.b, v.c, v.d), K(round), w'[round]), h, block, w', round + 1)
  {
    hide F, K, Sha1Macro, Rounds, Schedule, Mixed;
    NextScheduled(v, h, block, w, round);
    NextRound(v, h, block, w[round := Mixed(w, round)], round);
  }

  // ---------------------------------------------------------------- words and bytes

  lemma {:induction false} WordsOfAppend(x: seq<byte>, y: seq<byte>)
    requires |x| % 4 == 0 && |y| % 4 == 0
    ensures WordsOf(x + y) == WordsOf(x) + WordsOf(y)
  {
    hide Word;
    if x == [] {
      assert x + y == y;
    } else {
      assert (x + y)[4..] == x[4..] + y;
      WordsOfAppend(x[4..], y);
    }
  }

  lemma {:induction false} WordsOfAt(bytes: seq<byte>, j: nat)
    requires |bytes| % 4 == 0 && 4 * j < |bytes|
    ensures WordsOf(bytes)[j] == Word(bytes[4 * j], bytes[4 * j + 1], bytes[4 * j + 2], bytes[4 * j + 3])
  {
    hide Word;
    if j > 0 {
      WordsOfAt(bytes[4..], j - 1);
    }
  }

  lemma {:induction false} ZeroWord()
    ensures Word(0, 0, 0, 0) == 0
  {
  }

  lemma {:induction false} WordsOfZeros(n: nat)
    requires n % 4 == 0
    ensures WordsOf(Zeros(n)) == ZeroWords(n / 4)
  {
    hide Word;
    forall j | 0 <= j < n / 4 ensures WordsOf(Zeros(n))[j] == 0 {
      WordsOfAt(Zeros(n), j);
      ZeroWord();
    }
  }

  /** Shift that puts byte `i` of a message into its place in its word. */
  function Shift(i: nat): (s: nat)
    ensures s in {0, 8, 16, 24}
  {
    (3 - i % 4) * 8
  }

  /** `w | x << shift`. */
  function OrAt(w: word, x: byte, shift: nat): word
    requires shift < 32
  {
    w | (x as word << shift)
  }

  lemma {:induction false} ZeroShifted()
    ensures (0 as byte) as word << 24 == 0 && (0 as byte) as word << 16 == 0
  {
  }

  lemma {:induction false} OrMoves(p: word, q: word, r: word, s: word)
    ensures (0 | q | r | s) | p == p | q | r | s
    ensures (p | 0 | r | s) | q == p | q | r | s
  {
  }

  /** Or-ing a byte into a zero place of a word. */
  lemma {:induction false} OrByte0(x: byte, b1: byte, b2: byte, b3: byte)
    ensures OrAt(Word(0, b1, b2, b3), x, 24) == Word(x, b1, b2, b3)
  {
    ZeroShifted();
    OrMoves(x as word << 24, b1 as word << 16, b2 as word << 8, b3 as word);
  }

  lemma {:induction false} OrByte1(x: byte, b0: byte, b2: byte, b3: byte)
    ensures OrAt(Word(b0, 0, b2, b3), x, 16) == Word(b0, x, b2, b3)
  {
    ZeroShifted();
    OrMoves(b0 as word << 24, x as word << 16, b2 as word << 8, b3 as word);
  }

  lemma {:induction false} OrByte2(x: byte, b0: byte, b1: byte, b3: byte)
    ensures OrAt(Word(b0, b1, 0, b3), x, 8) == Word(b0, b1, x, b3)
  {
  }

  lemma {:induction false} OrByte3(x: byte, b0: byte, b1: byte, b2: byte)
    ensures OrAt(Word(b0, b1, b2, 0), x, 0) == Word(b0, b1, b2, x)
  {
  }

  lemma {:induction false} OrByte(bytes: seq<byte>, i: nat, x: byte)
    requires |bytes| == 64 && i < 64 && bytes[i] == 0
    ensures WordsOf(bytes[i := x]) == WordsOf(bytes)[i / 4 := OrAt(WordsOf(bytes)[i / 4], x, Shift(i))]
  {
    hide Word, WordsOf, OrAt;
    var j, bytes' := i / 4, bytes[i := x];
    forall k | 0 <= k < 16
      ensures WordsOf(bytes')[k] == if k == j then OrAt(WordsOf(bytes)[j], x, Shift(i)) else WordsOf(bytes)[k]
    {
      WordsOfAt(bytes, k);
      WordsOfAt(bytes', k);
      if k == j {
        OrByteInWord(bytes[4 * k], bytes[4 * k + 1], bytes[4 * k + 2], bytes[4 * k + 3], i % 4, x);
      }
    }
  }

  function PutByte(b0: byte, b1: byte, b2: byte, b3: byte, m: nat, x: byte): word {
    if m == 0 then Word(x, b1, b2, b3)
    else if m == 1 then Word(b0, x, b2, b3)
    else if m == 2 then Word(b0, b1, x, b3)
    else Word(b0, b1, b2, x)
  }

  lemma {:induction false} OrByteInWord(b0: byte, b1: byte, b2: byte, b3: byte, m: nat, x: byte)
    requires m < 4 && (if m == 0 then b0 else if m == 1 then b1 else if m == 2 then b2 else b3) == 0
    ensures OrAt(Word(b0, b1, b2, b3), x, (3 - m) * 8) == PutByte(b0, b1, b2, b3, m, x)
  {
    hide Word, OrAt;
    if m == 0 {
      OrByte0(x, b1, b2, b3);
    } else if m == 1 {
      OrByte1(x, b0, b2, b3);
    } else if m == 2 {
      OrByte2(x, b0, b1, b3);
    } else {
      OrByte3(x, b0, b1, b2);
    }
  }

  // ---------------------------------------------------------------- filling the block

  method ClearWBuffer(w: array<word>)
    requires w.Length == 80
    modifies w
    ensures w[..16] == ZeroWords(16)
  {
    var pos := 16;
    while pos > 0
      invariant 0 <= pos <= 16
      invariant forall k :: pos <= k < 16 ==> w[k] == 0
    {
      pos := pos - 1;
      w[pos] := 0;
    }
  }

  method LoadBlock(data: seq<byte>, currentBlock: nat, w: array<word>)
    requires w.Length == 80 && currentBlock + 64 <= |data|
    modifies w
    ensures w[..16] == WordsOf(data[currentBlock..currentBlock + 64])
  {
    hide Word, WordsOf;
    var roundPos := 0;
    ghost var bytes := data[currentBlock..currentBlock + 64];
    while roundPos < 16
      invariant 0 <= roundPos <= 16
      invariant w[..roundPos] == WordsOf(bytes)[..roundPos]
    {
      var i := currentBlock + 4 * roundPos;
      WordsOfAt(bytes, roundPos);
      w[roundPos] := Word(data[i], data[i + 1], data[i + 2], data[i + 3]);
      roundPos := roundPos + 1;
    }
  }

  /** The words of an unfinished block: its bytes, the closing bit, zeros. */
  function TailWords(tail: seq<byte>): (ws: seq<word>)
    requires |tail| < 64
    ensures |ws| == 16
  {
    WordsOf(tail + [0x80] + Zeros(63 - |tail|))
  }

  method LoadTail(data: seq<byte>, currentBlock: nat, w: array<word>)
    requires w.Length == 80 && currentBlock <= |data| < currentBlock + 64
    modifies w
    ensures w[..16] == TailWords(data[currentBlock..])
  {
    hide Word, WordsOf, Shift, OrAt;
    ClearWBuffer(w);
    WordsOfZeros(64);
    ghost var tail := data[currentBlock..];
    var i := 0;
    assert tail[..0] + Zeros(64) == Zeros(64);
    while i < |data| - currentBlock
      invariant 0 <= i <= |tail| && |tail| == |data| - currentBlock
      invariant w[..16] == WordsOf(tail[..i] + Zeros(64 - i))
    {
      OrByte(tail[..i] + Zeros(64 - i), i, tail[i]);
      assert (tail[..i] + Zeros(64 - i))[i := tail[i]] == tail[..i + 1] + Zeros(64 - (i + 1));
      w[i / 4] := OrAt(w[i / 4], data[i + currentBlock], Shift(i));
      i := i + 1;
    }
    assert tail[..i] == tail;
    OrByte(tail + Zeros(64 - i), i, 0x80);
    assert (tail + Zeros(64 - i))[i := 0x80] == tail + [0x80] + Zeros(63 - i);
    w[i / 4] := OrAt(w[i / 4], 0x80, Shift(i));
  }

  // ---------------------------------------------------------------- the whole message

  lemma {:induction false} HashOneBlock(h: Vars, block: seq<word>, rest: seq<word>)
    requires |block| == 16
    ensures HashBlocks(h, block + rest) == HashBlocks(Compress(h, block), rest)
  {
    hide Compress;
    assert (block + rest)[..16] == block && (block + rest)[16..] == rest;
  }

  /** Each block is added to the hash value of the blocks before it. */
  lemma {:induction false} BlocksInOrder(h: Vars, words: seq<word>, block: seq<word>)
    requires |words| % 16 == 0 && |block| == 16
    ensures HashBlocks(h, words + block) == Compress(HashBlocks(h, words), block)
    decreases |words|
  {
    hide Compress;
    if words == [] {
      assert words + block == block;
      HashLastBlock(h, block);
    } else {
      assert (words + block)[..16] == words[..16] && (words + block)[16..] == words[16..] + block;
      BlocksInOrder(Compress(h, words[..16]), words[16..], block);
    }
  }

  lemma {:induction false} HashLastBlock(h: Vars, block: seq<word>)
    requires |block| == 16
    ensures HashBlocks(h, block) == Compress(h, block)
  {
    hide Compress;
    HashOneBlock(h, block, []);
    assert block + [] == block;
  }

  /** The padded words that are left once the message is processed up to a whole number of blocks. */
  function Remaining(rest: seq<byte>, length: seq<word>): (ws: seq<word>) {
    WordsOf(Extended(rest)) + length
  }

  lemma {:induction false} NextBlock(h: Vars, rest: seq<byte>, length: seq<word>)
    requires |rest| >= 64
    ensures HashBlocks(h, Remaining(rest, length))
         == HashBlocks(Compress(h, WordsOf(rest[..64])), Remaining(rest[64..], length))
  {
    hide Compress, WordsOf, HashBlocks, Word;
    var first, later := rest[..64], rest[64..];
    assert Extended(rest) == first + Extended(later) by {
      assert rest == first + later;
    }
    WordsOfAppend(first, Extended(later));
    assert WordsOf(first) + WordsOf(Extended(later)) + length == WordsOf(first) + (WordsOf(Extended(later)) + length);
    HashOneBlock(h, WordsOf(first), Remaining(later, length));
  }

  /** A tail of less than 56 bytes leaves room for the length in its block. */
  lemma {:induction false} ShortTail(tail: seq<byte>, lo: word)
    requires |tail| < 56
    ensures Remaining(tail, [0, lo]) == TailWords(tail)[15 := lo]
  {
    hide WordsOf, Word;
    var ext := Extended(tail);
    assert tail + [0x80] + Zeros(63 - |tail|) == ext + Zeros(8);
    WordsOfAppend(ext, Zeros(8));
    WordsOfZeros(8);
    assert ZeroWords(2) == [0, 0];
    assert (WordsOf(ext) + [0, 0])[15 := lo] == WordsOf(ext) + [0, lo];
  }

  /** A longer one is followed by a block of zeros with the length at its end. */
  lemma {:induction false} LongTail(tail: seq<byte>, lo: word)
    requires 56 <= |tail| < 64
    ensures Remaining(tail, [0, lo]) == TailWords(tail) + ZeroWords(16)[15 := lo]
  {
    hide WordsOf, Word;
    var first := tail + [0x80] + Zeros(63 - |tail|);
    assert Extended(tail) == first + Zeros(56);
    WordsOfAppend(first, Zeros(56));
    WordsOfZeros(56);
    assert ZeroWords(14) + [0, lo] == ZeroWords(16)[15 := lo];
    assert WordsOf(first) + ZeroWords(14) + [0, lo] == WordsOf(first) + (ZeroWords(14) + [0, lo]);
  }

  /** Sizes are converted to a signed 32-bit int. */
  const INT_LIMIT: nat := 0x8000_0000

  /** What the code puts at the end of the last block: a zero word and the low word of the bit length. */
  function LowLength(size: nat): (ws: seq<word>)
    ensures |ws| == 2 && ws[0] == 0
  {
    [0, (8 * size % TWO_TO_THE_32) as word]
  }

  /** The words the code hashes. */
  function CodeWords(message: seq<byte>): seq<word> {
    WordsOf(Extended(message)) + LowLength(|message|)
  }

  /** The length block is right exactly for messages below 2^29 bytes. */
  lemma {:induction false} PaddingIsExact(message: seq<byte>)
    requires |message| < INT_LIMIT
    ensures CodeWords(message) == PaddedWords(message) <==> |message| < 0x2000_0000
  {
    hide WordsOf, Extended, LowLength, LengthWords;
    var code, standard := LowLength(|message|), LengthWords(8 * |message|);
    HighWord(|message|);
    assert code == standard <==> |message| < 0x2000_0000;
    SameEnd(WordsOf(Extended(message)), code, standard);
  }

  lemma {:induction false} SameEnd(ws: seq<word>, x: seq<word>, y: seq<word>)
    ensures ws + x == ws + y <==> x == y
  {
    assert (ws + x)[|ws|..] == x && (ws + y)[|ws|..] == y;
  }

  lemma {:induction false} HighWord(size: nat)
    requires size < INT_LIMIT
    ensures LengthWords(8 * size)[1] == LowLength(size)[1]
    ensures LengthWords(8 * size)[0] == 0 <==> size < 0x2000_0000
  {
    var hi: nat := 8 * size / TWO_TO_THE_32;
    assert hi < 16;
    assert size < 0x2000_0000 <==> hi == 0;
    SmallWord(hi);
  }

  lemma {:induction false} SmallWord(n: nat)
    requires n < 16
    ensures n as word == 0 <==> n == 0
  {
  }

  /** The first hash value in an array, then all full blocks, then the tail. */
  method HashMessage(data: seq<byte>, result: array<word>)
    requires |data| < INT_LIMIT && result.Length == 5
    modifies result
    ensures AsVars(result[..]) == HashBlocks(H0, CodeWords(data))
  {
    hide HashBlocks, Compress, WordsOf, Word, AsVars, Remaining, TailWords, LowLength;
    SetInitial(result);
    var w := new word[80];
    ghost var length := LowLength(|data|);
    ghost var h := H0;
    var currentBlock := 0;
    StartRemaining(data);
    while currentBlock <= |data| - 64
      invariant 0 <= currentBlock <= |data| && fresh(w)
      invariant AsVars(result[..]) == h
      invariant HashBlocks(h, Remaining(data[currentBlock..], length)) == HashBlocks(H0, CodeWords(data))
      decreases |data| - currentBlock
    {
      NextBlock(h, data[currentBlock..], length);
      assert data[currentBlock..][..64] == data[currentBlock..currentBlock + 64];
      assert data[currentBlock..][64..] == data[currentBlock + 64..];
      LoadBlock(data, currentBlock, w);
      InnerHash(result, w);
      h := Compress(h, WordsOf(data[currentBlock..currentBlock + 64]));
      currentBlock := currentBlock + 64;
    }
    HashTail(data, currentBlock, result, w);
  }

  lemma {:induction false} StartRemaining(data: seq<byte>)
    ensures Remaining(data[0..], LowLength(|data|)) == CodeWords(data)
  {
    hide WordsOf, LowLength;
    assert data[0..] == data;
  }

  method SetInitial(result: array<word>)
    requires result.Length == 5
    modifies result
    ensures AsVars(result[..]) == H0
  {
    result[0] := 0x67452301;
    result[1] := 0xefcdab89;
    result[2] := 0x98badcfe;
    result[3] := 0x10325476;
    result[4] := 0xc3d2e1f0;
  }

  /** The one or two blocks after the last full one. */
  method HashTail(data: seq<byte>, currentBlock: nat, result: array<word>, w: array<word>)
    requires currentBlock <= |data| < currentBlock + 64
    requires result.Length == 5 && w.Length == 80 && result != w
    modifies result, w
    ensures AsVars(result[..])
         == HashBlocks(AsVars(old(result[..])), Remaining(data[currentBlock..], LowLength(|data|)))
  {
    hide HashBlocks, Compress, WordsOf, Word, AsVars, Remaining, TailWords;
    ghost var h, tail, lo := AsVars(result[..]), data[currentBlock..], LowLength(|data|)[1];
    assert LowLength(|data|) == [0, lo];
    LoadTail(data, currentBlock, w);
    if |data| - currentBlock >= 56 {
      LongTail(tail, lo);
      HashOneBlock(h, TailWords(tail), ZeroWords(16)[15 := lo]);
      InnerHash(result, w);
      ClearWBuffer(w);
      h := Compress(h, TailWords(tail));
    } else {
      ShortTail(tail, lo);
    }
    ghost var block := w[..16][15 := lo];
    HashLastBlock(h, block);
    w[15] := (8 * |data| % TWO_TO_THE_32) as word;
    assert w[..16] == block;
    InnerHash(result, w);
  }

  /** Byte `k` of a word, most significant first. */
  function ByteAt(w: word, k: nat): byte
    requires k < 4
  {
    BytesOf(w)[k]
  }

  lemma {:induction false} ShiftedByte(w: word, k: nat)
    requires k < 4
    ensures Shifted(w, (3 - k) * 8) == ByteAt(w, k)
  {
    hide Shifted;
  }

  lemma {:induction false} DigestAt(s: seq<word>, i: nat)
    requires |s| == 5 && i < 20
    ensures Digest(AsVars(s))[i] == ByteAt(s[i / 4], i % 4)
  {
    hide BytesOf;
  }

  /**
   `SHA1::compute`: the 20 bytes stored are the SHA-1 digest of every message
   below 2^29 bytes.
   */
  method Compute(data: seq<byte>, out: array<byte>)
    requires |data| < INT_LIMIT && out.Length == 20
    modifies out
    ensures out[..] == Digest(HashBlocks(H0, CodeWords(data)))
    ensures |data| < 0x2000_0000 ==> out[..] == Sha1(data)
  {
    hide Digest, AsVars, HashBlocks, CodeWords, PaddedWords, ByteAt, Shifted;
    var result := new word[5];
    HashMessage(data, result);
    PaddingIsExact(data);
    ghost var words := result[..];
    ghost var digest := Digest(AsVars(words));
    var hashByte := 20;
    while hashByte > 0
      invariant 0 <= hashByte <= 20 && result[..] == words
      invariant forall k :: hashByte <= k < 20 ==> out[k] == digest[k]
    {
      hashByte := hashByte - 1;
      DigestAt(words, hashByte);
      ShiftedByte(words[hashByte / 4], hashByte % 4);
      assert (3 - hashByte) % 4 == 3 - hashByte % 4;
      out[hashByte] := Shifted(result[hashByte / 4], (3 - hashByte) % 4 * 8);
    }
    assert out[..] == digest;
  }
}
