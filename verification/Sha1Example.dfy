/**
 The first example of FIPS 180-4 for SHA-1: the digest of the three letters
 `abc`, from its message schedule and the values of the working variables.
 */
module Sha1Example {
  import opened Prelude
  import opened Sha1Spec
  import opened Sha1

  // ---------------------------------------------------------------- schedules and rounds in larger steps

  function Mix(p: word, q: word, r: word, s: word): word { Rotl1(Xor4(p, q, r, s)) }

  lemma {:induction false} ScheduleStarts(block: seq<word>)
    requires |block| == 16
    ensures Schedule(block, 80)[0..16] == block
  {
    hide Schedule;
    ScheduleGrows(block, 16, 80);
    FirstSixteen(block);
  }

  lemma {:induction false} FirstSixteen(block: seq<word>)
    requires |block| == 16
    ensures Schedule(block, 16) == block
  {
  }

  lemma {:induction false} ScheduleAt(block: seq<word>, t: nat)
    requires |block| == 16 && 16 <= t < 80
    ensures var s := Schedule(block, 80);
            s[t] == Mix(s[t - 3], s[t - 8], s[t - 14], s[t - 16])
  {
    hide Rotl1, Xor4;
    ScheduleGrows(block, t, 80);
    ScheduleGrows(block, t + 1, 80);
  }

  /** The sixteen words that follow sixteen words of a schedule. */
  function Following(w: seq<word>): (r: seq<word>)
    requires |w| == 16
    ensures |r| == 16
  {
    var a0, a1, a2 := Mix(w[13], w[8], w[2], w[0]), Mix(w[14], w[9], w[3], w[1]), Mix(w[15], w[10], w[4], w[2]);
    var a3, a4, a5 := Mix(a0, w[11], w[5], w[3]), Mix(a1, w[12], w[6], w[4]), Mix(a2, w[13], w[7], w[5]);
    var a6, a7, a8 := Mix(a3, w[14], w[8], w[6]), Mix(a4, w[15], w[9], w[7]), Mix(a5, a0, w[10], w[8]);
    var a9, a10, a11 := Mix(a6, a1, w[11], w[9]), Mix(a7, a2, w[12], w[10]), Mix(a8, a3, w[13], w[11]);
    var a12, a13 := Mix(a9, a4, w[14], w[12]), Mix(a10, a5, w[15], w[13]);
    var a14, a15 := Mix(a11, a6, a0, w[14]), Mix(a12, a7, a1, w[15]);
    [a0, a1, a2, a3, a4, a5, a6, a7, a8, a9, a10, a11, a12, a13, a14, a15]
  }

  /** Word `i` of two times sixteen words. */
  function Of(w: seq<word>, x: seq<word>, i: nat): word
    requires |w| == |x| == 16 && i < 32
  {
    if i < 16 then w[i] else x[i - 16]
  }

  predicate FollowsAt(w: seq<word>, x: seq<word>, k: nat)
    requires |w| == |x| == 16 && k < 16
  {
    x[k] == Mix(Of(w, x, k + 13), Of(w, x, k + 8), Of(w, x, k + 2), Of(w, x, k))
  }

  lemma {:induction false} WordFollows(block: seq<word>, n: nat, w: seq<word>, x: seq<word>, k: nat)
    requires |block| == 16 && 16 <= n <= 64 && k < 16
    requires w == Schedule(block, 80)[n - 16..n] && x == Schedule(block, 80)[n..n + 16]
    ensures FollowsAt(w, x, k)
  {
    hide Mix, Schedule;
    ScheduleAt(block, n + k);
  }

  lemma {:induction false} FollowingWords(w: seq<word>, x: seq<word>)
    requires |w| == |x| == 16
    requires forall k :: 0 <= k < 16 ==> FollowsAt(w, x, k)
    ensures x == Following(w)
  {
    hide Mix;
    assert FollowsAt(w, x, 0) && FollowsAt(w, x, 1) && FollowsAt(w, x, 2) && FollowsAt(w, x, 3);
    assert FollowsAt(w, x, 4) && FollowsAt(w, x, 5) && FollowsAt(w, x, 6) && FollowsAt(w, x, 7);
    assert FollowsAt(w, x, 8) && FollowsAt(w, x, 9) && FollowsAt(w, x, 10) && FollowsAt(w, x, 11);
    assert FollowsAt(w, x, 12) && FollowsAt(w, x, 13) && FollowsAt(w, x, 14) && FollowsAt(w, x, 15);
  }

  lemma {:induction false} NextSixteen(block: seq<word>, n: nat)
    requires |block| == 16 && 16 <= n <= 64
    ensures Schedule(block, 80)[n..n + 16] == Following(Schedule(block, 80)[n - 16..n])
  {
    hide Mix, Schedule, Following, FollowsAt;
    var w, x := Schedule(block, 80)[n - 16..n], Schedule(block, 80)[n..n + 16];
    forall k | 0 <= k < 16 ensures FollowsAt(w, x, k) {
      WordFollows(block, n, w, x, k);
    }
    FollowingWords(w, x);
  }

  function Four(v: Vars, t: nat, w0: word, w1: word, w2: word, w3: word): Vars {
    Round(Round(Round(Round(v, t, w0), t + 1, w1), t + 2, w2), t + 3, w3)
  }

  lemma {:induction false} OneRound(v: Vars, block: seq<word>, n: nat)
    requires |block| == 16 && n < 80
    ensures Rounds(v, block, n + 1) == Round(Rounds(v, block, n), n, Schedule(block, 80)[n])
  {
    hide Round, Schedule;
    ScheduleGrows(block, n + 1, 80);
  }

  lemma {:induction false} FourRounds(v: Vars, block: seq<word>, n: nat)
    requires |block| == 16 && n <= 76
    ensures var s := Schedule(block, 80);
            Rounds(v, block, n + 4) == Four(Rounds(v, block, n), n, s[n], s[n + 1], s[n + 2], s[n + 3])
  {
    hide Round, Rounds, Schedule;
    OneRound(v, block, n);
    OneRound(v, block, n + 1);
    OneRound(v, block, n + 2);
    OneRound(v, block, n + 3);
  }

  lemma {:induction false} SixteenRounds(v: Vars, block: seq<word>, n: nat, w: seq<word>)
    requires |block| == 16 && n <= 64 && Schedule(block, 80)[n..n + 16] == w
    ensures Rounds(v, block, n + 4) == Four(Rounds(v, block, n), n, w[0], w[1], w[2], w[3])
    ensures Rounds(v, block, n + 8) == Four(Rounds(v, block, n + 4), n + 4, w[4], w[5], w[6], w[7])
    ensures Rounds(v, block, n + 12) == Four(Rounds(v, block, n + 8), n + 8, w[8], w[9], w[10], w[11])
    ensures Rounds(v, block, n + 16) == Four(Rounds(v, block, n + 12), n + 12, w[12], w[13], w[14], w[15])
  {
    hide Four, Rounds, Schedule;
    FourRounds(v, block, n);
    FourRounds(v, block, n + 4);
    FourRounds(v, block, n + 8);
    FourRounds(v, block, n + 12);
    var s := Schedule(block, 80);
    assert forall i :: 0 <= i < 16 ==> w[i] == s[n + i];
  }

  // ---------------------------------------------------------------- the block of `abc`

  const ABC_0: seq<word> :=
    [0x61626380, 0x00000000, 0x00000000, 0x00000000, 0x00000000, 0x00000000, 0x00000000, 0x00000000,
     0x00000000, 0x00000000, 0x00000000, 0x00000000, 0x00000000, 0x00000000, 0x00000000, 0x00000018]
  const ABC_1: seq<word> :=
    [0xc2c4c700, 0x00000000, 0x00000030, 0x85898e01, 0x00000000, 0x00000060, 0x0b131c03, 0x00000030,
     0x85898ec1, 0x16263806, 0x00000000, 0x00000180, 0x2c4c700c, 0x000000f0, 0x93afb507, 0x5898e048]
  const ABC_2: seq<word> :=
    [0x8e9a9202, 0x00000600, 0xb131c0f0, 0x16263bc6, 0x4ebed41e, 0x626380a1, 0x16263806, 0x000018c0,
     0xd2e138c4, 0x00000f00, 0x3afb5079, 0x898e04e5, 0xe2ba3c2b, 0x000060c0, 0x053a37cd, 0x74458547]
  const ABC_3: seq<word> :=
    [0xda9415ed, 0x26380a16, 0x626383a1, 0x4ebf54de, 0x3835b44b, 0x0000f600, 0x1e84c7a3, 0x98e04d98,
     0x651d16a0, 0x62658ca1, 0x458544d6, 0x44584cb7, 0x7ba06619, 0x6380aea2, 0x0ae55269, 0x627b49a1]
  const ABC_4: seq<word> :=
    [0x7cd45c9d, 0x000f0000, 0xfb50753a, 0xec6765e8, 0xba3c2be2, 0x0060c000, 0x3a37cd05, 0x458546f4,
     0xb8599dd6, 0x380a1a26, 0x01e02203, 0xe7cc3456, 0xe6e60b69, 0x00f60a00, 0x5795ef4f, 0x822e0879]

  lemma {:induction false} AbcWords1()
    ensures Following(ABC_0) == ABC_1
  {
  }

  lemma {:induction false} AbcWords2()
    ensures Following(ABC_1) == ABC_2
  {
  }

  lemma {:induction false} AbcWords3()
    ensures Following(ABC_2) == ABC_3
  {
  }

  lemma {:induction false} AbcWords4()
    ensures Following(ABC_3) == ABC_4
  {
  }

  lemma {:induction false} AbcSchedule()
    ensures var s := Schedule(ABC_0, 80);
            s[0..16] == ABC_0 && s[16..32] == ABC_1 && s[32..48] == ABC_2 && s[48..64] == ABC_3 && s[64..80] == ABC_4
  {
    hide Schedule, Following;
    ScheduleStarts(ABC_0);
    NextSixteen(ABC_0, 16);
    NextSixteen(ABC_0, 32);
    NextSixteen(ABC_0, 48);
    NextSixteen(ABC_0, 64);
    AbcWords1();
    AbcWords2();
    AbcWords3();
    AbcWords4();
  }

  lemma {:induction false} AbcRounds0()
    ensures Four(Vars(0x67452301, 0xefcdab89, 0x98badcfe, 0x10325476, 0xc3d2e1f0), 0,
                 0x61626380, 0x00000000, 0x00000000, 0x00000000)
         == Vars(0xcdd8e11b, 0xa1390f08, 0x626414db, 0xc045bf0c, 0x59d148c0)
    ensures Four(Vars(0xcdd8e11b, 0xa1390f08, 0x626414db, 0xc045bf0c, 0x59d148c0), 4,
                 0x00000000, 0x00000000, 0x00000000, 0x00000000)
         == Vars(0x9e8c07d4, 0x993e30c1, 0x0ff1f290, 0xb3f52677, 0xf3763846)
    ensures Four(Vars(0x9e8c07d4, 0x993e30c1, 0x0ff1f290, 0xb3f52677, 0xf3763846), 8,
                 0x00000000, 0x00000000, 0x00000000, 0x00000000)
         == Vars(0x63188fe4, 0xfbda9e89, 0x60d47e4a, 0x12dab8ca, 0x27a301f5)
    ensures Four(Vars(0x63188fe4, 0xfbda9e89, 0x60d47e4a, 0x12dab8ca, 0x27a301f5), 12,
                 0x00000000, 0x00000000, 0x00000000, 0x00000018)
         == Vars(0x20bdd62f, 0x196bee77, 0x644a3da5, 0x1181ed99, 0x18c623f9)
  {
  }

  lemma {:induction false} AbcAfter16()
    requires Rounds(H0, ABC_0, 0) == Vars(0x67452301, 0xefcdab89, 0x98badcfe, 0x10325476, 0xc3d2e1f0)
    ensures Rounds(H0, ABC_0, 16) == Vars(0x20bdd62f, 0x196bee77, 0x644a3da5, 0x1181ed99, 0x18c623f9)
  {
    hide Four, Rounds, Schedule;
    AbcRounds0();
    AbcSchedule();
    SixteenRounds(H0, ABC_0, 0, ABC_0);
  }

  lemma {:induction false} AbcRounds1()
    ensures Four(Vars(0x20bdd62f, 0x196bee77, 0x644a3da5, 0x1181ed99, 0x18c623f9), 16,
                 0xc2c4c700, 0x00000000, 0x00000030, 0x85898e01)
         == Vars(0xfd9e1d7d, 0xdc64901d, 0x20aa99ca, 0xd3a49608, 0xc82f758b)
    ensures Four(Vars(0xfd9e1d7d, 0xdc64901d, 0x20aa99ca, 0xd3a49608, 0xc82f758b), 20,
                 0x00000000, 0x00000060, 0x0b131c03, 0x00000030)
         == Vars(0xd541f12d, 0x21283486, 0x0ce88eff, 0x868dec32, 0x7f67875f)
    ensures Four(Vars(0xd541f12d, 0x21283486, 0x0ce88eff, 0x868dec32, 0x7f67875f), 24,
                 0x85898ec1, 0x16263806, 0x00000000, 0x00000180)
         == Vars(0x4aa84d97, 0xbe35fbd5, 0x12104ee9, 0xb1d59f71, 0x75507c4b)
    ensures Four(Vars(0x4aa84d97, 0xbe35fbd5, 0x12104ee9, 0xb1d59f71, 0x75507c4b), 28,
                 0x2c4c700c, 0x000000f0, 0x93afb507, 0x5898e048)
         == Vars(0x3b845d33, 0x1267b407, 0x717eebd7, 0xa0dc2d4b, 0xd2aa1365)
  {
  }

  lemma {:induction false} AbcAfter32()
    requires Rounds(H0, ABC_0, 16) == Vars(0x20bdd62f, 0x196bee77, 0x644a3da5, 0x1181ed99, 0x18c623f9)
    ensures Rounds(H0, ABC_0, 32) == Vars(0x3b845d33, 0x1267b407, 0x717eebd7, 0xa0dc2d4b, 0xd2aa1365)
  {
    hide Four, Rounds, Schedule;
    AbcRounds1();
    AbcSchedule();
    SixteenRounds(H0, ABC_0, 16, ABC_1);
  }

  lemma {:induction false} AbcRounds2()
    ensures Four(Vars(0x3b845d33, 0x1267b407, 0x717eebd7, 0xa0dc2d4b, 0xd2aa1365), 32,
                 0x8e9a9202, 0x00000600, 0xb131c0f0, 0x16263bc6)
         == Vars(0xdcbbb0cb, 0x21796ad4, 0x4b03af04, 0x811bea82, 0xcee1174c)
    ensures Four(Vars(0xdcbbb0cb, 0x21796ad4, 0x4b03af04, 0x811bea82, 0xcee1174c), 36,
                 0x4ebed41e, 0x626380a1, 0x16263806, 0x000018c0)
         == Vars(0x32de1cba, 0x4c986405, 0xf718e5cf, 0x03d447f6, 0xf72eec32)
    ensures Four(Vars(0x32de1cba, 0x4c986405, 0xf718e5cf, 0x03d447f6, 0xf72eec32), 40,
                 0xd2e138c4, 0x00000f00, 0x3afb5079, 0x898e04e5)
         == Vars(0xee1b1aaf, 0x7f193dc5, 0x25c28357, 0xff21f7b7, 0x8cb7872e)
    ensures Four(Vars(0xee1b1aaf, 0x7f193dc5, 0x25c28357, 0xff21f7b7, 0x8cb7872e), 44,
                 0xe2ba3c2b, 0x000060c0, 0x053a37cd, 0x74458547)
         == Vars(0xbead02ca, 0xa01b846c, 0x8714787c, 0x503ca382, 0xfb86c6ab)
  {
  }

  lemma {:induction false} AbcAfter48()
    requires Rounds(H0, ABC_0, 32) == Vars(0x3b845d33, 0x1267b407, 0x717eebd7, 0xa0dc2d4b, 0xd2aa1365)
    ensures Rounds(H0, ABC_0, 48) == Vars(0xbead02ca, 0xa01b846c, 0x8714787c, 0x503ca382, 0xfb86c6ab)
  {
    hide Four, Rounds, Schedule;
    AbcRounds2();
    AbcSchedule();
    SixteenRounds(H0, ABC_0, 32, ABC_2);
  }

  lemma {:induction false} AbcRounds3()
    ensures Four(Vars(0xbead02ca, 0xa01b846c, 0x8714787c, 0x503ca382, 0xfb86c6ab), 48,
                 0xda9415ed, 0x26380a16, 0x626383a1, 0x4ebf54de)
         == Vars(0x3847ad66, 0x641db2ce, 0x4481cc71, 0xeebce4cd, 0xafab40b2)
    ensures Four(Vars(0x3847ad66, 0x641db2ce, 0x4481cc71, 0xeebce4cd, 0xafab40b2), 52,
                 0x3835b44b, 0x0000f600, 0x1e84c7a3, 0x98e04d98)
         == Vars(0x5e6456af, 0x7b71f76d, 0x09fa7c76, 0x792410db, 0x8e11eb59)
    ensures Four(Vars(0x5e6456af, 0x7b71f76d, 0x09fa7c76, 0x792410db, 0x8e11eb59), 56,
                 0x651d16a0, 0x62658ca1, 0x458544d6, 0x44584cb7)
         == Vars(0x3f52de5a, 0x09d785fd, 0x3498bfd4, 0xf211824f, 0xd79915ab)
    ensures Four(Vars(0x3f52de5a, 0x09d785fd, 0x3498bfd4, 0xf211824f, 0xd79915ab), 60,
                 0x7ba06619, 0x6380aea2, 0x0ae55269, 0x627b49a1)
         == Vars(0x6b61c9e1, 0xb66c020b, 0x9523272c, 0xf5d5b051, 0x8fd4b796)
  {
  }

  lemma {:induction false} AbcAfter64()
    requires Rounds(H0, ABC_0, 48) == Vars(0xbead02ca, 0xa01b846c, 0x8714787c, 0x503ca382, 0xfb86c6ab)
    ensures Rounds(H0, ABC_0, 64) == Vars(0x6b61c9e1, 0xb66c020b, 0x9523272c, 0xf5d5b051, 0x8fd4b796)
  {
    hide Four, Rounds, Schedule;
    AbcRounds3();
    AbcSchedule();
    SixteenRounds(H0, ABC_0, 48, ABC_3);
  }

  lemma {:induction false} AbcRounds4()
    ensures Four(Vars(0x6b61c9e1, 0xb66c020b, 0x9523272c, 0xf5d5b051, 0x8fd4b796), 64,
                 0x7cd45c9d, 0x000f0000, 0xfb50753a, 0xec6765e8)
         == Vars(0x78dd4d2b, 0x0c3df2b4, 0x4405957e, 0x0677e9eb, 0x5ad87278)
    ensures Four(Vars(0x78dd4d2b, 0x0c3df2b4, 0x4405957e, 0x0677e9eb, 0x5ad87278), 68,
                 0xba3c2be2, 0x0060c000, 0x3a37cd05, 0x458546f4)
         == Vars(0x39859de7, 0xc199f8c7, 0x8fc96230, 0x125c24f0, 0xde37534a)
    ensures Four(Vars(0x39859de7, 0xc199f8c7, 0x8fc96230, 0x125c24f0, 0xde37534a), 72,
                 0xb8599dd6, 0x380a1a26, 0x01e02203, 0xe7cc3456)
         == Vars(0x63f7dab7, 0x5ee76897, 0xc45e4fdb, 0x3b6d0b79, 0xce616779)
    ensures Four(Vars(0x63f7dab7, 0x5ee76897, 0xc45e4fdb, 0x3b6d0b79, 0xce616779), 76,
                 0xe6e60b69, 0x00f60a00, 0x5795ef4f, 0x822e0879)
         == Vars(0x42541b35, 0x5738d5e1, 0x21834873, 0x681e6df6, 0xd8fdf6ad)
  {
  }

  lemma {:induction false} AbcAfter80()
    requires Rounds(H0, ABC_0, 64) == Vars(0x6b61c9e1, 0xb66c020b, 0x9523272c, 0xf5d5b051, 0x8fd4b796)
    ensures Rounds(H0, ABC_0, 80) == Vars(0x42541b35, 0x5738d5e1, 0x21834873, 0x681e6df6, 0xd8fdf6ad)
  {
    hide Four, Rounds, Schedule;
    AbcRounds4();
    AbcSchedule();
    SixteenRounds(H0, ABC_0, 64, ABC_4);
  }

  lemma {:induction false} AbcCompressed()
    ensures Compress(H0, ABC_0) == Vars(0xa9993e36, 0x4706816a, 0xba3e2571, 0x7850c26c, 0x9cd0d89d)
  {
    hide Rounds;
    NoRounds(H0, ABC_0);
    AbcAfter16();
    AbcAfter32();
    AbcAfter48();
    AbcAfter64();
    AbcAfter80();
  }

  lemma {:induction false} NoRounds(v: Vars, block: seq<word>)
    requires |block| == 16
    ensures Rounds(v, block, 0) == v
  {
  }

  const ABC: seq<byte> := [0x61, 0x62, 0x63]

  lemma {:induction false} AbcPadded()
    ensures PaddedWords(ABC) == ABC_0
  {
    hide Word, WordsOf;
    var first: seq<byte> := [0x61, 0x62, 0x63, 0x80];
    assert Extended(ABC) == first + Zeros(52);
    WordsOfAppend(first, Zeros(52));
    WordsOfZeros(52);
    AbcFirstWord();
    assert LengthWords(24) == [0, 24];
  }

  lemma {:induction false} AbcFirstWord()
    ensures WordsOf([0x61, 0x62, 0x63, 0x80]) == [0x61626380]
  {
    assert Word(0x61, 0x62, 0x63, 0x80) == 0x61626380;
    var first: seq<byte> := [0x61, 0x62, 0x63, 0x80];
    assert first[4..] == [];
  }

  const ABC_DIGEST: seq<byte> :=
    [0xa9, 0x99, 0x3e, 0x36, 0x47, 0x06, 0x81, 0x6a, 0xba, 0x3e,
     0x25, 0x71, 0x78, 0x50, 0xc2, 0x6c, 0x9c, 0xd0, 0xd8, 0x9d]

  /** The digest of `abc` is a9993e36 4706816a ba3e2571 7850c26c 9cd0d89d. */
  lemma {:induction false} AbcDigest()
    ensures Sha1Spec.Sha1([0x61, 0x62, 0x63]) == ABC_DIGEST
  {
    hide Compress, PaddedWords, HashBlocks, Digest;
    AbcPadded();
    HashLastBlock(H0, ABC_0);
    AbcCompressed();
    AbcBytes();
  }

  lemma {:induction false} AbcBytes()
    ensures Digest(Vars(0xa9993e36, 0x4706816a, 0xba3e2571, 0x7850c26c, 0x9cd0d89d)) == ABC_DIGEST
  {
    hide BytesOf;
    AbcBytes0();
    AbcBytes1();
    AbcBytes2();
    AbcBytes3();
    AbcBytes4();
  }

  lemma {:induction false} AbcBytes0()
    ensures BytesOf(0xa9993e36) == [0xa9, 0x99, 0x3e, 0x36]
  {
  }

  lemma {:induction false} AbcBytes1()
    ensures BytesOf(0x4706816a) == [0x47, 0x06, 0x81, 0x6a]
  {
  }

  lemma {:induction false} AbcBytes2()
    ensures BytesOf(0xba3e2571) == [0xba, 0x3e, 0x25, 0x71]
  {
  }

  lemma {:induction false} AbcBytes3()
    ensures BytesOf(0x7850c26c) == [0x78, 0x50, 0xc2, 0x6c]
  {
  }

  lemma {:induction false} AbcBytes4()
    ensures BytesOf(0x9cd0d89d) == [0x9c, 0xd0, 0xd8, 0x9d]
  {
  }
}
