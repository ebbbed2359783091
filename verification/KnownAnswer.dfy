/** The first example of RFC 6234, section 8.5: the digest of "abc", word by word and round by round. */
module KnownAnswer {
  import opened Bytes
  import opened Hash
  import opened Padding
  import opened Sha256

  const ABC: seq<byte> := [0x61, 0x62, 0x63]

  function AbcBlock(): (block: seq<byte>)
    ensures |block| == BLOCK
  {
    ABC + [0x80] + Zeros(52) + LengthField(3)
  }

  lemma AbcPadded()
    ensures PaddedAsWritten(ABC) == AbcBlock()
  {
    hide LengthField, Zeros;
    assert ZerosAsWritten(3) == 52;
  }

  // ---- the message schedule ----

  function WordAt(t: nat): Word
    requires t < 64
  {
    Schedule(AbcBlock(), 64)[t]
  }

  lemma {:induction false} SchedulePrefix(block: seq<byte>, n: nat, m: nat)
    requires |block| == BLOCK && n <= m
    ensures Schedule(block, m)[..n] == Schedule(block, n)
    decreases m
  {
    hide BlockWord, Expand;
    if n < m {
      SchedulePrefix(block, n, m - 1);
      ScheduleStep(block, m - 1);
      assert Schedule(block, m)[..n] == Schedule(block, m - 1)[..n];
    }
  }

  lemma ScheduleAt(block: seq<byte>, t: nat)
    requires |block| == BLOCK && t < 64
    ensures var w := Schedule(block, 64);
      && (t < 16 ==> w[t] == BlockWord(block, t))
      && (t >= 16 ==> w[t] == Gamma1(w[t - 2]).Add(w[t - 7]).Add(Gamma0(w[t - 15])).Add(w[t - 16]))
  {
    hide Schedule, BlockWord, Gamma0, Gamma1, Word.Add;
    var w, v := Schedule(block, 64), Schedule(block, t);
    SchedulePrefix(block, t, 64);
    SchedulePrefix(block, t + 1, 64);
    ScheduleStep(block, t);
    assert w[t] == w[..t + 1][t];
    assert forall i :: 0 <= i < t ==> w[i] == w[..t][i] == v[i];
  }

  lemma AbcWord(t: nat)
    requires t < 16
    ensures BlockWord(AbcBlock(), t).bits == if t == 0 then 0x61626380 else if t == 15 then 0x00000018 else 0
  {
    hide Pack;
    LengthOfAbc();
    PackedWords();
  }

  lemma PackedWords()
    ensures Pack(0x61, 0x62, 0x63, 0x80).bits == 0x61626380
    ensures Pack(0, 0, 0, 0).bits == 0
    ensures Pack(0, 0, 0, 24).bits == 0x00000018
  {
  }

  lemma LengthOfAbc()
    ensures LengthField(3) == [0, 0, 0, 0, 0, 0, 0, 24]
  {
  }

  /** The block as words: the message with 0x80, zeros, and the length in bits. */
  lemma FirstWord(t: nat)
    requires t < 16
    ensures WordAt(t).bits == if t == 0 then 0x61626380 else if t == 15 then 0x00000018 else 0
  {
    hide Schedule, BlockWord;
    ScheduleAt(AbcBlock(), t);
    AbcWord(t);
  }

  lemma Words0()
    ensures WordAt(0).bits == 0x61626380 && WordAt(15).bits == 0x00000018
    ensures WordAt(1).bits == 0 && WordAt(2).bits == 0 && WordAt(3).bits == 0 && WordAt(4).bits == 0
    ensures WordAt(5).bits == 0 && WordAt(6).bits == 0 && WordAt(7).bits == 0 && WordAt(8).bits == 0
    ensures WordAt(9).bits == 0 && WordAt(10).bits == 0 && WordAt(11).bits == 0
    ensures WordAt(12).bits == 0 && WordAt(13).bits == 0 && WordAt(14).bits == 0
  {
    hide WordAt;
    FirstWord(0);
    forall t | 1 <= t < 15
      ensures WordAt(t).bits == 0
    {
      FirstWord(t);
    }
    FirstWord(15);
  }

  /** One more word, with the functions of section 5.1. */
  lemma NextWord(t: nat)
    requires 16 <= t < 64
    ensures WordAt(t).bits == Plus(Plus(Plus(
      RfcGamma1(WordAt(t - 2).bits), WordAt(t - 7).bits), RfcGamma0(WordAt(t - 15).bits)), WordAt(t - 16).bits)
  {
    hide Schedule, BlockWord, Gamma0, Gamma1, RfcGamma0, RfcGamma1, Plus;
    ScheduleAt(AbcBlock(), t);
    Gamma0IsRfc(WordAt(t - 15));
    Gamma1IsRfc(WordAt(t - 2));
  }

  lemma Words16()
    ensures WordAt(16).bits == 0x61626380 && WordAt(17).bits == 0x000f0000
    ensures WordAt(18).bits == 0x7da86405 && WordAt(19).bits == 0x600003c6
    ensures WordAt(20).bits == 0x3e9d7b78 && WordAt(21).bits == 0x0183fc00
    ensures WordAt(22).bits == 0x12dcbfdb && WordAt(23).bits == 0xe2e2c38e
    ensures WordAt(24).bits == 0xc8215c1a && WordAt(25).bits == 0xb73679a2
    ensures WordAt(26).bits == 0xe5bc3909 && WordAt(27).bits == 0x32663c5b
    ensures WordAt(28).bits == 0x9d209d67 && WordAt(29).bits == 0xec8726cb
    ensures WordAt(30).bits == 0x702138a4 && WordAt(31).bits == 0xd3b7973b
  {
    hide WordAt;
    Words0();
    NextWord(16);
    NextWord(17);
    NextWord(18);
    NextWord(19);
    NextWord(20);
    NextWord(21);
    NextWord(22);
    NextWord(23);
    NextWord(24);
    NextWord(25);
    NextWord(26);
    NextWord(27);
    NextWord(28);
    NextWord(29);
    NextWord(30);
    NextWord(31);
  }

  lemma Words32()
    ensures WordAt(32).bits == 0x93f5997f && WordAt(33).bits == 0x3b68ba73
    ensures WordAt(34).bits == 0xaff4ffc1 && WordAt(35).bits == 0xf10a5c62
    ensures WordAt(36).bits == 0x0a8b3996 && WordAt(37).bits == 0x72af830a
    ensures WordAt(38).bits == 0x9409e33e && WordAt(39).bits == 0x24641522
    ensures WordAt(40).bits == 0x9f47bf94 && WordAt(41).bits == 0xf0a64f5a
    ensures WordAt(42).bits == 0x3e246a79 && WordAt(43).bits == 0x27333ba3
    ensures WordAt(44).bits == 0x0c4763f2 && WordAt(45).bits == 0x840abf27
    ensures WordAt(46).bits == 0x7a290d5d && WordAt(47).bits == 0x065c43da
  {
    hide WordAt;
    Words16();
    NextWord(32);
    NextWord(33);
    NextWord(34);
    NextWord(35);
    NextWord(36);
    NextWord(37);
    NextWord(38);
    NextWord(39);
    NextWord(40);
    NextWord(41);
    NextWord(42);
    NextWord(43);
    NextWord(44);
    NextWord(45);
    NextWord(46);
    NextWord(47);
  }

  lemma Words48()
    ensures WordAt(48).bits == 0xfb3e89cb && WordAt(49).bits == 0xcc7617db
    ensures WordAt(50).bits == 0xb9e66c34 && WordAt(51).bits == 0xa9993667
    ensures WordAt(52).bits == 0x84badedd && WordAt(53).bits == 0xc21462bc
    ensures WordAt(54).bits == 0x1487472c && WordAt(55).bits == 0xb20f7a99
    ensures WordAt(56).bits == 0xef57b9cd && WordAt(57).bits == 0xebe6b238
    ensures WordAt(58).bits == 0x9fe3095e && WordAt(59).bits == 0x78bc8d4b
    ensures WordAt(60).bits == 0xa43fcf15 && WordAt(61).bits == 0x668b2ff8
    ensures WordAt(62).bits == 0xeeaba2cc && WordAt(63).bits == 0x12b1edeb
  {
    hide WordAt;
    Words32();
    NextWord(48);
    NextWord(49);
    NextWord(50);
    NextWord(51);
    NextWord(52);
    NextWord(53);
    NextWord(54);
    NextWord(55);
    NextWord(56);
    NextWord(57);
    NextWord(58);
    NextWord(59);
    NextWord(60);
    NextWord(61);
    NextWord(62);
    NextWord(63);
  }

  // ---- the rounds ----

  /** The working variables after n rounds. */
  function VarsAfter(n: nat): Vars
    requires n <= 64
  {
    Rounds(FromState(INITIAL), Schedule(AbcBlock(), 64), n)
  }

  ghost predicate HasBits(v: Vars, a: bv32, b: bv32, c: bv32, d: bv32, e: bv32, f: bv32, g: bv32, h: bv32) {
    && v.a.bits == a && v.b.bits == b && v.c.bits == c && v.d.bits == d
    && v.e.bits == e && v.f.bits == f && v.g.bits == g && v.h.bits == h
  }

  lemma RoundIs(v: Vars, k: Word, w: Word)
    ensures var r, t := Round(v, k, w), v.h.Add(Sigma1(v.e)).Add(Ch(v.e, v.f, v.g)).Add(k).Add(w);
      && r.a == t.Add(Sigma0(v.a).Add(Maj(v.a, v.b, v.c))) && r.b == v.a && r.c == v.b && r.d == v.c
      && r.e == v.d.Add(t) && r.f == v.e && r.g == v.f && r.h == v.g
  {
    hide Sigma0, Sigma1, Ch, Maj, Word.Add;
  }

  lemma SumsOfRound(v: Vars, k: Word, w: Word)
    ensures var r, t := Round(v, k, w),
        Plus(Plus(Plus(Plus(v.h.bits, Sigma1(v.e).bits), Ch(v.e, v.f, v.g).bits), k.bits), w.bits);
      && r.a.bits == Plus(t, Plus(Sigma0(v.a).bits, Maj(v.a, v.b, v.c).bits)) && r.e.bits == Plus(v.d.bits, t)
      && r.b == v.a && r.c == v.b && r.d == v.c && r.f == v.e && r.g == v.f && r.h == v.g
  {
    hide Round, Sigma0, Sigma1, Ch, Maj, Plus;
    RoundIs(v, k, w);
  }

  lemma Follows(n: nat)
    requires n < 64
    ensures VarsAfter(n + 1) == Round(VarsAfter(n), RoundConstant(n), WordAt(n))
  {
    hide Schedule, Rounds, Round, RoundConstant, FromState;
    RoundsStep(FromState(INITIAL), Schedule(AbcBlock(), 64), n);
  }

  /** One more round, with the functions of section 5.1. */
  lemma NextRound(n: nat)
    requires n < 64
    ensures var v, r := VarsAfter(n), VarsAfter(n + 1);
      var t := Plus(Plus(Plus(Plus(v.h.bits, RfcSigma1(v.e.bits)), Ch(v.e, v.f, v.g).bits), RoundConstant(n).bits),
                    WordAt(n).bits);
      && r.a.bits == Plus(t, Plus(RfcSigma0(v.a.bits), Maj(v.a, v.b, v.c).bits)) && r.e.bits == Plus(v.d.bits, t)
      && r.b == v.a && r.c == v.b && r.d == v.c && r.f == v.e && r.g == v.f && r.h == v.g
  {
    hide VarsAfter, WordAt, RoundConstant, Round, Sigma0, Sigma1, RfcSigma0, RfcSigma1, Ch, Maj, Plus;
    var v := VarsAfter(n);
    Follows(n);
    SumsOfRound(v, RoundConstant(n), WordAt(n));
    Sigma0IsRfc(v.a);
    Sigma1IsRfc(v.e);
  }

  lemma NoRounds()
    ensures HasBits(VarsAfter(0), 0x6a09e667, 0xbb67ae85, 0x3c6ef372, 0xa54ff53a,
                    0x510e527f, 0x9b05688c, 0x1f83d9ab, 0x5be0cd19)
  {
    hide Schedule;
    RoundsStep(FromState(INITIAL), Schedule(AbcBlock(), 64), 0);
  }

  lemma Constants0()
    ensures RoundConstant(0).bits == 0x428a2f98 && RoundConstant(1).bits == 0x71374491
    ensures RoundConstant(2).bits == 0xb5c0fbcf && RoundConstant(3).bits == 0xe9b5dba5
    ensures RoundConstant(4).bits == 0x3956c25b && RoundConstant(5).bits == 0x59f111f1
    ensures RoundConstant(6).bits == 0x923f82a4 && RoundConstant(7).bits == 0xab1c5ed5
  {
  }

  lemma Constants8()
    ensures RoundConstant(8).bits == 0xd807aa98 && RoundConstant(9).bits == 0x12835b01
    ensures RoundConstant(10).bits == 0x243185be && RoundConstant(11).bits == 0x550c7dc3
    ensures RoundConstant(12).bits == 0x72be5d74 && RoundConstant(13).bits == 0x80deb1fe
    ensures RoundConstant(14).bits == 0x9bdc06a7 && RoundConstant(15).bits == 0xc19bf174
  {
  }

  lemma Rounds16()
    ensures HasBits(VarsAfter(16), 0xb0fa238e, 0xc0645fde, 0xd932eb16, 0x87912990,
                    0x07590dcd, 0x0b92f20c, 0x745a48de, 0x1e578218)
  {
    hide WordAt, VarsAfter, RoundConstant;
    NoRounds();
    Constants0();
    Constants8();
    Words0();
    NextRound(0);
    NextRound(1);
    NextRound(2);
    NextRound(3);
    NextRound(4);
    NextRound(5);
    NextRound(6);
    NextRound(7);
    NextRound(8);
    NextRound(9);
    NextRound(10);
    NextRound(11);
    NextRound(12);
    NextRound(13);
    NextRound(14);
    NextRound(15);
  }

  lemma Constants16()
    ensures RoundConstant(16).bits == 0xe49b69c1 && RoundConstant(17).bits == 0xefbe4786
    ensures RoundConstant(18).bits == 0x0fc19dc6 && RoundConstant(19).bits == 0x240ca1cc
    ensures RoundConstant(20).bits == 0x2de92c6f && RoundConstant(21).bits == 0x4a7484aa
    ensures RoundConstant(22).bits == 0x5cb0a9dc && RoundConstant(23).bits == 0x76f988da
  {
  }

  lemma Constants24()
    ensures RoundConstant(24).bits == 0x983e5152 && RoundConstant(25).bits == 0xa831c66d
    ensures RoundConstant(26).bits == 0xb00327c8 && RoundConstant(27).bits == 0xbf597fc7
    ensures RoundConstant(28).bits == 0xc6e00bf3 && RoundConstant(29).bits == 0xd5a79147
    ensures RoundConstant(30).bits == 0x06ca6351 && RoundConstant(31).bits == 0x14292967
  {
  }

  lemma Rounds32()
    ensures HasBits(VarsAfter(32), 0x73b33bf5, 0xea992a22, 0xa0060b30, 0x363482c9,
                    0xba591112, 0x0109ab3a, 0xade79437, 0x6112a3b7)
  {
    hide WordAt, VarsAfter, RoundConstant;
    Rounds16();
    Constants16();
    Constants24();
    Words16();
    NextRound(16);
    NextRound(17);
    NextRound(18);
    NextRound(19);
    NextRound(20);
    NextRound(21);
    NextRound(22);
    NextRound(23);
    NextRound(24);
    NextRound(25);
    NextRound(26);
    NextRound(27);
    NextRound(28);
    NextRound(29);
    NextRound(30);
    NextRound(31);
  }

  lemma Constants32()
    ensures RoundConstant(32).bits == 0x27b70a85 && RoundConstant(33).bits == 0x2e1b2138
    ensures RoundConstant(34).bits == 0x4d2c6dfc && RoundConstant(35).bits == 0x53380d13
    ensures RoundConstant(36).bits == 0x650a7354 && RoundConstant(37).bits == 0x766a0abb
    ensures RoundConstant(38).bits == 0x81c2c92e && RoundConstant(39).bits == 0x92722c85
  {
  }

  lemma Constants40()
    ensures RoundConstant(40).bits == 0xa2bfe8a1 && RoundConstant(41).bits == 0xa81a664b
    ensures RoundConstant(42).bits == 0xc24b8b70 && RoundConstant(43).bits == 0xc76c51a3
    ensures RoundConstant(44).bits == 0xd192e819 && RoundConstant(45).bits == 0xd6990624
    ensures RoundConstant(46).bits == 0xf40e3585 && RoundConstant(47).bits == 0x106aa070
  {
  }

  lemma Rounds48()
    ensures HasBits(VarsAfter(48), 0x4172328d, 0xa14c14b0, 0x72ab4b91, 0x26628815,
                    0xfecf0bc6, 0xd57b94a9, 0xb7755da1, 0xa80f11f0)
  {
    hide WordAt, VarsAfter, RoundConstant;
    Rounds32();
    Constants32();
    Constants40();
    Words32();
    NextRound(32);
    NextRound(33);
    NextRound(34);
    NextRound(35);
    NextRound(36);
    NextRound(37);
    NextRound(38);
    NextRound(39);
    NextRound(40);
    NextRound(41);
    NextRound(42);
    NextRound(43);
    NextRound(44);
    NextRound(45);
    NextRound(46);
    NextRound(47);
  }

  lemma Constants48()
    ensures RoundConstant(48).bits == 0x19a4c116 && RoundConstant(49).bits == 0x1e376c08
    ensures RoundConstant(50).bits == 0x2748774c && RoundConstant(51).bits == 0x34b0bcb5
    ensures RoundConstant(52).bits == 0x391c0cb3 && RoundConstant(53).bits == 0x4ed8aa4a
    ensures RoundConstant(54).bits == 0x5b9cca4f && RoundConstant(55).bits == 0x682e6ff3
  {
  }

  lemma Constants56()
    ensures RoundConstant(56).bits == 0x748f82ee && RoundConstant(57).bits == 0x78a5636f
    ensures RoundConstant(58).bits == 0x84c87814 && RoundConstant(59).bits == 0x8cc70208
    ensures RoundConstant(60).bits == 0x90befffa && RoundConstant(61).bits == 0xa4506ceb
    ensures RoundConstant(62).bits == 0xbef9a3f7 && RoundConstant(63).bits == 0xc67178f2
  {
  }

  lemma Rounds64()
    ensures HasBits(VarsAfter(64), 0x506e3058, 0xd39a2165, 0x04d24d6c, 0xb85e2ce9,
                    0x5ef50f24, 0xfb121210, 0x948d25b6, 0x961f4894)
  {
    hide WordAt, VarsAfter, RoundConstant;
    Rounds48();
    Constants48();
    Constants56();
    Words48();
    NextRound(48);
    NextRound(49);
    NextRound(50);
    NextRound(51);
    NextRound(52);
    NextRound(53);
    NextRound(54);
    NextRound(55);
    NextRound(56);
    NextRound(57);
    NextRound(58);
    NextRound(59);
    NextRound(60);
    NextRound(61);
    NextRound(62);
    NextRound(63);
  }

  // ---- the digest ----

  lemma AddIs(u: Word, v: Word)
    ensures u.Add(v).bits == Plus(u.bits, v.bits)
  {
    hide Plus;
  }

  lemma AbcState()
    ensures Compress(INITIAL, AbcBlock())
         == [Word(0xba7816bf), Word(0x8f01cfea), Word(0x414140de), Word(0x5dae2223),
             Word(0xb00361a3), Word(0x96177a9c), Word(0xb410ff61), Word(0xf20015ad)]
  {
    hide Schedule, Rounds, Word.Add;
    Rounds64();
    var v := VarsAfter(64);
    AddIs(INITIAL[0], v.a);
    AddIs(INITIAL[1], v.b);
    AddIs(INITIAL[2], v.c);
    AddIs(INITIAL[3], v.d);
    AddIs(INITIAL[4], v.e);
    AddIs(INITIAL[5], v.f);
    AddIs(INITIAL[6], v.g);
    AddIs(INITIAL[7], v.h);
  }

  lemma AbcHashed()
    ensures HashOf(PaddedAsWritten(ABC)) == Compress(INITIAL, AbcBlock())
  {
    hide Compress, AbcBlock;
    AbcPadded();
    FoldOneMore(INITIAL, [], AbcBlock(), 0);
    assert [] + AbcBlock() == AbcBlock();
  }

  lemma HexOfWord(h: seq<Word>, x: bv32, v: nat, text: string)
    requires x as nat == v && HexOfNat(v, 8) == text
    ensures HexText(h + [Word(x)]) == HexText(h) + text
  {
    hide HexOfNat, HexText;
    HexStep(h, Word(x));
  }

  lemma HexUnfolds(v: nat, n: nat, q: nat, d: nat)
    requires d < 16 && v == 16 * q + d
    ensures HexOfNat(v, n + 1) == HexOfNat(q, n) + [HexDigit(d)]
  {
  }

  /** Eight digits, from the most significant on. */
  lemma EightDigits(v: nat, d: seq<nat>)
    requires |d| == 8 && forall i :: 0 <= i < 8 ==> d[i] < 16
    requires v == 16 * (16 * (16 * (16 * (16 * (16 * (16 * d[0] + d[1]) + d[2]) + d[3]) + d[4]) + d[5]) + d[6]) + d[7]
    ensures HexOfNat(v, 8) == seq(8, i requires 0 <= i < 8 => HexDigit(d[i]))
  {
    hide HexOfNat, HexDigit;
    var q1 := 16 * d[0] + d[1];
    var q2 := 16 * q1 + d[2];
    var q3 := 16 * q2 + d[3];
    var q4 := 16 * q3 + d[4];
    var q5 := 16 * q4 + d[5];
    var q6 := 16 * q5 + d[6];
    HexUnfolds(v, 7, q6, d[7]);
    HexUnfolds(q6, 6, q5, d[6]);
    HexUnfolds(q5, 5, q4, d[5]);
    HexUnfolds(q4, 4, q3, d[4]);
    HexUnfolds(q3, 3, q2, d[3]);
    HexUnfolds(q2, 2, q1, d[2]);
    HexUnfolds(q1, 1, d[0], d[1]);
    HexUnfolds(d[0], 0, 0, d[0]);
    HexNone(0);
  }

  lemma HexNone(v: nat)
    ensures HexOfNat(v, 0) == ""
  {
  }

  lemma Numbers()
    ensures 0xba7816bf as bv32 as nat == 3128432319
    ensures 0x8f01cfea as bv32 as nat == 2399260650
    ensures 0x414140de as bv32 as nat == 1094795486
    ensures 0x5dae2223 as bv32 as nat == 1571693091
    ensures 0xb00361a3 as bv32 as nat == 2953011619
    ensures 0x96177a9c as bv32 as nat == 2518121116
    ensures 0xb410ff61 as bv32 as nat == 3021012833
    ensures 0xf20015ad as bv32 as nat == 4060091821
  {
  }

  lemma Hex0()
    ensures HexOfNat(3128432319, 8) == "ba7816bf"
  {
    EightDigits(3128432319, [11, 10, 7, 8, 1, 6, 11, 15]);
  }

  lemma Hex1()
    ensures HexOfNat(2399260650, 8) == "8f01cfea"
  {
    EightDigits(2399260650, [8, 15, 0, 1, 12, 15, 14, 10]);
  }

  lemma Hex2()
    ensures HexOfNat(1094795486, 8) == "414140de"
  {
    EightDigits(1094795486, [4, 1, 4, 1, 4, 0, 13, 14]);
  }

  lemma Hex3()
    ensures HexOfNat(1571693091, 8) == "5dae2223"
  {
    EightDigits(1571693091, [5, 13, 10, 14, 2, 2, 2, 3]);
  }

  lemma Hex4()
    ensures HexOfNat(2953011619, 8) == "b00361a3"
  {
    EightDigits(2953011619, [11, 0, 0, 3, 6, 1, 10, 3]);
  }

  lemma Hex5()
    ensures HexOfNat(2518121116, 8) == "96177a9c"
  {
    EightDigits(2518121116, [9, 6, 1, 7, 7, 10, 9, 12]);
  }

  lemma Hex6()
    ensures HexOfNat(3021012833, 8) == "b410ff61"
  {
    EightDigits(3021012833, [11, 4, 1, 0, 15, 15, 6, 1]);
  }

  lemma Hex7()
    ensures HexOfNat(4060091821, 8) == "f20015ad"
  {
    EightDigits(4060091821, [15, 2, 0, 0, 1, 5, 10, 13]);
  }

  lemma AbcWords() returns (h: seq<Word>)
    ensures h == Compress(INITIAL, AbcBlock())
    ensures HexText(h) == "ba7816bf" + "8f01cfea" + "414140de" + "5dae2223"
                       + "b00361a3" + "96177a9c" + "b410ff61" + "f20015ad"
  {
    hide Compress, AbcBlock, HexText, HexOfNat;
    AbcState();
    Numbers();
    h := [];
    HexNothing();
    Hex0();
    HexStep(h, Word(0xba7816bf));
    h := h + [Word(0xba7816bf)];
    Hex1();
    HexStep(h, Word(0x8f01cfea));
    h := h + [Word(0x8f01cfea)];
    Hex2();
    HexStep(h, Word(0x414140de));
    h := h + [Word(0x414140de)];
    Hex3();
    HexStep(h, Word(0x5dae2223));
    h := h + [Word(0x5dae2223)];
    Hex4();
    HexStep(h, Word(0xb00361a3));
    h := h + [Word(0xb00361a3)];
    Hex5();
    HexStep(h, Word(0x96177a9c));
    h := h + [Word(0x96177a9c)];
    Hex6();
    HexStep(h, Word(0xb410ff61));
    h := h + [Word(0xb410ff61)];
    Hex7();
    HexStep(h, Word(0xf20015ad));
    h := h + [Word(0xf20015ad)];
  }

  lemma HexNothing()
    ensures HexText([]) == ""
    ensures forall s: string :: "" + s == s
  {
  }

  /** The digest of "abc" is the one RFC 6234 gives. */
  lemma AbcDigest()
    ensures Digest(ABC) == "ba7816bf" + "8f01cfea" + "414140de" + "5dae2223"
                        + "b00361a3" + "96177a9c" + "b410ff61" + "f20015ad"
  {
    hide Compress, AbcBlock, HexText, PaddedAsWritten, HashOf;
    AbcHashed();
    var h := AbcWords();
  }
}
