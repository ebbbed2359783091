/** The compression function of SHA-256: the recursive definition of section 6.2 of RFC 6234 and the
    loops over arrays that compute it. */
module Sha256 {
  import opened Bytes
  import opened Sha256Constants

  /** A 32-bit word; addition is modulo 2^32. */
  datatype Word = Word(bits: bv32) {
    function Add(y: Word): Word {
      Word(Plus(bits, y.bits))
    }
  }

  function Plus(x: bv32, y: bv32): bv32 {
    x + y
  }

  function RoundConstant(i: nat): Word
    requires i < 64
  {
    Word(K[i])
  }

  function Rotr(x: bv32, n: nat): bv32
    requires 0 < n < 32
  {
    (x >> n) | (x << (32 - n))
  }

  function Xor3(x: bv32, y: bv32, z: bv32): bv32 {
    x ^ y ^ z
  }

  function Ch(x: Word, y: Word, z: Word): Word {
    Word((x.bits & y.bits) ^ (!x.bits & z.bits))
  }

  function Maj(x: Word, y: Word, z: Word): Word {
    Word((x.bits & y.bits) ^ (x.bits & z.bits) ^ (y.bits & z.bits))
  }

  function Sigma0(x: Word): Word {
    Word(Xor3(Rotr(x.bits, 2), Rotr(x.bits, 13), Rotr(x.bits, 22)))
  }

  function Sigma1(x: Word): Word {
    Word(Xor3(Rotr(x.bits, 6), Rotr(x.bits, 11), Rotr(x.bits, 25)))
  }

  function Gamma0(x: Word): Word {
    Word(Xor3(Rotr(x.bits, 7), Rotr(x.bits, 18), x.bits >> 3))
  }

  function Gamma1(x: Word): Word {
    Word(Xor3(Rotr(x.bits, 17), Rotr(x.bits, 19), x.bits >> 10))
  }

  // ---- section 6.2 of RFC 6234 ----

  /** Word t of the block, its first byte the most significant. */
  function BlockWord(block: seq<byte>, t: nat): Word
    requires |block| == 64 && t < 16
  {
    Pack(block[4 * t], block[4 * t + 1], block[4 * t + 2], block[4 * t + 3])
  }

  function Pack(a: byte, b: byte, c: byte, d: byte): Word {
    Word((a as bv32 << 24) | (b as bv32 << 16) | (c as bv32 << 8) | d as bv32)
  }

  /** The next word of a message schedule of at least sixteen words. */
  function Expand(w: seq<Word>): Word
    requires |w| >= 16
  {
    var t := |w|;
    Gamma1(w[t - 2]).Add(w[t - 7]).Add(Gamma0(w[t - 15])).Add(w[t - 16])
  }

  /** The first n words of the message schedule. */
  function Schedule(block: seq<byte>, n: nat): (w: seq<Word>)
    requires |block| == 64
    ensures |w| == n
  {
    if n == 0 then []
    else
      var w := Schedule(block, n - 1);
      w + [if n <= 16 then BlockWord(block, n - 1) else Expand(w)]
  }

  datatype Vars = Vars(a: Word, b: Word, c: Word, d: Word, e: Word, f: Word, g: Word, h: Word)

  function Round(v: Vars, k: Word, w: Word): Vars {
    var t1 := v.h.Add(Sigma1(v.e)).Add(Ch(v.e, v.f, v.g)).Add(k).Add(w);
    var t2 := Sigma0(v.a).Add(Maj(v.a, v.b, v.c));
    Vars(t1.Add(t2), v.a, v.b, v.c, v.d.Add(t1), v.e, v.f, v.g)
  }

  /** The working variables after n rounds. */
  function Rounds(v: Vars, w: seq<Word>, n: nat): Vars
    requires n <= |w| && n <= 64
  {
    if n == 0 then v else Round(Rounds(v, w, n - 1), RoundConstant(n - 1), w[n - 1])
  }

  function FromState(h: seq<Word>): Vars
    requires |h| == 8
  {
    Vars(h[0], h[1], h[2], h[3], h[4], h[5], h[6], h[7])
  }

  function AddVars(h: seq<Word>, v: Vars): (r: seq<Word>)
    requires |h| == 8
    ensures |r| == 8
  {
    [h[0].Add(v.a), h[1].Add(v.b), h[2].Add(v.c), h[3].Add(v.d),
     h[4].Add(v.e), h[5].Add(v.f), h[6].Add(v.g), h[7].Add(v.h)]
  }

  /** The intermediate hash value after one more block. */
  function Compress(h: seq<Word>, block: seq<byte>): (r: seq<Word>)
    requires |h| == 8 && |block| == 64
    ensures |r| == 8
  {
    AddVars(h, Rounds(FromState(h), Schedule(block, 64), 64))
  }

  lemma RotrIsRotation(x: bv32)
    ensures Rotr(x, 2) == x.RotateRight(2) && Rotr(x, 13) == x.RotateRight(13) && Rotr(x, 22) == x.RotateRight(22)
    ensures Rotr(x, 6) == x.RotateRight(6) && Rotr(x, 11) == x.RotateRight(11) && Rotr(x, 25) == x.RotateRight(25)
    ensures Rotr(x, 7) == x.RotateRight(7) && Rotr(x, 18) == x.RotateRight(18)
    ensures Rotr(x, 17) == x.RotateRight(17) && Rotr(x, 19) == x.RotateRight(19)
  {
  }

  // ---- the functions of section 5.1 of RFC 6234, with the language's own rotation ----

  function RfcSigma0(x: bv32): bv32 {
    Xor3(x.RotateRight(2), x.RotateRight(13), x.RotateRight(22))
  }

  function RfcSigma1(x: bv32): bv32 {
    Xor3(x.RotateRight(6), x.RotateRight(11), x.RotateRight(25))
  }

  function RfcGamma0(x: bv32): bv32 {
    Xor3(x.RotateRight(7), x.RotateRight(18), x >> 3)
  }

  function RfcGamma1(x: bv32): bv32 {
    Xor3(x.RotateRight(17), x.RotateRight(19), x >> 10)
  }

  lemma Sigma0IsRfc(x: Word)
    ensures Sigma0(x).bits == RfcSigma0(x.bits)
  {
    hide Rotr, Xor3, Sigma0, RfcSigma0;
    Sigma0Rotates(x);
    RfcSigma0Rotates(x.bits);
  }

  lemma Sigma0Rotates(x: Word)
    ensures Sigma0(x).bits == Xor3(Rotr(x.bits, 2), Rotr(x.bits, 13), Rotr(x.bits, 22))
  {
    hide Rotr, Xor3;
  }

  lemma RfcSigma0Rotates(x: bv32)
    ensures RfcSigma0(x) == Xor3(Rotr(x, 2), Rotr(x, 13), Rotr(x, 22))
  {
    hide Xor3;
    assert Rotr(x, 2) == x.RotateRight(2) && Rotr(x, 13) == x.RotateRight(13) && Rotr(x, 22) == x.RotateRight(22);
  }

  lemma Sigma1IsRfc(x: Word)
    ensures Sigma1(x).bits == RfcSigma1(x.bits)
  {
    hide Rotr, Xor3, Sigma1, RfcSigma1;
    Sigma1Rotates(x);
    RfcSigma1Rotates(x.bits);
  }

  lemma Sigma1Rotates(x: Word)
    ensures Sigma1(x).bits == Xor3(Rotr(x.bits, 6), Rotr(x.bits, 11), Rotr(x.bits, 25))
  {
    hide Rotr, Xor3;
  }

  lemma RfcSigma1Rotates(x: bv32)
    ensures RfcSigma1(x) == Xor3(Rotr(x, 6), Rotr(x, 11), Rotr(x, 25))
  {
    hide Xor3;
    assert Rotr(x, 6) == x.RotateRight(6) && Rotr(x, 11) == x.RotateRight(11) && Rotr(x, 25) == x.RotateRight(25);
  }

  lemma Gamma0IsRfc(x: Word)
    ensures Gamma0(x).bits == RfcGamma0(x.bits)
  {
    hide Rotr, Xor3, Gamma0, RfcGamma0;
    Gamma0Rotates(x);
    RfcGamma0Rotates(x.bits);
  }

  lemma Gamma0Rotates(x: Word)
    ensures Gamma0(x).bits == Xor3(Rotr(x.bits, 7), Rotr(x.bits, 18), x.bits >> 3)
  {
    hide Rotr, Xor3;
  }

  lemma RfcGamma0Rotates(x: bv32)
    ensures RfcGamma0(x) == Xor3(Rotr(x, 7), Rotr(x, 18), x >> 3)
  {
    hide Xor3;
    assert Rotr(x, 7) == x.RotateRight(7) && Rotr(x, 18) == x.RotateRight(18);
  }

  lemma Gamma1IsRfc(x: Word)
    ensures Gamma1(x).bits == RfcGamma1(x.bits)
  {
    hide Rotr, Xor3, Gamma1, RfcGamma1;
    Gamma1Rotates(x);
    RfcGamma1Rotates(x.bits);
  }

  lemma Gamma1Rotates(x: Word)
    ensures Gamma1(x).bits == Xor3(Rotr(x.bits, 17), Rotr(x.bits, 19), x.bits >> 10)
  {
    hide Rotr, Xor3;
  }

  lemma RfcGamma1Rotates(x: bv32)
    ensures RfcGamma1(x) == Xor3(Rotr(x, 17), Rotr(x, 19), x >> 10)
  {
    hide Xor3;
    assert Rotr(x, 17) == x.RotateRight(17) && Rotr(x, 19) == x.RotateRight(19);
  }

  /** Choosing: the bits of y where x has ones, those of z where it has zeros. */
  lemma ChChooses(x: Word, y: Word, z: Word)
    ensures Ch(x, y, z).bits & x.bits == y.bits & x.bits
    ensures Ch(x, y, z).bits & !x.bits == z.bits & !x.bits
  {
  }

  /** Majority: ones where two of the three have ones, and nowhere else. */
  lemma MajVotes(x: bv32, y: bv32, z: bv32)
    ensures Maj(Word(x), Word(y), Word(z)).bits == (x & y) | (z & (x | y))
  {
  }

  // ---- the loops ----

  lemma ScheduleStep(block: seq<byte>, n: nat)
    requires |block| == 64
    ensures n < 16 ==> Schedule(block, n + 1) == Schedule(block, n) + [BlockWord(block, n)]
    ensures n >= 16 ==> Schedule(block, n + 1) == Schedule(block, n) + [Expand(Schedule(block, n))]
  {
    hide BlockWord, Expand;
  }

  method FillSchedule(w: array<Word>, data: array<byte>)
    requires w.Length == 64 && data.Length == 64
    modifies w
    ensures data[..] == old(data[..]) && w[..] == Schedule(data[..], 64)
  {
    hide Schedule, Pack, Gamma0, Gamma1, Word.Add;
    ghost var block := data[..];
    ScheduleEmpty(block);
    for i := 0 to 16
      modifies w
      invariant data[..] == block && w[..i] == Schedule(block, i)
    {
      ScheduleStep(block, i);
      w[i] := Pack(data[i * 4], data[i * 4 + 1], data[i * 4 + 2], data[i * 4 + 3]);
    }
    for i := 16 to 64
      modifies w
      invariant data[..] == block && w[..i] == Schedule(block, i)
    {
      ScheduleStep(block, i);
      ghost var prefix := w[..i];
      w[i] := Gamma1(w[i - 2]).Add(w[i - 7]).Add(Gamma0(w[i - 15])).Add(w[i - 16]);
      assert w[i] == Expand(prefix);
      assert w[..i + 1] == prefix + [w[i]];
    }
  }

  lemma ScheduleEmpty(block: seq<byte>)
    requires |block| == 64
    ensures Schedule(block, 0) == []
  {
  }

  lemma RoundsStep(v: Vars, w: seq<Word>, n: nat)
    requires n < |w| && n < 64
    ensures Rounds(v, w, 0) == v
    ensures Rounds(v, w, n + 1) == Round(Rounds(v, w, n), RoundConstant(n), w[n])
  {
    hide Round, RoundConstant;
  }

  /** The sixty-four rounds over the eight working variables. */
  method RunRounds(start: Vars, w: array<Word>) returns (v: Vars)
    requires w.Length == 64
    ensures v == Rounds(start, w[..], 64)
  {
    hide Rounds, RoundConstant, Sigma0, Sigma1, Ch, Maj, Word.Add;
    var Vars(a, b, c, d, e, f, g, h) := start;
    RoundsStep(start, w[..], 0);
    for i := 0 to 64
      modifies {}
      invariant Vars(a, b, c, d, e, f, g, h) == Rounds(start, w[..], i)
    {
      RoundsStep(start, w[..], i);
      var t1 := h.Add(Sigma1(e)).Add(Ch(e, f, g)).Add(RoundConstant(i)).Add(w[i]);
      var t2 := Sigma0(a).Add(Maj(a, b, c));
      h := g;
      g := f;
      f := e;
      e := d.Add(t1);
      d := c;
      c := b;
      b := a;
      a := t1.Add(t2);
    }
    v := Vars(a, b, c, d, e, f, g, h);
  }

  /** Replaces the state by its compression with the block. */
  method Transform(state: array<Word>, data: array<byte>)
    requires state.Length == 8 && data.Length == 64
    modifies state
    ensures data[..] == old(data[..]) && state[..] == Compress(old(state[..]), old(data[..]))
  {
    hide Schedule, Rounds, Word.Add;
    ghost var block := data[..];
    var w := new Word[64];
    FillSchedule(w, data);
    ghost var start := state[..];
    var v := RunRounds(Vars(state[0], state[1], state[2], state[3], state[4], state[5], state[6], state[7]), w);
    state[0], state[1], state[2], state[3] := state[0].Add(v.a), state[1].Add(v.b), state[2].Add(v.c), state[3].Add(v.d);
    state[4], state[5], state[6], state[7] := state[4].Add(v.e), state[5].Add(v.f), state[6].Add(v.g), state[7].Add(v.h);
    assert state[..] == AddVars(start, v);
  }
}
