/** sha256_bytes and sha256_file: the block buffer, the padding and the hexadecimal text. */
module Hash {
  import opened Bytes
  import opened Padding
  import opened Sequences
  import opened Sha256
  import opened Wrappers
  import Constants = Sha256Constants

  const INITIAL: seq<Word> := [
    Word(Constants.INITIAL[0]), Word(Constants.INITIAL[1]), Word(Constants.INITIAL[2]), Word(Constants.INITIAL[3]),
    Word(Constants.INITIAL[4]), Word(Constants.INITIAL[5]), Word(Constants.INITIAL[6]), Word(Constants.INITIAL[7])]

  /** The hash value after the first n blocks of a stream. */
  function Fold(h: seq<Word>, stream: seq<byte>, n: nat): (r: seq<Word>)
    requires |h| == 8 && BLOCK * n <= |stream|
    ensures |r| == 8
  {
    if n == 0 then h else Compress(Fold(h, stream, n - 1), stream[BLOCK * (n - 1)..BLOCK * n])
  }

  lemma {:induction false} FoldOfPrefix(h: seq<Word>, s: seq<byte>, t: seq<byte>, n: nat)
    requires |h| == 8 && BLOCK * n <= |s|
    ensures Fold(h, s + t, n) == Fold(h, s, n)
  {
    hide Compress;
    if n > 0 {
      FoldOfPrefix(h, s, t, n - 1);
      assert (s + t)[BLOCK * (n - 1)..BLOCK * n] == s[BLOCK * (n - 1)..BLOCK * n];
    }
  }

  /** n whole blocks of the stream are in the state, the rest waits in the buffer. */
  ghost predicate Holds(state: seq<Word>, block: seq<byte>, buffered: nat, stream: seq<byte>, n: nat) {
    && |block| == BLOCK && buffered <= BLOCK
    && |stream| == BLOCK * n + buffered
    && block[..buffered] == stream[BLOCK * n..]
    && state == Fold(INITIAL, stream, n)
  }

  lemma HoldsAtStart(block: seq<byte>)
    requires |block| == BLOCK
    ensures Holds(INITIAL, block, 0, [], 0)
  {
    assert block[..0] == [];
  }

  lemma HoldsAfterCopy(state: seq<Word>, block: seq<byte>, after: seq<byte>, buffered: nat, stream: seq<byte>, n: nat,
                       bytes: seq<byte>)
    requires Holds(state, block, buffered, stream, n)
    requires |after| == BLOCK && buffered + |bytes| <= BLOCK
    requires after[..buffered + |bytes|] == block[..buffered] + bytes
    ensures Holds(state, after, buffered + |bytes|, stream + bytes, n)
  {
    hide Compress, Fold;
    FoldOfPrefix(INITIAL, stream, bytes, n);
  }

  lemma HoldsAfterFlush(state: seq<Word>, block: seq<byte>, stream: seq<byte>, n: nat)
    requires Holds(state, block, BLOCK, stream, n)
    ensures Holds(Compress(state, block), block, 0, stream, n + 1)
  {
    hide Compress;
    assert stream[BLOCK * n..BLOCK * (n + 1)] == stream[BLOCK * n..] == block[..BLOCK] == block;
    assert block[..0] == [] == stream[BLOCK * (n + 1)..];
  }

  /** Copies bytes into the block, behind those already there. */
  method CopyInto(block: array<byte>, at: nat, bytes: seq<byte>)
    requires at + |bytes| <= block.Length
    modifies block
    ensures block[..at + |bytes|] == old(block[..at]) + bytes
  {
    forall i | 0 <= i < |bytes| {
      block[at + i] := bytes[i];
    }
  }

  method Flush(state: array<Word>, block: array<byte>, ghost stream: seq<byte>, ghost n: nat)
    requires state.Length == 8 && block.Length == BLOCK && Holds(state[..], block[..], BLOCK, stream, n)
    modifies state
    ensures Holds(state[..], block[..], 0, stream, n + 1)
  {
    hide Holds, Compress;
    HoldsAfterFlush(state[..], block[..], stream, n);
    Transform(state, block);
  }

  /** One pass of the buffer loop: as much as the block has room for, and a flush when it is full. */
  method AbsorbSome(state: array<Word>, block: array<byte>, buffered: nat, data: seq<byte>, ghost stream: seq<byte>,
                    ghost n: nat)
    returns (chunk: nat, after: nat, ghost blocks: nat)
    requires state.Length == 8 && block.Length == BLOCK && buffered < BLOCK && data != []
    requires Holds(state[..], block[..], buffered, stream, n)
    modifies state, block
    ensures 0 < chunk <= |data| && after < BLOCK
    ensures Holds(state[..], block[..], after, stream + data[..chunk], blocks)
  {
    hide Holds;
    chunk := if |data| < BLOCK - buffered then |data| else BLOCK - buffered;
    ghost var before := block[..];
    CopyInto(block, buffered, data[..chunk]);
    assert block[..][..buffered + chunk] == before[..buffered] + data[..chunk];
    HoldsAfterCopy(state[..], before, block[..], buffered, stream, n, data[..chunk]);
    after, blocks := buffered + chunk, n;
    if after == BLOCK {
      Flush(state, block, stream + data[..chunk], n);
      after, blocks := 0, n + 1;
    }
  }

  /** The buffer loop. */
  method Absorb(state: array<Word>, block: array<byte>, buffered: nat, data: seq<byte>, ghost stream: seq<byte>,
                ghost n: nat)
    returns (after: nat, ghost blocks: nat)
    requires state.Length == 8 && block.Length == BLOCK && buffered < BLOCK
    requires Holds(state[..], block[..], buffered, stream, n)
    modifies state, block
    ensures after < BLOCK && Holds(state[..], block[..], after, stream + data, blocks)
  {
    hide Holds;
    var offset := 0;
    after, blocks := buffered, n;
    assert stream + data[..0] == stream;
    while offset < |data|
      modifies state, block
      invariant offset <= |data| && after < BLOCK
      invariant Holds(state[..], block[..], after, stream + data[..offset], blocks)
      decreases |data| - offset
    {
      var chunk;
      chunk, after, blocks := AbsorbSome(state, block, after, data[offset..], stream + data[..offset], blocks);
      assert data[offset..][..chunk] == data[offset..offset + chunk];
      assert (stream + data[..offset]) + data[offset..offset + chunk] == stream + data[..offset + chunk];
      offset := offset + chunk;
    }
    assert data[..offset] == data;
  }

  /** The eight length bytes, written from the last to the first. */
  method StoreLength(block: array<byte>, bitlen: nat)
    requires block.Length == BLOCK
    modifies block
    ensures block[..BLOCK] == old(block[..56]) + BigEndian(bitlen, 8)
  {
    hide BigEndian;
    ghost var before := block[..56];
    var left, i := bitlen, 8;
    while i > 0
      modifies block
      invariant 0 <= i <= 8 && block[..56] == before
      invariant BigEndian(left, i) + block[56 + i..] == BigEndian(bitlen, 8)
    {
      i := i - 1;
      BigEndianShift(left, i, block[56 + i + 1..]);
      block[56 + i] := left % 256;
      assert block[56 + i..] == [left % 256] + block[56 + i + 1..];
      left := left / 256;
    }
    BigEndianUnfolds(left, 0);
    assert block[56..] == BigEndian(bitlen, 8);
  }

  lemma BigEndianShift(v: nat, n: nat, rest: seq<byte>)
    ensures BigEndian(v, n + 1) + rest == BigEndian(v / 256, n) + ([v % 256] + rest)
  {
    hide BigEndian;
    BigEndianUnfolds(v, n);
    Associate(BigEndian(v / 256, n), [v % 256], rest);
  }

  method Put(state: array<Word>, block: array<byte>, buffered: nat, bytes: seq<byte>, ghost stream: seq<byte>,
             ghost n: nat)
    requires state.Length == 8 && block.Length == BLOCK && buffered + |bytes| <= BLOCK
    requires Holds(state[..], block[..], buffered, stream, n)
    modifies block
    ensures Holds(state[..], block[..], buffered + |bytes|, stream + bytes, n)
  {
    hide Holds;
    ghost var before := block[..];
    CopyInto(block, buffered, bytes);
    assert block[..][..buffered + |bytes|] == before[..buffered] + bytes;
    HoldsAfterCopy(state[..], before, block[..], buffered, stream, n, bytes);
  }

  /** 0x80, zeros, the bit length. */
  method Pad(state: array<Word>, block: array<byte>, buffered: nat, total: nat, ghost m: seq<byte>, ghost n: nat)
    requires state.Length == 8 && block.Length == BLOCK && buffered < BLOCK && total == |m|
    requires Holds(state[..], block[..], buffered, m, n)
    modifies state, block
    ensures state[..] == Fold(INITIAL, PaddedAsWritten(m), |PaddedAsWritten(m)| / BLOCK)
  {
    hide Holds, Fold, LengthField;
    BufferedIs(state[..], block[..], buffered, m, n);
    var bitlen := total * 8 % TWO_64;
    Put(state, block, buffered, [0x80], m, n);
    var used := buffered + 1;
    ghost var stream, blocks, zeros := m + [0x80], n, 0;
    if used >= 56 {
      zeros := BLOCK - used;
      Put(state, block, used, Zeros(BLOCK - used), stream, blocks);
      stream := stream + Zeros(BLOCK - used);
      Flush(state, block, stream, blocks);
      used, blocks := 0, blocks + 1;
    } else {
      assert stream + Zeros(0) == stream;
    }
    Put(state, block, used, Zeros(56 - used), stream, blocks);
    MoreZeros(m + [0x80], zeros, 56 - used);
    stream := m + [0x80] + Zeros(ZerosAsWritten(|m|));
    LengthFieldIs(total);
    ghost var before := block[..];
    StoreLength(block, bitlen);
    assert block[..][..BLOCK] == before[..56] + LengthField(total);
    HoldsAfterCopy(state[..], before, block[..], 56, stream, blocks, LengthField(total));
    Flush(state, block, PaddedAsWritten(m), blocks);
    AllBlocks(state[..], block[..], PaddedAsWritten(m), blocks + 1);
  }

  lemma LengthFieldIs(n: nat)
    ensures LengthField(n) == BigEndian(n * 8 % TWO_64, 8)
  {
    hide BigEndian;
  }

  lemma MoreZeros(s: seq<byte>, a: nat, b: nat)
    ensures s + Zeros(a) + Zeros(b) == s + Zeros(a + b)
  {
  }

  lemma BufferedIs(state: seq<Word>, block: seq<byte>, buffered: nat, stream: seq<byte>, n: nat)
    requires Holds(state, block, buffered, stream, n) && buffered < BLOCK
    ensures |stream| % BLOCK == buffered
  {
    hide Fold;
  }

  lemma AllBlocks(state: seq<Word>, block: seq<byte>, stream: seq<byte>, n: nat)
    requires Holds(state, block, 0, stream, n)
    ensures state == Fold(INITIAL, stream, |stream| / BLOCK)
  {
    hide Fold;
    assert |stream| == BLOCK * n;
  }

  // ---- the text ----

  function HexDigit(d: nat): char
    requires d < 16
  {
    if d < 10 then ('0' as int + d) as char else ('a' as int + d - 10) as char
  }

  /** The last n hexadecimal digits of v, with leading zeros. */
  function HexOfNat(v: nat, n: nat): (s: string)
    ensures |s| == n
  {
    if n == 0 then "" else HexOfNat(v / 16, n - 1) + [HexDigit(v % 16)]
  }

  function HexText(h: seq<Word>): (s: string)
    ensures |s| == 8 * |h|
  {
    if h == [] then "" else HexText(h[..|h| - 1]) + HexOfNat(h[|h| - 1].bits as nat, 8)
  }

  ghost function Pow16(n: nat): nat {
    if n == 0 then 1 else 16 * Pow16(n - 1)
  }

  lemma {:induction false} HexOfNatInjective(v: nat, u: nat, n: nat)
    requires v < Pow16(n) && u < Pow16(n) && HexOfNat(v, n) == HexOfNat(u, n)
    ensures v == u
  {
    if n > 0 {
      var s, t := HexOfNat(v, n), HexOfNat(u, n);
      assert s[..n - 1] == HexOfNat(v / 16, n - 1) && t[..n - 1] == HexOfNat(u / 16, n - 1);
      assert s[n - 1] == HexDigit(v % 16) && t[n - 1] == HexDigit(u % 16);
      HexOfNatInjective(v / 16, u / 16, n - 1);
    }
  }

  lemma WordFitsEightDigits(w: Word)
    ensures w.bits as nat < Pow16(8)
  {
    assert Pow16(2) == 256 && Pow16(4) == 0x1_0000 && Pow16(6) == 0x100_0000 && Pow16(8) == TWO_32;
  }

  lemma WordFromNat(v: Word, u: Word)
    requires v.bits as nat == u.bits as nat
    ensures v == u
  {
    assert (v.bits as nat) as bv32 == v.bits && (u.bits as nat) as bv32 == u.bits;
  }

  /** Equal texts come from equal hash values. */
  lemma {:induction false} HexTextInjective(h: seq<Word>, g: seq<Word>)
    requires HexText(h) == HexText(g)
    ensures h == g
  {
    hide HexOfNat, Pow16;
    if h != [] {
      assert |g| == |h|;
      var n := |h| - 1;
      var s, t := HexText(h), HexText(g);
      assert s[..8 * n] == HexText(h[..n]) && t[..8 * n] == HexText(g[..n]);
      assert s[8 * n..] == HexOfNat(h[n].bits as nat, 8) && t[8 * n..] == HexOfNat(g[n].bits as nat, 8);
      HexTextInjective(h[..n], g[..n]);
      WordFitsEightDigits(h[n]);
      WordFitsEightDigits(g[n]);
      HexOfNatInjective(h[n].bits as nat, g[n].bits as nat, 8);
      WordFromNat(h[n], g[n]);
      assert h == h[..n] + [h[n]] && g == g[..n] + [g[n]];
    }
  }

  // ---- the two functions ----

  /** The hash value of a padded message. */
  function HashOf(padded: seq<byte>): (h: seq<Word>)
    ensures |h| == 8
  {
    Fold(INITIAL, padded, |padded| / BLOCK)
  }

  /** What both functions return for the message. */
  function Digest(m: seq<byte>): string {
    HexText(HashOf(PaddedAsWritten(m)))
  }

  /** Sections 4.1 and 6.2 of RFC 6234: the digest is the prescribed one unless the length is 55 modulo 64. */
  lemma DigestConforms(m: seq<byte>)
    requires |m| % BLOCK != 55
    ensures forall padded :: IsRfcPadding(m, padded) ==> Digest(m) == HexText(HashOf(padded))
  {
    hide HashOf, HexText, IsRfcPadding, PaddedAsWritten;
    PaddingConformsIff(m);
    forall padded | IsRfcPadding(m, padded)
      ensures Digest(m) == HexText(HashOf(padded))
    {
      RfcPaddingIsUnique(m, padded, PaddedAsWritten(m));
    }
  }

  lemma RfcPaddingIsUnique(m: seq<byte>, p: seq<byte>, q: seq<byte>)
    requires IsRfcPadding(m, p) && IsRfcPadding(m, q)
    ensures p == q
  {
    hide FewestZeros, LengthField;
    var j: nat :| FewestZeros(|m|, j) && p == m + [0x80] + Zeros(j) + LengthField(|m|);
    var k: nat :| FewestZeros(|m|, k) && q == m + [0x80] + Zeros(k) + LengthField(|m|);
    FewestIsUnique(|m|, j, k);
  }

  /** At 55 modulo 64 the prescribed hash compresses one last block, the code that block with zeros for the
      length and then another. */
  lemma HashAt55(m: seq<byte>, padded: seq<byte>)
    requires |m| % BLOCK == 55 && IsRfcPadding(m, padded)
    ensures var q := |m| / BLOCK;
      var before, tail := Fold(INITIAL, m, q), m[BLOCK * q..] + [0x80];
      && |tail| == 56
      && HashOf(padded) == Compress(before, tail + LengthField(|m|))
      && HashOf(PaddedAsWritten(m)) == Compress(Compress(before, tail + Zeros(8)), Zeros(56) + LengthField(|m|))
  {
    hide Compress, LengthField, IsRfcPadding, PaddedAsWritten, Fold;
    ExtraBlock(m, padded);
    var q, len := |m| / BLOCK, LengthField(|m|);
    var tail := m[BLOCK * q..] + [0x80];
    var body := m[..BLOCK * q];
    FoldOfPrefix(INITIAL, body, m[BLOCK * q..], q);
    assert body + m[BLOCK * q..] == m;
    assert padded == body + (tail + len);
    assert PaddedAsWritten(m) == body + (tail + Zeros(8)) + (Zeros(56) + len);
    FoldOneMore(INITIAL, body, tail + len, q);
    FoldOneMore(INITIAL, body, tail + Zeros(8), q);
    FoldOneMore(INITIAL, body + (tail + Zeros(8)), Zeros(56) + len, q + 1);
  }

  lemma FoldOneMore(h: seq<Word>, s: seq<byte>, block: seq<byte>, n: nat)
    requires |h| == 8 && |s| == BLOCK * n && |block| == BLOCK
    ensures Fold(h, s + block, n + 1) == Compress(Fold(h, s, n), block)
  {
    hide Compress;
    FoldOfPrefix(h, s, block, n);
    assert (s + block)[BLOCK * n..BLOCK * (n + 1)] == block;
  }

  method PrintHex(state: array<Word>) returns (text: string)
    requires state.Length == 8
    ensures text == HexText(state[..])
  {
    hide HexOfNat, HexText;
    text := "";
    HexStep(state[..0], state[0]);
    for i := 0 to 8
      modifies {}
      invariant text == HexText(state[..i])
    {
      HexStep(state[..i], state[i]);
      assert state[..i + 1] == state[..i] + [state[i]];
      text := text + HexOfNat(state[i].bits as nat, 8);
    }
    assert state[..8] == state[..];
  }

  lemma HexStep(h: seq<Word>, w: Word)
    ensures HexText([]) == ""
    ensures HexText(h + [w]) == HexText(h) + HexOfNat(w.bits as nat, 8)
  {
    hide HexOfNat;
    assert (h + [w])[..|h|] == h;
  }

  method InitialState() returns (state: array<Word>)
    ensures fresh(state) && state[..] == INITIAL
  {
    state := new Word[8](i requires 0 <= i < 8 => INITIAL[i]);
  }

  method Sha256Bytes(data: seq<byte>) returns (text: string)
    ensures text == Digest(data)
  {
    hide Holds, Fold, HexText, PaddedAsWritten;
    var state := InitialState();
    var block := new byte[BLOCK];
    HoldsAtStart(block[..]);
    var buffered, n := Absorb(state, block, 0, data, [], 0);
    assert [] + data == data;
    Pad(state, block, buffered, |data|, data, n);
    text := PrintHex(state);
  }

  /** An open file: its content, the read position and the count of the last read. */
  class InputFile {
    const content: seq<byte>
    var pos: nat
    var count: nat

    constructor (content: seq<byte>)
      ensures this.content == content && pos == 0 && count == 0
    {
      this.content, pos, count := content, 0, 0;
    }

    /** Fills the buffer as far as the content goes and says whether it was filled. */
    method Read(buffer: array<byte>) returns (full: bool)
      requires pos <= |content|
      modifies this, buffer
      ensures count == if |content| - old(pos) < buffer.Length then |content| - old(pos) else buffer.Length
      ensures pos == old(pos) + count && buffer[..count] == content[old(pos)..pos]
      ensures full == (count == buffer.Length)
    {
      count := if |content| - pos < buffer.Length then |content| - pos else buffer.Length;
      forall i | 0 <= i < count {
        buffer[i] := content[pos + i];
      }
      pos := pos + count;
      full := count == buffer.Length;
    }
  }

  const READ_SIZE := 65536

  /** The text for a file, however long; "" when it does not open. */
  method Sha256File(file: Option<seq<byte>>) returns (text: string)
    ensures text == match file case None => "" case Some(content) => Digest(content)
  {
    hide Holds, Fold, HexText, PaddedAsWritten, HashOf;
    if file.None? {
      return "";
    }
    var input := new InputFile(file.value);
    var buffer := new byte[READ_SIZE];
    var state := InitialState();
    var block := new byte[BLOCK];
    HoldsAtStart(block[..]);
    var total: nat, buffered: nat := 0, 0;
    ghost var n: nat := 0;
    var full := input.Read(buffer);
    while full
      modifies input, buffer, state, block
      invariant input.pos <= |input.content| && total + input.count == input.pos
      invariant input.count <= buffer.Length && full == (input.count == READ_SIZE)
      invariant !full ==> input.pos == |input.content|
      invariant buffer[..input.count] == input.content[total..input.pos]
      invariant buffered < BLOCK && Holds(state[..], block[..], buffered, input.content[..total], n)
      decreases |input.content| - total
    {
      ghost var seen := input.content[..total];
      buffered, n := Absorb(state, block, buffered, buffer[..input.count], seen, n);
      assert seen + input.content[total..input.pos] == input.content[..input.pos];
      total := total + input.count;
      full := input.Read(buffer);
    }
    if input.count > 0 {
      ghost var seen := input.content[..total];
      buffered, n := Absorb(state, block, buffered, buffer[..input.count], seen, n);
      assert seen + input.content[total..input.pos] == input.content[..input.pos];
      total := total + input.count;
    }
    assert input.content[..total] == file.value;
    Pad(state, block, buffered, total, file.value, n);
    text := PrintHex(state);
    DigestIs(file.value);
  }

  lemma DigestIs(m: seq<byte>)
    ensures Digest(m) == HexText(Fold(INITIAL, PaddedAsWritten(m), |PaddedAsWritten(m)| / BLOCK))
  {
  }
}
