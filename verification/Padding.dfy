/** What the hash functions feed to the compression function after the message, against section 4.1 of
    RFC 6234.  Lengths are in bytes. */
module Padding {
  import opened Bytes

  const BLOCK := 64

  function Zeros(n: nat): (z: seq<byte>)
    ensures |z| == n
  {
    seq(n, _ => 0)
  }

  /** The bit length in eight bytes, modulo 2^64. */
  function LengthField(n: nat): (s: seq<byte>)
    ensures |s| == 8
  {
    BigEndian(8 * n % TWO_64, 8)
  }

  /** The zero bytes written after 0x80: the test for a further block is made after 0x80 is stored, and
      takes 56 bytes in the block as too many. */
  function ZerosAsWritten(n: nat): nat {
    var buffered := n % BLOCK + 1;
    if buffered >= 56 then (BLOCK - buffered) + 56 else 56 - buffered
  }

  function PaddedAsWritten(m: seq<byte>): seq<byte> {
    m + [0x80] + Zeros(ZerosAsWritten(|m|)) + LengthField(|m|)
  }

  /** k zero bytes after 0x80 bring the message to 56 modulo 64. */
  ghost predicate Fits(n: nat, k: nat) {
    (n + 1 + k) % BLOCK == 56
  }

  /** Section 4.1: the fewest zeros that fit. */
  ghost predicate IsRfcPadding(m: seq<byte>, padded: seq<byte>) {
    exists k: nat :: FewestZeros(|m|, k) && padded == m + [0x80] + Zeros(k) + LengthField(|m|)
  }

  ghost predicate FewestZeros(n: nat, k: nat) {
    Fits(n, k) && forall j: nat :: j < k ==> !Fits(n, j)
  }

  lemma FewestIsUnique(n: nat, j: nat, k: nat)
    requires FewestZeros(n, j) && FewestZeros(n, k)
    ensures j == k
  {
  }

  lemma FitsBelow(n: nat, k: nat)
    requires k < BLOCK
    ensures var r := n % BLOCK; Fits(n, k) <==> k == if r < 56 then 55 - r else 119 - r
  {
  }

  /** The zeros the RFC asks for. */
  lemma RfcZeros(n: nat)
    ensures var r := n % BLOCK; FewestZeros(n, if r < 56 then 55 - r else 119 - r)
  {
    hide Fits;
    var r := n % BLOCK;
    var k := if r < 56 then 55 - r else 119 - r;
    FitsBelow(n, k);
    forall j: nat | j < k
      ensures !Fits(n, j)
    {
      FitsBelow(n, j);
    }
  }

  /** The code pads as the RFC says exactly when the length is not 55 modulo 64. */
  lemma PaddingConformsIff(m: seq<byte>)
    ensures IsRfcPadding(m, PaddedAsWritten(m)) <==> |m| % BLOCK != 55
  {
    hide Fits, FewestZeros, LengthField;
    var r := |m| % BLOCK;
    var k := if r < 56 then 55 - r else 119 - r;
    RfcZeros(|m|);
    assert r != 55 ==> ZerosAsWritten(|m|) == k;
    if IsRfcPadding(m, PaddedAsWritten(m)) {
      var j: nat :| FewestZeros(|m|, j) && PaddedAsWritten(m) == m + [0x80] + Zeros(j) + LengthField(|m|);
      FewestIsUnique(|m|, j, k);
      assert |PaddedAsWritten(m)| == |m| + 9 + k;
    }
  }

  /** At 55 modulo 64 there is exactly one block more, of zeros: sixty-four zeros follow 0x80, not none. */
  lemma ExtraBlock(m: seq<byte>, padded: seq<byte>)
    requires |m| % BLOCK == 55 && IsRfcPadding(m, padded)
    ensures padded == m + [0x80] + LengthField(|m|)
    ensures PaddedAsWritten(m) == m + [0x80] + Zeros(BLOCK) + LengthField(|m|)
    ensures |PaddedAsWritten(m)| == |padded| + BLOCK
  {
    hide Fits, FewestZeros, LengthField;
    RfcZeros(|m|);
    var j: nat :| FewestZeros(|m|, j) && padded == m + [0x80] + Zeros(j) + LengthField(|m|);
    FewestIsUnique(|m|, j, 0);
    assert m + [0x80] + Zeros(0) == m + [0x80];
  }

  lemma LengthOfPadded(n: nat)
    ensures (n + 9 + ZerosAsWritten(n)) % BLOCK == 0
  {
  }

  lemma PaddedIsWholeBlocks(m: seq<byte>)
    ensures |PaddedAsWritten(m)| % BLOCK == 0
  {
    hide LengthField, ZerosAsWritten;
    LengthOfPadded(|m|);
  }

  /** The stream determines the message, at all lengths whose bit length fits the field. */
  lemma PaddingIsInjective(m: seq<byte>, l: seq<byte>)
    requires 8 * |m| < TWO_64 && 8 * |l| < TWO_64
    requires PaddedAsWritten(m) == PaddedAsWritten(l)
    ensures m == l
  {
    hide ZerosAsWritten, LengthField;
    var s := PaddedAsWritten(m);
    assert s[|s| - 8..] == LengthField(|m|);
    assert s[|s| - 8..] == LengthField(|l|);
    LengthFieldReads(|m|);
    LengthFieldReads(|l|);
    assert s[..|m|] == m && s[..|l|] == l;
  }

  lemma LengthFieldReads(n: nat)
    requires 8 * n < TWO_64
    ensures FromBigEndian(LengthField(n)) == 8 * n
  {
    hide BigEndian, FromBigEndian, Pow256;
    Powers();
    BigEndianRoundTrip(8 * n, 8);
  }
}
