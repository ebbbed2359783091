/** The BENCH plugin's base64 encoder and the handler's decoder.  Shifts, masks and ors of the
    24-bit groups are written as division, remainder and addition. */
module Base64 {
  import opened Arithmetic
  import opened Bytes
  import opened Sequences

  const UPPER := "ABCDEFGHIJKLMNOPQRSTUVWXYZ"
  const LOWER := "abcdefghijklmnopqrstuvwxyz"
  const DIGITS_AND_SIGNS := "0123456789+/"
  const ALPHABET := UPPER + LOWER + DIGITS_AND_SIGNS

  /** The encoder's table. */
  function Letter(v: int): char
    requires 0 <= v < 64
  {
    if v < 26 then ('A' as int + v) as char
    else if v < 52 then ('a' as int + v - 26) as char
    else if v < 62 then ('0' as int + v - 52) as char
    else if v == 62 then '+'
    else '/'
  }

  /** The decoder's table: 0 for any other character. */
  function ValueOf(c: char): (v: int)
    ensures 0 <= v < 64
  {
    if 'A' <= c <= 'Z' then c as int - 'A' as int
    else if 'a' <= c <= 'z' then c as int - 'a' as int + 26
    else if '0' <= c <= '9' then c as int - '0' as int + 52
    else if c == '+' then 62
    else if c == '/' then 63
    else 0
  }

  lemma UpperLetters(v: int)
    requires 0 <= v < 26
    ensures UPPER[v] == Letter(v)
  {
  }

  lemma LowerLetters(v: int)
    requires 26 <= v < 52
    ensures LOWER[v - 26] == Letter(v)
  {
  }

  lemma OtherLetters(v: int)
    requires 52 <= v < 64
    ensures DIGITS_AND_SIGNS[v - 52] == Letter(v)
  {
  }

  lemma LetterIsTable(v: int)
    requires 0 <= v < 64
    ensures |ALPHABET| == 64 && ALPHABET[v] == Letter(v)
  {
    hide Letter;
    if v < 26 {
      UpperLetters(v);
    } else if v < 52 {
      LowerLetters(v);
    } else {
      OtherLetters(v);
    }
  }

  lemma ValueOfLetter(v: int)
    requires 0 <= v < 64
    ensures ValueOf(Letter(v)) == v && Letter(v) != '='
  {
  }

  /** The 24 bits of a group of up to three bytes. */
  function Group(data: seq<byte>): (o: int)
    requires data != []
    ensures 0 <= o < 0x100_0000
  {
    data[0] as int * 0x1_0000 + (if |data| > 1 then data[1] as int * 0x100 else 0)
    + if |data| > 2 then data[2] as int else 0
  }

  /** The four characters of the first group. */
  function Quad(data: seq<byte>): (s: string)
    requires data != []
    ensures |s| == 4
  {
    var o := Group(data);
    [Letter(o / 0x4_0000), Letter(o / 0x1000 % 64),
     if |data| > 1 then Letter(o / 64 % 64) else '=',
     if |data| > 2 then Letter(o % 64) else '=']
  }

  function Encode(data: seq<byte>): string {
    if data == [] then ""
    else Quad(data) + if |data| <= 3 then "" else Encode(data[3..])
  }

  function Decode(s: string): seq<byte>
    decreases |s|
  {
    if s == "" then [] else FirstBytes(s) + Decode(Skip(s))
  }

  /** The bytes the first pass appends: three, two, one or none. */
  function FirstBytes(s: string): seq<byte>
    requires s != ""
  {
    if |s| > 3 && s[3] != '=' then ThreeBytes(Join(ValueOf(s[0]), ValueOf(s[1]), ValueOf(s[2]), ValueOf(s[3])))
    else if |s| > 2 && s[2] != '=' then ThreeBytes(Join(ValueOf(s[0]), ValueOf(s[1]), ValueOf(s[2]), 0))[..2]
    else if |s| > 1 && s[1] != '=' then ThreeBytes(Join(ValueOf(s[0]), ValueOf(s[1]), 0, 0))[..1]
    else []
  }

  /** What the first pass leaves: a step of four characters, or of one where none could be decoded. */
  function Skip(s: string): (r: string)
    requires s != ""
    ensures |r| < |s|
  {
    From(s, Width(s))
  }

  function Width(s: string): (n: nat)
    requires s != ""
    ensures n > 0
  {
    if (|s| > 3 && s[3] != '=') || (|s| > 2 && s[2] != '=') || (|s| > 1 && s[1] != '=') then 4 else 1
  }

  /** A group of four six-bit values. */
  function Join(a: nat, b: nat, c: nat, d: nat): nat {
    a * 0x4_0000 + b * 0x1000 + c * 64 + d
  }

  /** The three low bytes of a group, highest first. */
  function ThreeBytes(o: nat): (r: seq<byte>)
    ensures |r| == 3
  {
    [o / 0x1_0000 % 256, o / 0x100 % 256, o % 256]
  }

  /** The four sextets of a group, told by its bytes. */
  lemma SextetsOfGroup(a: byte, b: byte, c: byte)
    ensures var o := a as int * 0x1_0000 + b as int * 0x100 + c as int;
      && o / 0x4_0000 == a / 4
      && o / 0x1000 % 64 == (a % 4) * 16 + b / 16
      && o / 64 % 64 == (b % 16) * 4 + c / 64
      && o % 64 == c % 64
  {
    var o := a as int * 0x1_0000 + b as int * 0x100 + c as int;
    QuotientIs(o, 0x4_0000, a / 4, (a % 4) as int * 0x1_0000 + b as int * 0x100 + c as int);
    QuotientIs(o, 0x1000, a as int * 16 + (b / 16) as int, (b % 16) as int * 0x100 + c as int);
    QuotientIs(o / 0x1000, 64, a / 4, (a % 4) * 16 + b / 16);
    QuotientIs(o, 64, a as int * 1024 + b as int * 4 + (c / 64) as int, c % 64);
    QuotientIs(o / 64, 64, a as int * 16 + (b / 16) as int, (b % 16) * 4 + c / 64);
  }

  lemma BytesOfGroup(a: byte, b: byte, c: byte)
    ensures var o := a as int * 0x1_0000 + b as int * 0x100 + c as int;
      o / 0x1_0000 == a && o / 0x100 % 256 == b && o % 256 == c
  {
    var o := a as int * 0x1_0000 + b as int * 0x100 + c as int;
    QuotientIs(o, 0x1_0000, a, b as int * 0x100 + c as int);
    QuotientIs(o, 0x100, a as int * 0x100 + b as int, c);
    QuotientIs(o / 0x100, 0x100, a, b);
  }

  /** Four sextets make up the group, and the group splits into its bytes. */
  lemma GroupSplits(a: byte, b: byte, c: byte)
    ensures var o := a as int * 0x1_0000 + b as int * 0x100 + c as int;
      && (o / 0x4_0000) * 0x4_0000 + (o / 0x1000 % 64) * 0x1000 + (o / 64 % 64) * 64 + o % 64 == o
      && 0 <= o / 0x4_0000 < 64
      && o / 0x1_0000 == a && o / 0x100 % 256 == b && o % 256 == c
      && (c == 0 ==> o % 64 == 0)
      && (b == 0 && c == 0 ==> o / 64 % 64 == 0)
  {
    SextetsOfGroup(a, b, c);
    BytesOfGroup(a, b, c);
  }

  lemma FourLetters(o: int)
    requires 0 <= o < 0x100_0000
    ensures ValueOf(Letter(o / 0x4_0000)) == o / 0x4_0000
    ensures ValueOf(Letter(o / 0x1000 % 64)) == o / 0x1000 % 64
    ensures ValueOf(Letter(o / 64 % 64)) == o / 64 % 64
    ensures ValueOf(Letter(o % 64)) == o % 64
    ensures Letter(o / 0x1000 % 64) != '=' && Letter(o / 64 % 64) != '=' && Letter(o % 64) != '='
  {
    ValueOfLetter(o / 0x4_0000);
    ValueOfLetter(o / 0x1000 % 64);
    ValueOfLetter(o / 64 % 64);
    ValueOfLetter(o % 64);
  }

  /** The four values of an encoded group make up the group again. */
  lemma JoinOfGroup(a: byte, b: byte, c: byte)
    ensures var o := Group([a, b, c]);
      && Join(ValueOf(Letter(o / 0x4_0000)), ValueOf(Letter(o / 0x1000 % 64)), ValueOf(Letter(o / 64 % 64)),
              ValueOf(Letter(o % 64))) == o
      && (c == 0 ==> o % 64 == 0)
      && (b == 0 && c == 0 ==> o / 64 % 64 == 0)
      && ThreeBytes(o) == [a, b, c]
  {
    hide Letter, ValueOf, ThreeBytes, Group;
    GroupOfThree(a, b, c);
    FourLetters(Group([a, b, c]));
    GroupSplits(a, b, c);
    ThreeBytesOfGroup(a, b, c);
  }

  lemma GroupOfThree(a: byte, b: byte, c: byte)
    ensures Group([a, b, c]) == a as int * 0x1_0000 + b as int * 0x100 + c as int
  {
  }

  lemma ThreeBytesOfGroup(a: byte, b: byte, c: byte)
    ensures ThreeBytes(a as int * 0x1_0000 + b as int * 0x100 + c as int) == [a, b, c]
  {
    BytesOfGroup(a, b, c);
  }

  lemma QuadSigns(data: seq<byte>)
    requires data != []
    ensures Quad(data)[1] != '='
    ensures (Quad(data)[2] == '=') == (|data| < 2)
    ensures (Quad(data)[3] == '=') == (|data| < 3)
  {
    hide Letter, ValueOf;
    FourLetters(Group(data));
  }

  /** The first pass over an encoded group yields the group's bytes. */
  lemma FirstBytesOfQuad(data: seq<byte>)
    requires data != []
    ensures FirstBytes(Quad(data)) == if |data| < 3 then data else data[..3]
  {
    hide Letter, ValueOf, ThreeBytes, Join;
    var o := Group(data);
    QuadSigns(data);
    ZeroLetters();
    if |data| == 1 {
      JoinOfGroup(data[0], 0, 0);
    } else if |data| == 2 {
      JoinOfGroup(data[0], data[1], 0);
    } else {
      JoinOfGroup(data[0], data[1], data[2]);
    }
  }

  lemma ZeroLetters()
    ensures ValueOf(Letter(0)) == 0
  {
  }

  /** Decoding a group of characters gives back its bytes. */
  lemma DecodeQuad(data: seq<byte>, rest: string)
    requires data != []
    requires rest != "" ==> |data| >= 3
    ensures Decode(Quad(data) + rest) == (if |data| < 3 then data else data[..3]) + Decode(rest)
  {
    hide Quad, ValueOf, ThreeBytes, Join;
    QuadSigns(data);
    FirstBytesOfQuad(data);
    PassOverQuad(Quad(data), rest);
  }

  lemma PassOverQuad(quad: string, rest: string)
    requires |quad| == 4 && quad[1] != '='
    ensures Decode(quad + rest) == FirstBytes(quad) + Decode(rest)
  {
    hide ValueOf, ThreeBytes, Join, Decode;
    var s := quad + rest;
    assert forall k :: 0 <= k < 4 ==> s[k] == quad[k];
    assert FirstBytes(s) == FirstBytes(quad);
    assert From(s, 4) == rest;
    DecodeUnfolds(s);
  }

  lemma DecodeUnfolds(s: string)
    requires s != ""
    ensures Decode(s) == FirstBytes(s) + Decode(Skip(s))
  {
  }

  /** Every byte sequence survives encoding and decoding. */
  lemma {:induction false} DecodeEncode(data: seq<byte>)
    ensures Decode(Encode(data)) == data
  {
    hide Quad, Decode;
    if data == [] {
      DecodeEmpty();
    } else if |data| <= 3 {
      DecodeQuad(data, "");
      DecodeEmpty();
      assert Quad(data) + "" == Quad(data);
    } else {
      DecodeEncode(data[3..]);
      DecodeQuad(data, Encode(data[3..]));
    }
  }

  lemma DecodeEmpty()
    ensures Decode("") == []
  {
  }

  // ---- texts the encoder does not make ----

  /** A character outside the alphabet, other than '=', reads like an 'A'. */
  function AsLetter(c: char): char {
    if c == '=' || c == 'A' || ValueOf(c) != 0 then c else 'A'
  }

  function AsLetters(s: string): (r: string)
    ensures |r| == |s|
  {
    seq(|s|, i requires 0 <= i < |s| => AsLetter(s[i]))
  }

  lemma AsLetterReads(c: char)
    ensures ValueOf(AsLetter(c)) == ValueOf(c)
    ensures AsLetter(c) == '=' <==> c == '='
    ensures AsLetter(c) == '=' || exists v :: 0 <= v < 64 && Letter(v) == AsLetter(c)
  {
    var v := ValueOf(AsLetter(c));
    assert AsLetter(c) == '=' || Letter(v) == AsLetter(c);
  }

  lemma FirstPassAsLetters(s: string)
    requires s != ""
    ensures FirstBytes(AsLetters(s)) == FirstBytes(s) && Width(AsLetters(s)) == Width(s)
    ensures Skip(AsLetters(s)) == AsLetters(Skip(s))
  {
    hide ValueOf, AsLetter, ThreeBytes, Join;
    var t := AsLetters(s);
    forall i | 0 <= i < |s|
      ensures ValueOf(t[i]) == ValueOf(s[i]) && (t[i] == '=' <==> s[i] == '=')
    {
      AsLetterReads(s[i]);
    }
    assert From(t, Width(s)) == AsLetters(From(s, Width(s)));
  }

  /** Characters outside the alphabet are not skipped: they decode like an 'A' in their place. */
  lemma {:induction false} OutsidersReadAsA(s: string)
    ensures Decode(s) == Decode(AsLetters(s))
    decreases |s|
  {
    hide Decode, AsLetters, FirstBytes;
    if s == "" {
      assert AsLetters("") == "";
    } else {
      FirstPassAsLetters(s);
      OutsidersReadAsA(Skip(s));
      DecodeUnfolds(s);
      DecodeUnfolds(AsLetters(s));
    }
  }

  /** The last of the next three characters that is not '=', counted from the first; 0 when there is none. */
  function LastLetter(s: string): (k: nat)
    requires s != ""
    ensures k <= 3 && (k > 0 ==> k < |s| && s[k] != '=')
    ensures forall j :: k < j < 4 && j < |s| ==> s[j] == '='
  {
    if |s| > 3 && s[3] != '=' then 3 else if |s| > 2 && s[2] != '=' then 2 else if |s| > 1 && s[1] != '=' then 1 else 0
  }

  /** A pass makes as many bytes as that, and takes four characters, whatever stands between. */
  lemma PassYields(s: string)
    requires s != ""
    ensures |FirstBytes(s)| == LastLetter(s)
    ensures Decode(s) == FirstBytes(s) + Decode(From(s, if LastLetter(s) > 0 then 4 else 1))
  {
    hide ValueOf, ThreeBytes, Join, Decode;
    DecodeUnfolds(s);
  }

  /** A character that no other follows, up to three '=', is dropped: decoding starts again one place on. */
  lemma LoneCharacterIsDropped(c: char, signs: string, rest: string)
    requires |signs| <= 3 && (forall i :: 0 <= i < |signs| ==> signs[i] == '=') && (rest == "" || |signs| == 3)
    ensures Decode([c] + signs + rest) == Decode(signs + rest)
  {
    hide ValueOf, ThreeBytes, Join, Decode;
    var s := [c] + signs + rest;
    assert forall k :: 1 <= k <= |signs| ==> s[k] == signs[k - 1];
    assert From(s, 1) == signs + rest;
    DecodeUnfolds(s);
  }

  /** The encoding without its padding. */
  function Unpadded(data: seq<byte>): (s: string)
    ensures s <= Encode(data)
  {
    if data == [] then "" else if |data| <= 3 then Quad(data)[..|data| + 1] else Quad(data) + Unpadded(data[3..])
  }

  /** Unpadded is the encoding up to the first '='. */
  lemma {:induction false} UnpaddedHasNoSigns(data: seq<byte>)
    ensures forall i :: 0 <= i < |Unpadded(data)| ==> Unpadded(data)[i] != '='
    ensures forall i :: |Unpadded(data)| <= i < |Encode(data)| ==> Encode(data)[i] == '='
  {
    hide Quad;
    if data != [] {
      QuadLetters(data);
      if |data| > 3 {
        UnpaddedHasNoSigns(data[3..]);
      }
    }
  }

  lemma QuadLetters(data: seq<byte>)
    requires data != []
    ensures Quad(data)[0] != '=' && Quad(data)[1] != '='
    ensures (Quad(data)[2] == '=') == (|data| < 2)
    ensures (Quad(data)[3] == '=') == (|data| < 3)
  {
    hide Letter, ValueOf, Group;
    QuadSigns(data);
    ValueOfLetter(Group(data) / 0x4_0000);
  }

  /** The padding may be missing. */
  lemma {:induction false} DecodeUnpadded(data: seq<byte>)
    ensures Decode(Unpadded(data)) == data
  {
    hide Quad, Decode;
    if data == [] {
      DecodeEmpty();
    } else if |data| <= 3 {
      QuadSigns(data);
      FirstBytesOfQuad(data);
      ShortFirstBytes(data);
      DecodeUnfolds(Unpadded(data));
      DecodeEmpty();
    } else {
      DecodeUnpadded(data[3..]);
      DecodeQuad(data, Unpadded(data[3..]));
    }
  }

  lemma ShortFirstBytes(data: seq<byte>)
    requires 1 <= |data| <= 3
    ensures FirstBytes(Quad(data)[..|data| + 1]) == FirstBytes(Quad(data))
    ensures Skip(Quad(data)[..|data| + 1]) == ""
  {
    hide Quad, ValueOf, ThreeBytes, Join;
    QuadSigns(data);
  }

  /** The encoded length is four characters for every three bytes begun. */
  lemma {:induction false} EncodedLength(data: seq<byte>)
    ensures |Encode(data)| == (|data| + 2) / 3 * 4
  {
    if |data| > 3 {
      EncodedLength(data[3..]);
    }
  }

  // ---- section 4 of RFC 4648, bit by bit ----

  /** The bits of the input, most significant first. */
  ghost function Bits(data: seq<byte>): (r: seq<int>)
    ensures |r| == 8 * |data|
  {
    if data == [] then [] else ByteBits(data[0]) + Bits(data[1..])
  }

  ghost function ByteBits(b: byte): (r: seq<int>)
    ensures |r| == 8
  {
    [b / 128, b / 64 % 2, b / 32 % 2, b / 16 % 2, b / 8 % 2, b / 4 % 2, b / 2 % 2, b % 2]
  }

  ghost function Sextet(b: seq<int>): int
    requires |b| == 6
  {
    32 * b[0] + 16 * b[1] + 8 * b[2] + 4 * b[3] + 2 * b[4] + b[5]
  }

  ghost predicate AreBits(bits: seq<int>) {
    forall i :: 0 <= i < |bits| ==> 0 <= bits[i] <= 1
  }

  lemma SextetRange(b: seq<int>)
    requires |b| == 6 && AreBits(b)
    ensures 0 <= Sextet(b) < 64
  {
  }

  ghost function Zeros(n: nat): (z: seq<int>)
    ensures |z| == n && forall i :: 0 <= i < n ==> z[i] == 0
  {
    seq(n, _ => 0)
  }

  /** One character for every six bits, the last six filled up with zero bits. */
  ghost function Characters(bits: seq<int>): string
    requires AreBits(bits)
  {
    if bits == [] then ""
    else if |bits| < 6 then
      SextetRange(bits + Zeros(6 - |bits|));
      [Letter(Sextet(bits + Zeros(6 - |bits|)))]
    else
      SextetRange(bits[..6]);
      [Letter(Sextet(bits[..6]))] + Characters(bits[6..])
  }

  /** The characters of the input bits, padded with '=' to a multiple of four. */
  ghost function RfcEncode(data: seq<byte>): string
    requires AreBits(Bits(data))
  {
    var text := Characters(Bits(data));
    text + Equals(Padding(|text|))
  }

  /** How many characters short of a multiple of four. */
  ghost function Padding(n: nat): nat {
    (4 - n % 4) % 4
  }

  lemma PaddingValues(n: nat)
    ensures Padding(n + 4) == Padding(n)
    ensures Padding(2) == 2 && Padding(3) == 1
  {
    QuotientIs(n + 4, 4, n / 4 + 1, n % 4);
  }

  ghost function Equals(n: nat): (s: string)
    ensures |s| == n
  {
    if n == 0 then "" else "=" + Equals(n - 1)
  }

  lemma {:induction false} BitsAreBits(data: seq<byte>)
    ensures AreBits(Bits(data))
  {
    if data != [] {
      BitsAreBits(data[1..]);
    }
  }

  lemma SextetsOfBits(a: byte, b: byte, c: byte)
    ensures var x, y, z := ByteBits(a), ByteBits(b), ByteBits(c);
      && Sextet([x[0], x[1], x[2], x[3], x[4], x[5]]) == a / 4
      && Sextet([x[6], x[7], y[0], y[1], y[2], y[3]]) == (a % 4) * 16 + b / 16
      && Sextet([y[4], y[5], y[6], y[7], z[0], z[1]]) == (b % 16) * 4 + c / 64
      && Sextet([z[2], z[3], z[4], z[5], z[6], z[7]]) == c % 64
  {
    HalvesOfByte(a);
    HalvesOfByte(b);
    HalvesOfByte(c);
    LowBitsOfByte(a);
    LowBitsOfByte(b);
    LowBitsOfByte(c);
  }

  /** The bit of weight m, split off the two sides of it. */
  lemma TopBit(b: int, m: int)
    requires m > 0
    ensures b / m == 2 * (b / (2 * m)) + b / m % 2
    ensures b % (2 * m) == (b / m % 2) * m + b % m
  {
    Regroup(b, m, b / m / 2, b / m % 2, b % m);
    Below(b / m % 2, m, b % m);
    QuotientIs(b, 2 * m, b / m / 2, (b / m % 2) * m + b % m);
  }

  lemma Regroup(b: int, m: int, t: int, u: int, r: int)
    requires b == (2 * t + u) * m + r
    ensures b == t * (2 * m) + (u * m + r)
  {
  }

  lemma Below(u: int, m: int, r: int)
    requires 0 <= u < 2 && 0 <= r < m
    ensures 0 <= u * m + r < 2 * m
  {
  }

  lemma HalvesOfByte(b: byte)
    ensures 2 * (b / 128) + b / 64 % 2 == b / 64
    ensures 2 * (b / 64) + b / 32 % 2 == b / 32
    ensures 2 * (b / 32) + b / 16 % 2 == b / 16
    ensures 2 * (b / 16) + b / 8 % 2 == b / 8
    ensures 2 * (b / 8) + b / 4 % 2 == b / 4
  {
    TopBit(b, 64);
    TopBit(b, 32);
    TopBit(b, 16);
    TopBit(b, 8);
    TopBit(b, 4);
  }

  lemma LowBitsOfByte(b: byte)
    ensures b % 4 == (b / 2 % 2) * 2 + b % 2
    ensures b % 8 == (b / 4 % 2) * 4 + b % 4
    ensures b % 16 == (b / 8 % 2) * 8 + b % 8
    ensures b % 32 == (b / 16 % 2) * 16 + b % 16
    ensures b % 64 == (b / 32 % 2) * 32 + b % 32
  {
    TopBit(b, 2);
    TopBit(b, 4);
    TopBit(b, 8);
    TopBit(b, 16);
    TopBit(b, 32);
  }

  lemma CharactersStep(u: seq<int>, rest: seq<int>)
    requires |u| == 6 && AreBits(u) && AreBits(u + rest) && AreBits(rest)
    ensures 0 <= Sextet(u) < 64
    ensures Characters(u + rest) == [Letter(Sextet(u))] + Characters(rest)
  {
    SextetRange(u);
    assert (u + rest)[..6] == u && (u + rest)[6..] == rest;
  }

  lemma BitsSplit(u: seq<int>, v: seq<int>)
    requires AreBits(u + v)
    ensures AreBits(u) && AreBits(v)
  {
    assert forall i :: 0 <= i < |u| ==> (u + v)[i] == u[i];
    assert forall i :: 0 <= i < |v| ==> (u + v)[|u| + i] == v[i];
  }

  /** Four times six bits, one step after the other. */
  lemma FourSteps(p: seq<int>, q: seq<int>, r: seq<int>, s: seq<int>, rest: seq<int>)
    requires |p| == |q| == |r| == |s| == 6
    requires AreBits(p) && AreBits(q) && AreBits(r) && AreBits(s) && AreBits(rest)
    ensures AreBits(p + (q + (r + (s + rest))))
    ensures 0 <= Sextet(p) < 64 && 0 <= Sextet(q) < 64 && 0 <= Sextet(r) < 64 && 0 <= Sextet(s) < 64
    ensures Characters(p + (q + (r + (s + rest))))
         == [Letter(Sextet(p)), Letter(Sextet(q)), Letter(Sextet(r)), Letter(Sextet(s))] + Characters(rest)
  {
    hide Letter, Characters, Sextet, AreBits;
    BitsJoin(s, rest);
    BitsJoin(r, s + rest);
    BitsJoin(q, r + (s + rest));
    BitsJoin(p, q + (r + (s + rest)));
    CharactersStep(s, rest);
    CharactersStep(r, s + rest);
    CharactersStep(q, r + (s + rest));
    CharactersStep(p, q + (r + (s + rest)));
  }

  lemma BitsJoin(u: seq<int>, v: seq<int>)
    requires AreBits(u) && AreBits(v)
    ensures AreBits(u + v)
  {
  }

  /** The bits of three bytes, taken six at a time. */
  ghost function SixBits(a: byte, b: byte, c: byte, k: int): (u: seq<int>)
    requires 0 <= k < 4
    ensures |u| == 6 && AreBits(u)
  {
    var x, y, z := ByteBits(a), ByteBits(b), ByteBits(c);
    ByteBitsAreBits(a);
    ByteBitsAreBits(b);
    ByteBitsAreBits(c);
    if k == 0 then [x[0], x[1], x[2], x[3], x[4], x[5]]
    else if k == 1 then [x[6], x[7], y[0], y[1], y[2], y[3]]
    else if k == 2 then [y[4], y[5], y[6], y[7], z[0], z[1]]
    else [z[2], z[3], z[4], z[5], z[6], z[7]]
  }

  lemma ByteBitsAreBits(b: byte)
    ensures AreBits(ByteBits(b))
  {
  }

  lemma Rebracket(x: seq<int>, y: seq<int>, z: seq<int>, rest: seq<int>)
    requires |x| == |y| == |z| == 8
    ensures x + y + z + rest
         == [x[0], x[1], x[2], x[3], x[4], x[5]] + ([x[6], x[7], y[0], y[1], y[2], y[3]]
            + ([y[4], y[5], y[6], y[7], z[0], z[1]] + ([z[2], z[3], z[4], z[5], z[6], z[7]] + rest)))
  {
  }

  lemma SixBitsSplit(a: byte, b: byte, c: byte, rest: seq<int>)
    ensures ByteBits(a) + ByteBits(b) + ByteBits(c) + rest
         == SixBits(a, b, c, 0) + (SixBits(a, b, c, 1) + (SixBits(a, b, c, 2) + (SixBits(a, b, c, 3) + rest)))
  {
    hide ByteBits, AreBits;
    Rebracket(ByteBits(a), ByteBits(b), ByteBits(c), rest);
  }

  lemma SixBitsLetters(a: byte, b: byte, c: byte)
    ensures 0 <= Sextet(SixBits(a, b, c, 0)) < 64 && 0 <= Sextet(SixBits(a, b, c, 1)) < 64
    ensures 0 <= Sextet(SixBits(a, b, c, 2)) < 64 && 0 <= Sextet(SixBits(a, b, c, 3)) < 64
    ensures Quad([a, b, c])
         == [Letter(Sextet(SixBits(a, b, c, 0))), Letter(Sextet(SixBits(a, b, c, 1))),
             Letter(Sextet(SixBits(a, b, c, 2))), Letter(Sextet(SixBits(a, b, c, 3)))]
  {
    hide Letter, Sextet, ByteBits, AreBits;
    SextetsOfBits(a, b, c);
    SextetsOfGroup(a, b, c);
  }

  /** Three bytes make four characters, and the rest of the bits go on from there. */
  lemma CharactersOfGroup(a: byte, b: byte, c: byte, rest: seq<int>)
    requires AreBits(rest) && AreBits(ByteBits(a) + ByteBits(b) + ByteBits(c) + rest)
    ensures Characters(ByteBits(a) + ByteBits(b) + ByteBits(c) + rest) == Quad([a, b, c]) + Characters(rest)
  {
    hide Letter, Characters, Sextet, ByteBits, AreBits, Quad, SixBits;
    SixBitsSplit(a, b, c, rest);
    SixBitsLetters(a, b, c);
    FourSteps(SixBits(a, b, c, 0), SixBits(a, b, c, 1), SixBits(a, b, c, 2), SixBits(a, b, c, 3), rest);
  }

  lemma CharactersOfOne(a: byte)
    requires AreBits(ByteBits(a))
    ensures Characters(ByteBits(a)) + "==" == Quad([a])
  {
    hide Letter, Sextet, Characters;
    var x := ByteBits(a);
    SextetsOfBits(a, 0, 0);
    SextetsOfGroup(a, 0, 0);
    var p, q := [x[0], x[1], x[2], x[3], x[4], x[5]], [x[6], x[7]];
    assert x == p + q;
    BitsSplit(p, q);
    CharactersStep(p, q);
    assert q + Zeros(4) == [x[6], x[7], 0, 0, 0, 0];
    CharactersEnd(q);
  }

  lemma CharactersOfTwo(a: byte, b: byte)
    requires AreBits(ByteBits(a) + ByteBits(b))
    ensures Characters(ByteBits(a) + ByteBits(b)) + "=" == Quad([a, b])
  {
    hide Letter, Sextet, Characters;
    var x, y := ByteBits(a), ByteBits(b);
    SextetsOfBits(a, b, 0);
    SextetsOfGroup(a, b, 0);
    var p := [x[0], x[1], x[2], x[3], x[4], x[5]];
    var q := [x[6], x[7], y[0], y[1], y[2], y[3]];
    var r := [y[4], y[5], y[6], y[7]];
    assert x + y == p + (q + r);
    BitsSplit(p, q + r);
    BitsSplit(q, r);
    CharactersStep(q, r);
    CharactersStep(p, q + r);
    assert r + Zeros(2) == [y[4], y[5], y[6], y[7], 0, 0];
    CharactersEnd(r);
  }

  lemma CharactersEnd(r: seq<int>)
    requires 0 < |r| < 6 && AreBits(r)
    ensures 0 <= Sextet(r + Zeros(6 - |r|)) < 64
    ensures Characters(r) == [Letter(Sextet(r + Zeros(6 - |r|)))]
  {
    SextetRange(r + Zeros(6 - |r|));
  }

  lemma BitsCons(b: byte, data: seq<byte>)
    ensures Bits([b] + data) == ByteBits(b) + Bits(data)
  {
    assert ([b] + data)[1..] == data;
  }

  lemma RfcOfGroup(data: seq<byte>)
    requires |data| >= 3 && AreBits(Bits(data)) && AreBits(Bits(data[3..]))
    requires Encode(data[3..]) == RfcEncode(data[3..])
    ensures Encode(data) == RfcEncode(data)
  {
    hide Quad, Characters, ByteBits, AreBits, Encode, Bits, Padding;
    var tail := data[3..];
    BitsOfGroup(data);
    CharactersOfGroup(data[0], data[1], data[2], Bits(tail));
    QuadOfPrefix(data);
    var quad, text := Quad([data[0], data[1], data[2]]), Characters(Bits(tail));
    PaddingValues(|text|);
    Associate(quad, text, Equals(Padding(|text|)));
  }

  lemma BitsOfGroup(data: seq<byte>)
    requires |data| >= 3
    ensures Bits(data) == ByteBits(data[0]) + ByteBits(data[1]) + ByteBits(data[2]) + Bits(data[3..])
  {
    hide ByteBits, Bits;
    assert data == [data[0]] + data[1..];
    assert data[1..] == [data[1]] + data[2..];
    assert data[2..] == [data[2]] + data[3..];
    BitsCons(data[0], data[1..]);
    BitsCons(data[1], data[2..]);
    BitsCons(data[2], data[3..]);
    var x, y, z, rest := ByteBits(data[0]), ByteBits(data[1]), ByteBits(data[2]), Bits(data[3..]);
    Associate(x + y, z, rest);
    Associate(x, y, z + rest);
  }

  lemma RfcOfTwo(data: seq<byte>)
    requires |data| == 2 && AreBits(Bits(data))
    ensures Encode(data) == RfcEncode(data)
  {
    hide Letter, ByteBits, Padding, Quad, Characters;
    assert Bits(data) == ByteBits(data[0]) + ByteBits(data[1]);
    CharactersOfTwo(data[0], data[1]);
    assert data == [data[0], data[1]] && Equals(1) == "=";
    PaddingValues(0);
  }

  lemma RfcOfOne(data: seq<byte>)
    requires |data| == 1 && AreBits(Bits(data))
    ensures Encode(data) == RfcEncode(data)
  {
    hide Letter, ByteBits, Padding, Quad, Characters;
    assert Bits(data) == ByteBits(data[0]);
    CharactersOfOne(data[0]);
    assert data == [data[0]] && Equals(2) == "==";
    PaddingValues(0);
  }

  lemma RfcOfNone(data: seq<byte>)
    requires data == [] && AreBits(Bits(data))
    ensures Encode(data) == RfcEncode(data)
  {
    assert Characters(Bits(data)) == "";
  }

  /** The encoder writes the text that section 4 of RFC 4648 prescribes. */
  lemma {:induction false} EncodeIsRfc(data: seq<byte>)
    ensures AreBits(Bits(data)) && Encode(data) == RfcEncode(data)
  {
    hide Quad, Characters, ByteBits;
    BitsAreBits(data);
    if |data| == 0 {
      RfcOfNone(data);
    } else if |data| == 1 {
      RfcOfOne(data);
    } else if |data| == 2 {
      RfcOfTwo(data);
    } else {
      EncodeIsRfc(data[3..]);
      RfcOfGroup(data);
    }
  }

  lemma QuadOfPrefix(data: seq<byte>)
    requires |data| >= 3
    ensures Quad(data) == Quad([data[0], data[1], data[2]])
    ensures Encode(data) == Quad(data) + Encode(data[3..])
  {
    hide Letter, Group;
    GroupOfPrefix(data);
    EncodeUnfolds(data);
  }

  lemma GroupOfPrefix(data: seq<byte>)
    requires |data| >= 3
    ensures Group(data) == Group([data[0], data[1], data[2]])
  {
  }

  lemma EncodeUnfolds(data: seq<byte>)
    requires |data| >= 3
    ensures Encode(data) == Quad(data) + Encode(data[3..])
  {
    hide Quad;
    if |data| == 3 {
      assert data[3..] == [] && Quad(data) + "" == Quad(data);
    }
  }

  // ---- the loops ----

  lemma EncodeStep(data: seq<byte>)
    requires data != []
    ensures Encode(data) == Quad(data) + Encode(From(data, 3))
  {
    hide Quad;
    if |data| <= 3 {
      assert Quad(data) + "" == Quad(data);
    }
  }

  /** The four characters the encoder appends for the group at i. */
  method EncodeGroup(data: seq<byte>, i: nat) returns (quad: string)
    requires i < |data|
    ensures quad == Quad(data[i..])
  {
    var o := data[i] as int * 0x1_0000 + (if i + 1 < |data| then data[i + 1] as int * 0x100 else 0)
    + if i + 2 < |data| then data[i + 2] as int else 0;
    assert o == Group(data[i..]);
    hide Group, Letter;
    LetterIsTable(o / 0x4_0000);
    LetterIsTable(o / 0x1000 % 64);
    LetterIsTable(o / 64 % 64);
    LetterIsTable(o % 64);
    quad := [ALPHABET[o / 0x4_0000], ALPHABET[o / 0x1000 % 64],
             if i + 1 < |data| then ALPHABET[o / 64 % 64] else '=',
             if i + 2 < |data| then ALPHABET[o % 64] else '='];
  }

  method Base64Encode(data: seq<byte>) returns (out: string)
    ensures out == Encode(data)
    ensures |out| == (|data| + 2) / 3 * 4
  {
    hide Quad, Encode;
    out := "";
    var i := 0;
    assert From(data, 0) == data && "" + Encode(data) == Encode(data);
    while i < |data|
      invariant 0 <= i && out + Encode(From(data, i)) == Encode(data)
    {
      var quad := EncodeGroup(data, i);
      EncodeStep(data[i..]);
      FromFrom(data, i, 3);
      Associate(out, quad, Encode(From(data, i + 3)));
      out := out + quad;
      i := i + 3;
    }
    EncodeEmpty();
    assert out + "" == out;
    EncodedLength(data);
  }

  lemma EncodeEmpty()
    ensures Encode([]) == ""
  {
  }

  /** A character of a std::string is one byte. */
  predicate IsText(s: string) {
    forall k :: 0 <= k < |s| ==> s[k] < 256 as char
  }

  /** With the first n capital letters on top. */
  ghost function UpperOr(k: int, n: int): int {
    if 65 <= k < 65 + n then k - 65 else SignOrDigit(k, 10)
  }

  /** With the first n small letters on top. */
  ghost function LowerOr(k: int, n: int): int {
    if 97 <= k < 97 + n then k - 97 + 26 else UpperOr(k, 26)
  }

  ghost predicate IsTable(table: array<int>)
    reads table
  {
    table.Length == 256 && forall c: char :: c < 256 as char ==> table[c as int] == ValueOf(c)
  }

  /** The decoder's table, filled as the source fills it. */
  method FillTable() returns (table: array<int>)
    ensures fresh(table) && IsTable(table)
  {
    table := new int[256](_ => 0);
    table['+' as int] := 62;
    table['/' as int] := 63;
    for i := 0 to 10
      invariant forall k :: 0 <= k < 256 ==> table[k] == SignOrDigit(k, i)
    {
      table['0' as int + i] := 52 + i;
    }
    for i := 0 to 26
      invariant forall k :: 0 <= k < 256 ==> table[k] == UpperOr(k, i)
    {
      table['A' as int + i] := i;
    }
    for i := 0 to 26
      invariant forall k :: 0 <= k < 256 ==> table[k] == LowerOr(k, i)
    {
      table['a' as int + i] := 26 + i;
    }
    forall c: char | c < 256 as char
      ensures table[c as int] == ValueOf(c)
    {
      assert table[c as int] == LowerOr(c as int, 26);
    }
  }

  /** The table once the two signs and the first n digits are entered. */
  ghost function SignOrDigit(k: int, n: int): int {
    if k == 43 then 62 else if k == 47 then 63 else if 48 <= k < 48 + n then k - 48 + 52 else 0
  }

  method LookUp(table: array<int>, c: char) returns (v: nat)
    requires IsTable(table) && c < 256 as char
    ensures v == ValueOf(c)
  {
    TableValue(table, c);
    v := table[c as int];
  }

  lemma TableValue(table: array<int>, c: char)
    requires IsTable(table) && c < 256 as char
    ensures table.Length == 256 && table[c as int] == ValueOf(c) >= 0
  {
  }

  /** One pass of the decoding loop: the bytes it appends and where it goes on. */
  method DecodeGroup(table: array<int>, s: string, i: nat) returns (bytes: seq<byte>, next: nat)
    requires IsTable(table) && IsText(s) && i < |s|
    ensures bytes == FirstBytes(s[i..]) && next == i + Width(s[i..])
  {
    hide ValueOf, ThreeBytes, Join, IsTable;
    if i + 3 < |s| && s[i + 3] != '=' {
      var v0 := LookUp(table, s[i]);
      var v1 := LookUp(table, s[i + 1]);
      var v2 := LookUp(table, s[i + 2]);
      var v3 := LookUp(table, s[i + 3]);
      bytes, next := ThreeBytes(Join(v0, v1, v2, v3)), i + 4;
    } else if i + 2 < |s| && s[i + 2] != '=' {
      var v0 := LookUp(table, s[i]);
      var v1 := LookUp(table, s[i + 1]);
      var v2 := LookUp(table, s[i + 2]);
      bytes, next := ThreeBytes(Join(v0, v1, v2, 0))[..2], i + 4;
    } else if i + 1 < |s| && s[i + 1] != '=' {
      var v0 := LookUp(table, s[i]);
      var v1 := LookUp(table, s[i + 1]);
      bytes, next := ThreeBytes(Join(v0, v1, 0, 0))[..1], i + 4;
    } else {
      bytes, next := [], i + 1;
    }
  }

  /** The decoder ends on every text, well formed or not, and yields what Decode says. */
  method Base64Decode(s: string) returns (out: seq<byte>)
    requires IsText(s)
    ensures out == Decode(s)
  {
    hide Decode, IsTable, FirstBytes, Width;
    var table := FillTable();
    out := [];
    var i := 0;
    assert From(s, 0) == s && [] + Decode(s) == Decode(s);
    while i < |s|
      invariant 0 <= i && out + Decode(From(s, i)) == Decode(s)
      modifies {}
    {
      var bytes, next := DecodeGroup(table, s, i);
      FromFrom(s, i, next - i);
      DecodeUnfolds(s[i..]);
      Associate(out, bytes, Decode(From(s, next)));
      out := out + bytes;
      i := next;
    }
    DecodeEmpty();
    assert out + [] == out;
  }
}
