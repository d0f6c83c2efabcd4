/** Worked examples from the repository's unit tests, proved about the model. */
module Vectors {
  import opened Bits
  import opened Reader
  import opened BitStreams
  import opened StreamInfoBlock
  import opened Utf8
  import PictureBlock
  import VorbisCommentBlock

  /** Bit `t` of byte `i` is the corresponding binary digit of the byte. */
  lemma BitOfByte(d: seq<Byte>, i: nat, t: nat)
    requires i < |d| && t < 8
    ensures BytesBits(d)[8 * i + t] <==> (d[i] / Pow2(7 - t)) % 2 == 1
  {
    var w := BytesBits(d)[8 * i..8 * i + 8];
    ByteAt(d, i);
    FieldOfValue(w, t, t + 1);
    assert w[t..t + 1][..0] == [];
    assert w[t] == BytesBits(d)[8 * i + t];
  }

  function Digit(b: bool): nat
  {
    if b then 1 else 0
  }

  /** The value of four bits, most significant first. */
  lemma Nibble(u: BitString, i: nat, a: bool, b: bool, c: bool, d: bool)
    requires i + 4 <= |u| && u[i] == a && u[i + 1] == b && u[i + 2] == c && u[i + 3] == d
    ensures BitsValue(u[i..i + 4]) == 8 * Digit(a) + 4 * Digit(b) + 2 * Digit(c) + Digit(d)
  {
    var w := u[i..i + 4];
    assert w[..3] == u[i..i + 3];
    assert w[..3][..2] == u[i..i + 2];
    assert w[..3][..2][..1] == u[i..i + 1];
    assert u[i..i + 1][..0] == [];
    assert BitsValue(u[i..i + 1]) == Digit(a);
    assert BitsValue(u[i..i + 2]) == 2 * Digit(a) + Digit(b);
    assert BitsValue(u[i..i + 3]) == 4 * Digit(a) + 2 * Digit(b) + Digit(c);
  }

  /** The powers of two below a byte. */
  lemma SmallPowers()
    ensures Pow2(0) == 1 && Pow2(1) == 2 && Pow2(2) == 4 && Pow2(3) == 8
    ensures Pow2(4) == 16 && Pow2(5) == 32 && Pow2(6) == 64 && Pow2(7) == 128
  {
    assert Pow2(4) == 16;
  }

  /** A Rice code of quotient `q` at `c`: `q` zero bits, a one bit and `k`
      remainder bits of value `rem`. */
  lemma CodeAt(u: BitString, c: nat, q: nat, k: nat, rem: nat)
    requires c + q + 1 + k <= |u| && u[c + q]
    requires forall i :: c <= i < c + q ==> !u[i]
    requires BitsValue(u[c + q + 1..c + q + 1 + k]) == rem
    ensures TakeRice(u, c, k) == Ok(Read(ZigZag(Fold(q, k, rem)), c + q + 1 + k))
  {
    LeadingZerosAt(u, c, q);
    RiceAt(u, c, q, k);
  }

  /** The bytes of the Rice example. */
  predicate RiceBytes(d: seq<Byte>)
  {
    |d| == 4 && d[0] == 0x0A && d[1] == 0xAB && d[2] == 0x85 && d[3] == 0xD0
  }

  /** The bits of the Rice example: 0000 1010 1010 1011 1000 0101 1101 0000. */
  predicate RiceBits(u: BitString)
  {
    && |u| == 32
    && !u[0] && !u[1] && !u[2] && !u[3] && u[4] && !u[5] && u[6] && !u[7]
    && u[8] && !u[9] && u[10] && !u[11] && u[12] && !u[13] && u[14] && u[15]
    && u[16] && !u[17] && !u[18] && !u[19] && !u[20] && u[21] && !u[22] && u[23]
    && u[24] && u[25] && !u[26] && u[27] && !u[28] && !u[29] && !u[30] && !u[31]
  }

  lemma RiceBitsOf(d: seq<Byte>)
    requires RiceBytes(d)
    ensures RiceBits(BytesBits(d))
  {
    SmallPowers();
    BitOfByte(d, 0, 0);
    BitOfByte(d, 0, 1);
    BitOfByte(d, 0, 2);
    BitOfByte(d, 0, 3);
    BitOfByte(d, 0, 4);
    BitOfByte(d, 0, 5);
    BitOfByte(d, 0, 6);
    BitOfByte(d, 0, 7);
    BitOfByte(d, 1, 0);
    BitOfByte(d, 1, 1);
    BitOfByte(d, 1, 2);
    BitOfByte(d, 1, 3);
    BitOfByte(d, 1, 4);
    BitOfByte(d, 1, 5);
    BitOfByte(d, 1, 6);
    BitOfByte(d, 1, 7);
    BitOfByte(d, 2, 0);
    BitOfByte(d, 2, 1);
    BitOfByte(d, 2, 2);
    BitOfByte(d, 2, 3);
    BitOfByte(d, 2, 4);
    BitOfByte(d, 2, 5);
    BitOfByte(d, 2, 6);
    BitOfByte(d, 2, 7);
    BitOfByte(d, 3, 0);
    BitOfByte(d, 3, 1);
    BitOfByte(d, 3, 2);
    BitOfByte(d, 3, 3);
    BitOfByte(d, 3, 4);
    BitOfByte(d, 3, 5);
    BitOfByte(d, 3, 6);
    BitOfByte(d, 3, 7);
  }

  lemma FirstCode(u: BitString)
    requires RiceBits(u)
    ensures TakeRice(u, 0, 4) == Ok(Read(-35, 9))
  {
    Nibble(u, 5, false, true, false, true);
    CodeAt(u, 0, 4, 4, 5);
  }

  lemma SecondCode(u: BitString)
    requires RiceBits(u)
    ensures TakeRice(u, 9, 4) == Ok(Read(-11, 15))
  {
    Nibble(u, 11, false, true, false, true);
    CodeAt(u, 9, 1, 4, 5);
  }

  lemma ThirdCode(u: BitString)
    requires RiceBits(u)
    ensures TakeRice(u, 15, 4) == Ok(Read(4, 20))
  {
    Nibble(u, 16, true, false, false, false);
    CodeAt(u, 15, 0, 4, 8);
  }

  lemma FourthCode(u: BitString)
    requires RiceBits(u)
    ensures TakeRice(u, 20, 4) == Ok(Read(-12, 26))
  {
    Nibble(u, 22, false, true, true, true);
    CodeAt(u, 20, 1, 4, 7);
  }

  lemma FifthCode(u: BitString)
    requires RiceBits(u)
    ensures TakeRice(u, 26, 4) == Ok(Read(8, 32))
  {
    Nibble(u, 28, false, false, false, false);
    CodeAt(u, 26, 1, 4, 0);
  }

  /** A run of Rice codes is its first code followed by the rest. */
  lemma RicesCons(u: BitString, p: nat, count: nat, k: nat, x: int, next: nat, rest: seq<int>, e: nat)
    requires p <= |u| && count > 0
    requires TakeRice(u, p, k) == Ok(Read(x, next))
    requires TakeRices(u, next, count - 1, k) == Ok(Read(rest, e))
    ensures TakeRices(u, p, count, k) == Ok(Read([x] + rest, e))
  {
  }

  /** `read_rice_int(4)` five times on 0x0A 0xAB 0x85 0xD0 gives -35, -11, 4,
      -12 and 8 and uses up all 32 bits. */
  lemma RiceVector(d: seq<Byte>)
    requires RiceBytes(d)
    ensures TakeRices(BytesBits(d), 0, 5, 4) == Ok(Read([-35, -11, 4, -12, 8], 32))
  {
    var u := BytesBits(d);
    RiceBitsOf(d);
    FirstCode(u);
    SecondCode(u);
    ThirdCode(u);
    FourthCode(u);
    FifthCode(u);
    assert TakeRices(u, 32, 0, 4) == Ok(Read([], 32));
    RicesCons(u, 26, 1, 4, 8, 32, [], 32);
    assert [8] + [] == [8];
    RicesCons(u, 20, 2, 4, -12, 26, [8], 32);
    assert [-12] + [8] == [-12, 8];
    RicesCons(u, 15, 3, 4, 4, 20, [-12, 8], 32);
    assert [4] + [-12, 8] == [4, -12, 8];
    RicesCons(u, 9, 4, 4, -11, 15, [4, -12, 8], 32);
    assert [-11] + [4, -12, 8] == [-11, 4, -12, 8];
    RicesCons(u, 0, 5, 4, -35, 9, [-11, 4, -12, 8], 32);
    assert [-35] + [-11, 4, -12, 8] == [-35, -11, 4, -12, 8];
  }

  /** The three bytes the bit stream tests read: 0b11100101, 0b01100001, 0b00001111. */
  predicate StreamBytes(d: seq<Byte>)
  {
    |d| == 3 && d[0] == 0xE5 && d[1] == 0x61 && d[2] == 0x0F
  }

  /** The powers of two the test's fields are cut at. */
  lemma StreamPowers()
    ensures Pow2(1) == 2 && Pow2(3) == 8 && Pow2(8) == 256 && Pow2(12) == 4096
    ensures Pow2(13) == 8192 && Pow2(16) == 65536 && Pow2(21) == 2097152
  {
    SmallPowers();
    Pow2Sixteen();
    Pow2Add(8, 4);
    Pow2Add(12, 1);
    Pow2Add(16, 5);
    Pow2Add(4, 4);
  }

  /** The test bytes as one 24-bit number. */
  lemma StreamValue(d: seq<Byte>)
    requires StreamBytes(d)
    ensures |BytesBits(d)| == 24 && BitsValue(BytesBits(d)) == 0xE5610F
  {
    BitsValueOfBytes(d);
    BigEndianTriple(d, 0);
    assert d[0..3] == d;
  }

  /** Bits `i` up to `j` of a 24-bit string of value 0xE5610F, as a number. */
  lemma StreamField(u: BitString, i: nat, j: nat, below: nat, width: nat)
    requires |u| == 24 && BitsValue(u) == 0xE5610F && i <= j <= 24
    requires below == Pow2(24 - j) && width == Pow2(j - i)
    ensures BitsValue(u[i..j]) == (0xE5610F / below) % width
  {
    FieldOfValue(u, i, j);
  }

  /** The fields the bit stream tests read, as numbers. */
  lemma StreamFields(u: BitString)
    requires |u| == 24 && BitsValue(u) == 0xE5610F
    ensures BitsValue(u[0..3]) == 7 && BitsValue(u[3..11]) == 0x2B && BitsValue(u[11..12]) == 0
    ensures BitsValue(u[5..8]) == 5 && BitsValue(u[0..8]) == 0xE5 && BitsValue(u[8..16]) == 0x61
  {
    StreamPowers();
    StreamField(u, 0, 3, 2097152, 8);
    StreamField(u, 3, 11, 8192, 256);
    StreamField(u, 11, 12, 4096, 2);
    StreamField(u, 5, 8, 65536, 8);
    StreamField(u, 0, 8, 65536, 256);
    StreamField(u, 8, 16, 256, 256);
  }

  /** The two byte reads of the tests: at the start, and after five bits. */
  lemma StreamByteReads(u: BitString)
    requires |u| == 24 && BitsValue(u[0..8]) == 0xE5 && BitsValue(u[8..16]) == 0x61
    ensures TakeByteOrEnd(u, 0) == Read(0xE5, 8) && TakeByteOrEnd(u, 5) == Read(0x61, 16)
  {
    assert Align(u, 0) == 0 && Align(u, 5) == 8;
  }

  /** `read_uint(3)`, `read_uint(8)` and `read_uint(1)` on the test bytes give
      0b111, 0b00101011 and 0. */
  method BitStreamVector(d: seq<Byte>) returns (a: Result<nat>, b: Result<nat>, c: Result<nat>)
    requires StreamBytes(d)
    ensures a == Ok(7) && b == Ok(0x2B) && c == Ok(0)
  {
    var s := new BitStream(d);
    StreamValue(d);
    StreamFields(s.bits);
    a := s.ReadUint(3);
    b, c := ReadAfterThree(s);
  }

  /** The second and third reads of the test, on a stream three bits in. */
  method ReadAfterThree(s: BitStream) returns (b: Result<nat>, c: Result<nat>)
    requires s.Valid() && s.Consumed() == 3 && |s.bits| == 24
    requires BitsValue(s.bits[3..11]) == 0x2B && BitsValue(s.bits[11..12]) == 0
    modifies s
    ensures b == Ok(0x2B) && c == Ok(0)
  {
    b := s.ReadUint(8);
    c := s.ReadUint(1);
  }

  /** Five bits consumed with fewer than eight buffered: one byte pulled, three bits left. */
  lemma FivePosition(pos: nat, length: nat)
    requires 8 * pos - length == 5 && length < 8
    ensures pos == 1 && length == 3
  {
  }

  /** After `read_uint(5)` the buffer holds the first byte's last three bits, 0b101. */
  method BufferVector(d: seq<Byte>) returns (buffer: nat, length: nat)
    requires StreamBytes(d)
    ensures buffer == 5 && length == 3
  {
    var s := new BitStream(d);
    StreamValue(d);
    StreamFields(s.bits);
    var _ := s.ReadUint(5);
    assert s.Valid() && s.Consumed() == 5;
    FivePosition(s.pos, s.bufLen);
    assert s.buf == BitsValue(s.bits[5..8]);
    buffer, length := s.buf, s.bufLen;
  }

  /** `read_byte()` on the test bytes gives the first byte, 0b11100101. */
  method ReadByteVector(d: seq<Byte>) returns (first: int)
    requires StreamBytes(d)
    ensures first == 0xE5
  {
    var s := new BitStream(d);
    StreamValue(d);
    StreamFields(s.bits);
    StreamByteReads(s.bits);
    first := s.ReadByte();
  }

  /** After `read_uint(5)`, `read_byte()` skips to the second byte, 0b01100001,
      and leaves the buffer empty. */
  method AlignVector(d: seq<Byte>) returns (second: int, buffer: nat, length: nat)
    requires StreamBytes(d)
    ensures second == 0x61 && buffer == 0 && length == 0
  {
    var s := new BitStream(d);
    StreamValue(d);
    StreamFields(s.bits);
    StreamByteReads(s.bits);
    var _ := s.ReadUint(5);
    assert s.Valid() && s.Consumed() == 5;
    second := s.ReadByte();
    buffer, length := s.buf, s.bufLen;
  }

  /** Appending a byte shifts the big-endian value up by eight bits. */
  lemma BigEndianSnoc(s: seq<Byte>, b: Byte)
    ensures BigEndian(s + [b]) == BigEndian(s) * 256 + b
  {
    assert (s + [b])[..|s|] == s;
  }

  lemma Pow2Sixteen()
    ensures Pow2(16) == 65536
  {
    assert Pow2(4) == 16;
    Pow2Add(4, 4);
    Pow2Add(8, 8);
  }

  lemma Pow2ThirtySix()
    ensures Pow2(20) == 1048576 && Pow2(36) == 68719476736
  {
    Pow2Sixteen();
    assert Pow2(4) == 16;
    Pow2Add(16, 4);
    Pow2Add(20, 16);
  }

  /** The powers of two the STREAMINFO fields are cut at. */
  lemma StreamInfoPowers()
    ensures Pow2(0) == 1 && Pow2(3) == 8 && Pow2(5) == 32 && Pow2(20) == 1048576
    ensures Pow2(36) == 68719476736 && Pow2(41) == 2199023255552 && Pow2(44) == 17592186044416
  {
    Pow2ThirtySix();
    assert Pow2(5) == 32;
    Pow2Add(36, 5);
    Pow2Add(41, 3);
  }

  /** The eighteen bytes of packed fields of the STREAMINFO example. */
  const StreamInfoFields: seq<Byte> :=
    [0x04, 0x80, 0x04, 0x80, 0x00, 0x06, 0x72, 0x00, 0x17, 0xF2, 0x17, 0x70, 0x03, 0x70, 0x00, 0x3A, 0x69, 0x80]

  /** Bytes 10 to 17 of the example, read as one 64-bit big-endian number. */
  lemma PackedValue(d: seq<Byte>)
    requires |d| >= 18 && d[..18] == StreamInfoFields
    ensures BitsValue(BytesBits(d[10..18])) == 1688853639838984576
  {
    var w := d[10..18];
    BitsValueOfBytes(w);
    assert w == [0x17] + [0x70] + [0x03] + [0x70] + [0x00] + [0x3A] + [0x69] + [0x80] by {
      assert forall i :: 0 <= i < 8 ==> w[i] == StreamInfoFields[10 + i];
    }
    assert BigEndian([0x17]) == 0x17 by { assert [0x17][..0] == []; }
    BigEndianSnoc([0x17], 0x70);
    BigEndianSnoc([0x17] + [0x70], 0x03);
    BigEndianSnoc([0x17] + [0x70] + [0x03], 0x70);
    BigEndianSnoc([0x17] + [0x70] + [0x03] + [0x70], 0x00);
    BigEndianSnoc([0x17] + [0x70] + [0x03] + [0x70] + [0x00], 0x3A);
    BigEndianSnoc([0x17] + [0x70] + [0x03] + [0x70] + [0x00] + [0x3A], 0x69);
    BigEndianSnoc([0x17] + [0x70] + [0x03] + [0x70] + [0x00] + [0x3A] + [0x69], 0x80);
  }

  /** A big-endian pair of bytes. */
  lemma BigEndianPair(d: seq<Byte>, i: nat)
    requires i + 2 <= |d|
    ensures BigEndian(d[i..i + 2]) == d[i] as int * 256 + d[i + 1]
  {
    assert d[i..i + 2] == [d[i]] + [d[i + 1]];
    assert [d[i]][..0] == [];
    BigEndianSnoc([d[i]], d[i + 1]);
  }

  /** A big-endian triple of bytes. */
  lemma BigEndianTriple(d: seq<Byte>, i: nat)
    requires i + 3 <= |d|
    ensures BigEndian(d[i..i + 3]) == (d[i] as int * 256 + d[i + 1]) * 256 + d[i + 2]
  {
    assert d[i..i + 3] == d[i..i + 2] + [d[i + 2]];
    BigEndianPair(d, i);
    BigEndianSnoc(d[i..i + 2], d[i + 2]);
  }

  /** The STREAMINFO example: block sizes 1152 and 1152, frame sizes 1650 and
      6130, 96000 Hz, two channels of 24 bits, 3828096 samples, and the last
      sixteen bytes as the signature; all 34 bytes are read. */
  lemma StreamInfoVector(d: seq<Byte>)
    requires |d| == 34 && d[..18] == StreamInfoFields
    ensures TakeStreamInfo(BytesBits(d), 0)
         == Ok(Read(StreamInfo(1152, 1152, 1650, 6130, 96000, 2, 24, 3828096, d[18..]), 272))
  {
    StreamInfoOfBytes(d);
    StreamInfoSizes(d);
    PackedFields(d);
    assert d[18..Min(|d|, 34)] == d[18..];
  }

  /** The block and frame sizes of the example, as big-endian byte groups. */
  lemma StreamInfoSizes(d: seq<Byte>)
    requires |d| >= 18 && d[..18] == StreamInfoFields
    ensures BigEndian(d[0..2]) == 1152 && BigEndian(d[2..4]) == 1152
    ensures BigEndian(d[4..7]) == 1650 && BigEndian(d[7..10]) == 6130
  {
    HeadBytes(d);
    BigEndianPair(d, 0);
    BigEndianPair(d, 2);
    BigEndianTriple(d, 4);
    BigEndianTriple(d, 7);
  }

  /** The first eighteen bytes one by one. */
  lemma HeadBytes(d: seq<Byte>)
    requires |d| >= 18 && d[..18] == StreamInfoFields
    ensures d[0] == 0x04 && d[1] == 0x80 && d[2] == 0x04 && d[3] == 0x80
    ensures d[4] == 0x00 && d[5] == 0x06 && d[6] == 0x72 && d[7] == 0x00 && d[8] == 0x17 && d[9] == 0xF2
  {
    assert forall i :: 0 <= i < 18 ==> d[i] == d[..18][i];
  }

  /** The bit fields of bytes 10 to 17: 96000 Hz, channel code 1, depth code
      23 and 3828096 samples. */
  lemma PackedFields(d: seq<Byte>)
    requires |d| >= 18 && d[..18] == StreamInfoFields
    ensures var w := BytesBits(d[10..18]);
      && Field(w, 0, 0, 20) == 96000 && Field(w, 0, 20, 3) == 1
      && Field(w, 0, 23, 5) == 23 && Field(w, 0, 28, 36) == 3828096
  {
    var w := BytesBits(d[10..18]);
    var v := 1688853639838984576;
    PackedValue(d);
    StreamInfoPowers();
    FieldOfNumber(w, 0, 20, v, 17592186044416, 1048576, 96000);
    FieldOfNumber(w, 20, 23, v, 2199023255552, 8, 1);
    FieldOfNumber(w, 23, 28, v, 68719476736, 32, 23);
    FieldOfNumber(w, 28, 64, v, 1, 68719476736, 3828096);
  }

  /** A bit field of a 64-bit string of known value, given the powers of two
      that cut it out. */
  lemma FieldOfNumber(w: BitString, i: nat, j: nat, v: nat, below: nat, width: nat, x: nat)
    requires |w| == 64 && i <= j <= 64 && BitsValue(w) == v
    requires below == Pow2(64 - j) && width == Pow2(j - i) && x == (v / below) % width
    ensures Field(w, 0, i, j - i) == x
  {
    FieldOfValue(w, i, j);
  }

  /** Four bytes as one big-endian number. */
  lemma BigEndianQuad(d: seq<Byte>, i: nat)
    requires i + 4 <= |d|
    ensures BigEndian(d[i..i + 4]) == ((d[i] as int * 256 + d[i + 1]) * 256 + d[i + 2]) * 256 + d[i + 3]
  {
    assert d[i..i + 4] == d[i..i + 3] + [d[i + 3]];
    BigEndianTriple(d, i);
    BigEndianSnoc(d[i..i + 3], d[i + 3]);
  }

  /** A 32-bit read at byte `i` is the big-endian value of bytes `i` to `i + 4`. */
  lemma Uint32At(d: seq<Byte>, i: nat, v: nat)
    requires i + 4 <= |d| && v == BigEndian(d[i..i + 4])
    ensures TakeUint(BytesBits(d), 8 * i, 32) == Ok(Read(v, 8 * i + 32))
  {
    ByteField(d, i, i + 4);
    UintOfField(BytesBits(d), 8 * i, 8 * (i + 4), 32, v);
  }

  /** A read of `n` bits whose value is known. */
  lemma UintOfField(u: BitString, p: nat, e: nat, n: nat, v: nat)
    requires e == p + n <= |u| && BitsValue(u[p..e]) == v
    ensures TakeUint(u, p, n) == Ok(Read(v, p + n))
  {
  }

  const Mime: seq<Byte> := [0x69, 0x6D, 0x61, 0x67, 0x65, 0x2F, 0x6A, 0x70, 0x65, 0x67]
  const Description: seq<Byte> := [0x46, 0x72, 0x6F, 0x6E, 0x74, 0x20, 0x43, 0x6F, 0x76, 0x65, 0x72]

  /** The PICTURE example: type 3, `image/jpeg`, `Front Cover`, 1200 by 1200,
      depth 24, no palette, then an image length of 0x000A2243 followed by
      only the two bytes `FF D8`. */
  const PictureExample: seq<Byte> :=
    [0, 0, 0, 3] + [0, 0, 0, 10] + Mime + [0, 0, 0, 11] + Description
    + [0, 0, 4, 0xB0] + [0, 0, 4, 0xB0] + [0, 0, 0, 0x18] + [0, 0, 0, 0] + [0, 0x0A, 0x22, 0x43] + [0xFF, 0xD8]

  /** The parts of the example, at their byte offsets. */
  lemma PictureExampleParts(d: seq<Byte>)
    requires d == PictureExample
    ensures |d| == 55
    ensures d[0..4] == [0, 0, 0, 3] && d[4..8] == [0, 0, 0, 10]
    ensures d[8..18] == Mime
    ensures d[18..22] == [0, 0, 0, 11] && d[22..33] == Description
    ensures d[33..37] == [0, 0, 4, 0xB0] && d[37..41] == [0, 0, 4, 0xB0]
    ensures d[41..45] == [0, 0, 0, 0x18] && d[45..49] == [0, 0, 0, 0]
    ensures d[49..53] == [0, 0x0A, 0x22, 0x43] && d[53..55] == [0xFF, 0xD8]
  {
  }

  /** A 32-bit read of four known bytes. */
  lemma Word(d: seq<Byte>, i: nat, a: Byte, b: Byte, c: Byte, e: Byte)
    requires i + 4 <= |d| && d[i..i + 4] == [a, b, c, e]
    ensures TakeUint(BytesBits(d), 8 * i, 32)
         == Ok(Read(((a as int * 256 + b) * 256 + c) * 256 + e, 8 * i + 32))
  {
    QuadValue(d, i, a, b, c, e);
    Uint32At(d, i, ((a as int * 256 + b) * 256 + c) * 256 + e);
  }

  /** Four known bytes, read big-endian. */
  lemma QuadValue(d: seq<Byte>, i: nat, a: Byte, b: Byte, c: Byte, e: Byte)
    requires i + 4 <= |d| && d[i..i + 4] == [a, b, c, e]
    ensures BigEndian(d[i..i + 4]) == ((a as int * 256 + b) * 256 + c) * 256 + e
  {
    assert d[i] == a && d[i + 1] == b && d[i + 2] == c && d[i + 3] == e by {
      assert d[i..i + 4][0] == d[i] && d[i..i + 4][1] == d[i + 1];
      assert d[i..i + 4][2] == d[i + 2] && d[i..i + 4][3] == d[i + 3];
    }
    BigEndianQuad(d, i);
  }

  /** The type code and the two text lengths of the example. */
  lemma PictureExampleLengths(d: seq<Byte>)
    requires d == PictureExample
    ensures var u := BytesBits(d);
      && TakeUint(u, 0, 32) == Ok(Read(3, 32))
      && TakeUint(u, 32, 32) == Ok(Read(10, 64))
      && TakeUint(u, 144, 32) == Ok(Read(11, 176))
  {
    PictureExampleParts(d);
    Word(d, 0, 0, 0, 0, 3);
    Word(d, 4, 0, 0, 0, 10);
    Word(d, 18, 0, 0, 0, 11);
  }

  /** The dimensions of the example. */
  lemma PictureExampleDimensions(d: seq<Byte>)
    requires d == PictureExample
    ensures PictureBlock.TakeDimensions(BytesBits(d), 264)
         == Ok(Read(PictureBlock.Dimensions(1200, 1200, 24, 0), 392))
  {
    var u := BytesBits(d);
    PictureExampleParts(d);
    Word(d, 33, 0, 0, 4, 0xB0);
    Word(d, 37, 0, 0, 4, 0xB0);
    Word(d, 41, 0, 0, 0, 0x18);
    Word(d, 45, 0, 0, 0, 0);
  }

  /** The image of the example: its length field asks for 0x000A2243 bytes,
      and the two that are left come back. */
  lemma PictureExampleImage(d: seq<Byte>)
    requires d == PictureExample
    ensures PictureBlock.TakeBlob(BytesBits(d), 392) == Ok(Read([0xFF, 0xD8], 440))
  {
    PictureExampleParts(d);
    Word(d, 49, 0, 0x0A, 0x22, 0x43);
    TakeBytesOfBytes(d, 53, 0x000A2243, 55);
  }

  /** A length-prefixed text is read whole when its length field says `n`
      and the `n` bytes after it are valid. */
  lemma TextFromParts(u: BitString, p: nat, n: nat, t: seq<Byte>, e: nat)
    requires p <= |u| && TakeUint(u, p, 32) == Ok(Read(n, p + 32))
    requires TakeBytes(u, p + 32, n) == Read(t, e) && ValidUtf8(t)
    ensures PictureBlock.TakeText(u, p) == Ok(Read(t, e))
  {
  }

  /** The MIME type of the example, read whole and valid. */
  lemma PictureExampleMime(d: seq<Byte>)
    requires d == PictureExample
    ensures PictureBlock.TakeText(BytesBits(d), 32) == Ok(Read(Mime, 144))
  {
    var u := BytesBits(d);
    PictureExampleParts(d);
    PictureExampleLengths(d);
    AsciiValid(Mime);
    TakeBytesOfBytes(d, 8, 10, 18);
    TextFromParts(u, 32, 10, Mime, 144);
  }

  /** The description of the example, read whole and valid. */
  lemma PictureExampleDescription(d: seq<Byte>)
    requires d == PictureExample
    ensures PictureBlock.TakeText(BytesBits(d), 144) == Ok(Read(Description, 264))
  {
    var u := BytesBits(d);
    PictureExampleParts(d);
    PictureExampleLengths(d);
    AsciiValid(Description);
    TakeBytesOfBytes(d, 22, 11, 33);
    TextFromParts(u, 144, 11, Description, 264);
  }

  /** A picture whose every read is known. */
  lemma PictureFromParts(u: BitString, mime: seq<Byte>, description: seq<Byte>, d: PictureBlock.Dimensions,
                         image: seq<Byte>, e: nat)
    requires 440 <= |u| && TakeUint(u, 0, 32) == Ok(Read(3, 32))
    requires PictureBlock.TakeText(u, 32) == Ok(Read(mime, 144))
    requires PictureBlock.TakeText(u, 144) == Ok(Read(description, 264))
    requires PictureBlock.TakeDimensions(u, 264) == Ok(Read(d, 392))
    requires PictureBlock.TakeBlob(u, 392) == Ok(Read(image, e))
    ensures PictureBlock.TakePicture(u, 0)
         == Ok(Read(PictureBlock.Assembled("Cover (front)", mime, description, d, image), e))
  {
  }

  /** `parse_picture` on the example: the type name `Cover (front)`, the two
      texts, 1200 by 1200 at depth 24 with no palette, and as image data the
      two bytes that are left, since the declared image length runs past the
      end of the input; reading stops at the end, after 55 bytes. */
  lemma PictureVector(d: seq<Byte>)
    requires d == PictureExample
    ensures PictureBlock.TakePicture(BytesBits(d), 0)
         == Ok(Read(PictureBlock.Picture("Cover (front)", Mime, Description, 1200, 1200, 24, 0, [0xFF, 0xD8]), 440))
  {
    var u := BytesBits(d);
    PictureExampleParts(d);
    PictureExampleLengths(d);
    PictureExampleMime(d);
    PictureExampleDescription(d);
    PictureExampleDimensions(d);
    PictureExampleImage(d);
    PictureFromParts(u, Mime, Description, PictureBlock.Dimensions(1200, 1200, 24, 0), [0xFF, 0xD8], 440);
  }

  /** The VORBIS_COMMENT example: the vendor `reference libFLAC 1.2.1 20141125`,
      a count of 16, then 18 comments, the last two past the count. */
  const Vendor: seq<Byte> :=
    [0x72, 0x65, 0x66, 0x65, 0x72, 0x65, 0x6E, 0x63, 0x65, 0x20, 0x6C, 0x69, 0x62, 0x46, 0x4C, 0x41,
     0x43, 0x20, 0x31, 0x2E, 0x32, 0x2E, 0x31, 0x20, 0x32, 0x30, 0x31, 0x34, 0x31, 0x31, 0x32, 0x35]

  /** `ALBUM=REFLECTIONS` */
  const Album := VorbisCommentBlock.Comment(
    [0x41, 0x4C, 0x42, 0x55, 0x4D],
    [0x52, 0x45, 0x46, 0x4C, 0x45, 0x43, 0x54, 0x49, 0x4F, 0x4E, 0x53])

  /** `ALBUMARTIST=TrondheimSolistene` */
  const AlbumArtist := VorbisCommentBlock.Comment(
    [0x41, 0x4C, 0x42, 0x55, 0x4D, 0x41, 0x52, 0x54, 0x49, 0x53, 0x54],
    [0x54, 0x72, 0x6F, 0x6E, 0x64, 0x68, 0x65, 0x69, 0x6D, 0x53, 0x6F, 0x6C, 0x69, 0x73, 0x74, 0x65]
    + [0x6E, 0x65])

  /** `ARTIST=TrondheimSolistene` */
  const Artist := VorbisCommentBlock.Comment(
    [0x41, 0x52, 0x54, 0x49, 0x53, 0x54],
    [0x54, 0x72, 0x6F, 0x6E, 0x64, 0x68, 0x65, 0x69, 0x6D, 0x53, 0x6F, 0x6C, 0x69, 0x73, 0x74, 0x65]
    + [0x6E, 0x65])

  /** `BARCODE=7041888521525` */
  const Barcode := VorbisCommentBlock.Comment(
    [0x42, 0x41, 0x52, 0x43, 0x4F, 0x44, 0x45],
    [0x37, 0x30, 0x34, 0x31, 0x38, 0x38, 0x38, 0x35, 0x32, 0x31, 0x35, 0x32, 0x35])

  /** `CATALOGNUMBER=7041888521525` */
  const CatalogNumber := VorbisCommentBlock.Comment(
    [0x43, 0x41, 0x54, 0x41, 0x4C, 0x4F, 0x47, 0x4E, 0x55, 0x4D, 0x42, 0x45, 0x52],
    [0x37, 0x30, 0x34, 0x31, 0x38, 0x38, 0x38, 0x35, 0x32, 0x31, 0x35, 0x32, 0x35])

  /** `COMMENT=Generated by Merging Technologies Album Publishing\nLabel Code: 2L` */
  const Remark := VorbisCommentBlock.Comment(
    [0x43, 0x4F, 0x4D, 0x4D, 0x45, 0x4E, 0x54],
    [0x47, 0x65, 0x6E, 0x65, 0x72, 0x61, 0x74, 0x65, 0x64, 0x20, 0x62, 0x79, 0x20, 0x4D, 0x65, 0x72]
    + [0x67, 0x69, 0x6E, 0x67, 0x20, 0x54, 0x65, 0x63, 0x68, 0x6E, 0x6F, 0x6C, 0x6F, 0x67, 0x69, 0x65]
    + [0x73, 0x20, 0x41, 0x6C, 0x62, 0x75, 0x6D, 0x20, 0x50, 0x75, 0x62, 0x6C, 0x69, 0x73, 0x68, 0x69]
    + [0x6E, 0x67, 0x0A, 0x4C, 0x61, 0x62, 0x65, 0x6C, 0x20, 0x43, 0x6F, 0x64, 0x65, 0x3A, 0x20, 0x32]
    + [0x4C])

  /** `COMPOSER=Benjamin Britten` */
  const Composer := VorbisCommentBlock.Comment(
    [0x43, 0x4F, 0x4D, 0x50, 0x4F, 0x53, 0x45, 0x52],
    [0x42, 0x65, 0x6E, 0x6A, 0x61, 0x6D, 0x69, 0x6E, 0x20, 0x42, 0x72, 0x69, 0x74, 0x74, 0x65, 0x6E])

  /** `DATE=2016` */
  const Date := VorbisCommentBlock.Comment(
    [0x44, 0x41, 0x54, 0x45],
    [0x32, 0x30, 0x31, 0x36])

  /** `DISCNUMBER=1` */
  const DiscNumber := VorbisCommentBlock.Comment(
    [0x44, 0x49, 0x53, 0x43, 0x4E, 0x55, 0x4D, 0x42, 0x45, 0x52],
    [0x31])

  /** `ENCODEDBY=Merging Technologies Album Publishing` */
  const EncodedBy := VorbisCommentBlock.Comment(
    [0x45, 0x4E, 0x43, 0x4F, 0x44, 0x45, 0x44, 0x42, 0x59],
    [0x4D, 0x65, 0x72, 0x67, 0x69, 0x6E, 0x67, 0x20, 0x54, 0x65, 0x63, 0x68, 0x6E, 0x6F, 0x6C, 0x6F]
    + [0x67, 0x69, 0x65, 0x73, 0x20, 0x41, 0x6C, 0x62, 0x75, 0x6D, 0x20, 0x50, 0x75, 0x62, 0x6C, 0x69]
    + [0x73, 0x68, 0x69, 0x6E, 0x67])

  /** `GENRE=Classical` */
  const Classical := VorbisCommentBlock.Comment(
    [0x47, 0x45, 0x4E, 0x52, 0x45],
    [0x43, 0x6C, 0x61, 0x73, 0x73, 0x69, 0x63, 0x61, 0x6C])

  /** `GENRE=Rap` */
  const Rap := VorbisCommentBlock.Comment(
    [0x47, 0x45, 0x4E, 0x52, 0x45],
    [0x52, 0x61, 0x70])

  /** `GENRE=Rock` */
  const Rock := VorbisCommentBlock.Comment(
    [0x47, 0x45, 0x4E, 0x52, 0x45],
    [0x52, 0x6F, 0x63, 0x6B])

  /** `ISRC=NOMPP1603040` */
  const Isrc := VorbisCommentBlock.Comment(
    [0x49, 0x53, 0x52, 0x43],
    [0x4E, 0x4F, 0x4D, 0x50, 0x50, 0x31, 0x36, 0x30, 0x33, 0x30, 0x34, 0x30])

  /** `LABEL=2L` */
  const Label := VorbisCommentBlock.Comment(
    [0x4C, 0x41, 0x42, 0x45, 0x4C],
    [0x32, 0x4C])

  /** `TITLE=Frank Bridge Variations: 4. Romance` */
  const Title := VorbisCommentBlock.Comment(
    [0x54, 0x49, 0x54, 0x4C, 0x45],
    [0x46, 0x72, 0x61, 0x6E, 0x6B, 0x20, 0x42, 0x72, 0x69, 0x64, 0x67, 0x65, 0x20, 0x56, 0x61, 0x72]
    + [0x69, 0x61, 0x74, 0x69, 0x6F, 0x6E, 0x73, 0x3A, 0x20, 0x34, 0x2E, 0x20, 0x52, 0x6F, 0x6D, 0x61]
    + [0x6E, 0x63, 0x65])

  /** The comments the count covers, in order. */
  const ExampleComments: seq<VorbisCommentBlock.Comment> :=
    [Album, AlbumArtist, Artist, Barcode, CatalogNumber, Remark, Composer, Date,
     DiscNumber, EncodedBy, Classical, Rap, Rock, Isrc, Label, Title]

  /** `GENRE`, the name the example gives three values. */
  const GenreTag: seq<Byte> := [0x47, 0x45, 0x4E, 0x52, 0x45]

  /** A comment as the example stores it: its length `n` in four
      little-endian bytes, its name, `=` and its value. */
  function Stored(n: Byte, c: VorbisCommentBlock.Comment): (s: seq<Byte>)
    ensures |s| == 5 + |c.tag| + |c.value|
  {
    [n, 0, 0, 0] + c.tag + [0x3D] + c.value
  }

  /** The counted comments of the example, one after the other. */
  const ExampleCommentBytes: seq<Byte> :=
      Stored(0x11, Album)
    + Stored(0x1E, AlbumArtist)
    + Stored(0x19, Artist)
    + Stored(0x15, Barcode)
    + Stored(0x1B, CatalogNumber)
    + Stored(0x49, Remark)
    + Stored(0x19, Composer)
    + Stored(0x09, Date)
    + Stored(0x0C, DiscNumber)
    + Stored(0x2F, EncodedBy)
    + Stored(0x0F, Classical)
    + Stored(0x09, Rap)
    + Stored(0x0A, Rock)
    + Stored(0x11, Isrc)
    + Stored(0x08, Label)
    + Stored(0x29, Title)

  /** The two comments past the count: `TRACKNUMBER=4` and `TRACKTOTAL=22`. */
  const ExampleTrailing: seq<Byte> :=
    [0x0D, 0x00, 0x00, 0x00, 0x54, 0x52, 0x41, 0x43, 0x4B, 0x4E, 0x55, 0x4D, 0x42, 0x45, 0x52, 0x3D, 0x34]
    + [0x0D, 0x00, 0x00, 0x00, 0x54, 0x52, 0x41, 0x43, 0x4B, 0x54, 0x4F, 0x54, 0x41, 0x4C, 0x3D, 0x32, 0x32]

  /** The example's bytes: the vendor's length and the vendor, the comment
      count, the counted comments and the two trailing ones. */
  const VorbisExample: seq<Byte> :=
    [0x20, 0x00, 0x00, 0x00] + Vendor + [0x10, 0x00, 0x00, 0x00] + ExampleCommentBytes + ExampleTrailing

  lemma Pow2ThirtyTwo()
    ensures Pow2(32) == 4294967296
  {
    Pow2Sixteen();
    Pow2Add(16, 16);
  }

  /** ASCII text without an `=`. */
  predicate PlainText(s: seq<Byte>)
  {
    forall i :: 0 <= i < |s| ==> s[i] < 0x80 && s[i] != 0x3D
  }

  /** A comment with a plain name and value whose text is shorter than 256. */
  predicate PlainComment(c: VorbisCommentBlock.Comment)
  {
    PlainText(c.tag) && PlainText(c.value) && |c.tag| + |c.value| < 255
  }

  /** A plain comment can be stored. */
  lemma PlainStorable(c: VorbisCommentBlock.Comment)
    requires PlainComment(c)
    ensures VorbisCommentBlock.StorableComment(c)
  {
    var t := VorbisCommentBlock.Joined(c);
    assert forall i :: 0 <= i < |t| ==> t[i] < 0x80;
    AsciiValid(t);
    Pow2ThirtyTwo();
  }

  /** A number below 256 in four little-endian bytes. */
  lemma SmallLittleEndian(n: Byte)
    ensures LittleEndianBytes(n, 4) == [n, 0, 0, 0]
  {
    assert LittleEndianBytes(0, 3) == [0, 0, 0];
  }

  /** A comment whose text is `n` bytes long is stored as the example stores it. */
  lemma StoredAs(c: VorbisCommentBlock.Comment, n: Byte)
    requires n == |VorbisCommentBlock.Joined(c)|
    ensures VorbisCommentBlock.TextBytes(VorbisCommentBlock.Joined(c)) == Stored(n, c)
  {
    SmallLittleEndian(n);
  }

  /** The stored comments up to `k + 1` are those up to `k`, then comment `k`. */
  lemma CommentsBytesStep(cs: seq<VorbisCommentBlock.Comment>, k: nat)
    requires k < |cs|
    ensures VorbisCommentBlock.CommentsBytes(cs[..k + 1])
         == VorbisCommentBlock.CommentsBytes(cs[..k]) + VorbisCommentBlock.TextBytes(VorbisCommentBlock.Joined(cs[k]))
  {
    assert cs[..k + 1] == cs[..k] + [cs[k]];
    VorbisCommentBlock.CommentsBytesSnoc(cs[..k], cs[k]);
  }

  /** The values of a name up to comment `k + 1` are those up to `k`, then
      the value of comment `k` when it has that name. */
  lemma ValuesOfStep(cs: seq<VorbisCommentBlock.Comment>, k: nat, t: seq<Byte>)
    requires k < |cs|
    ensures VorbisCommentBlock.ValuesOf(cs[..k + 1], t)
         == VorbisCommentBlock.ValuesOf(cs[..k], t) + (if cs[k].tag == t then [cs[k].value] else [])
  {
    assert cs[..k + 1][..k] == cs[..k];
  }

  /** The first four counted comments of the example, stored. */
  lemma FirstQuarterStored()
    ensures var cs := ExampleComments;
      VorbisCommentBlock.CommentsBytes(cs[..4]) == Stored(0x11, Album) + Stored(0x1E, AlbumArtist) + Stored(0x19, Artist) + Stored(0x15, Barcode)
  {
    var cs := ExampleComments;
    assert cs[0] == Album && cs[1] == AlbumArtist && cs[2] == Artist && cs[3] == Barcode;
    assert cs[..0] == [];
    StoredAs(cs[0], 0x11);
    CommentsBytesStep(cs, 0);
    StoredAs(cs[1], 0x1E);
    CommentsBytesStep(cs, 1);
    StoredAs(cs[2], 0x19);
    CommentsBytesStep(cs, 2);
    StoredAs(cs[3], 0x15);
    CommentsBytesStep(cs, 3);
  }

  /** The second four counted comments of the example, stored. */
  lemma SecondQuarterStored()
    ensures var cs := ExampleComments;
      VorbisCommentBlock.CommentsBytes(cs[..8]) == VorbisCommentBlock.CommentsBytes(cs[..4]) + Stored(0x1B, CatalogNumber) + Stored(0x49, Remark) + Stored(0x19, Composer) + Stored(0x09, Date)
  {
    var cs := ExampleComments;
    assert cs[4] == CatalogNumber && cs[5] == Remark && cs[6] == Composer && cs[7] == Date;
    StoredAs(cs[4], 0x1B);
    CommentsBytesStep(cs, 4);
    StoredAs(cs[5], 0x49);
    CommentsBytesStep(cs, 5);
    StoredAs(cs[6], 0x19);
    CommentsBytesStep(cs, 6);
    StoredAs(cs[7], 0x09);
    CommentsBytesStep(cs, 7);
  }

  /** The third four counted comments of the example, stored. */
  lemma ThirdQuarterStored()
    ensures var cs := ExampleComments;
      VorbisCommentBlock.CommentsBytes(cs[..12]) == VorbisCommentBlock.CommentsBytes(cs[..8]) + Stored(0x0C, DiscNumber) + Stored(0x2F, EncodedBy) + Stored(0x0F, Classical) + Stored(0x09, Rap)
  {
    var cs := ExampleComments;
    assert cs[8] == DiscNumber && cs[9] == EncodedBy && cs[10] == Classical && cs[11] == Rap;
    StoredAs(cs[8], 0x0C);
    CommentsBytesStep(cs, 8);
    StoredAs(cs[9], 0x2F);
    CommentsBytesStep(cs, 9);
    StoredAs(cs[10], 0x0F);
    CommentsBytesStep(cs, 10);
    StoredAs(cs[11], 0x09);
    CommentsBytesStep(cs, 11);
  }

  /** The fourth four counted comments of the example, stored. */
  lemma FourthQuarterStored()
    ensures var cs := ExampleComments;
      VorbisCommentBlock.CommentsBytes(cs[..16]) == VorbisCommentBlock.CommentsBytes(cs[..12]) + Stored(0x0A, Rock) + Stored(0x11, Isrc) + Stored(0x08, Label) + Stored(0x29, Title)
  {
    var cs := ExampleComments;
    assert cs[12] == Rock && cs[13] == Isrc && cs[14] == Label && cs[15] == Title;
    StoredAs(cs[12], 0x0A);
    CommentsBytesStep(cs, 12);
    StoredAs(cs[13], 0x11);
    CommentsBytesStep(cs, 13);
    StoredAs(cs[14], 0x08);
    CommentsBytesStep(cs, 14);
    StoredAs(cs[15], 0x29);
    CommentsBytesStep(cs, 15);
  }

  /** The counted comments of the example are stored as `CommentsBytes`
      lays them out. */
  lemma ExampleCommentsStored()
    ensures VorbisCommentBlock.CommentsBytes(ExampleComments) == ExampleCommentBytes
  {
    FirstQuarterStored();
    SecondQuarterStored();
    ThirdQuarterStored();
    FourthQuarterStored();
    assert ExampleComments[..16] == ExampleComments;
  }

  /** `Album` and `AlbumArtist` are plain. */
  lemma AlbumAndAlbumArtistPlain()
    ensures PlainComment(Album) && PlainComment(AlbumArtist)
  {
  }

  /** `Artist` and `Barcode` are plain. */
  lemma ArtistAndBarcodePlain()
    ensures PlainComment(Artist) && PlainComment(Barcode)
  {
  }

  /** `CatalogNumber` is plain. */
  lemma CatalogNumberPlain()
    ensures PlainComment(CatalogNumber)
  {
  }

  /** Two adjacent plain stretches make a plain stretch. */
  lemma PlainJoin(s: seq<Byte>, i: nat, j: nat, k: nat)
    requires i <= j <= k <= |s| && PlainText(s[i..j]) && PlainText(s[j..k])
    ensures PlainText(s[i..k])
  {
    forall n | i <= n < k
      ensures s[n] < 0x80 && s[n] != 0x3D
    {
      if n < j {
        assert s[i..j][n - i] == s[n];
      } else {
        assert s[j..k][n - j] == s[n];
      }
    }
  }

  /** The first 32 bytes of the value of `Remark` are plain. */
  lemma RemarkHeadPlain()
    ensures |Remark.value| == 65 && PlainText(Remark.value[0..32])
  {
    var v := Remark.value;
    assert |v| == 65;
    assert PlainText(v[0..16]) && PlainText(v[16..32]);
    PlainJoin(v, 0, 16, 32);
  }

  /** The last 33 bytes of the value of `Remark` are plain. */
  lemma RemarkTailPlain()
    ensures |Remark.value| == 65 && PlainText(Remark.value[32..65])
  {
    var v := Remark.value;
    assert |v| == 65;
    assert PlainText(v[32..48]) && PlainText(v[48..65]);
    PlainJoin(v, 32, 48, 65);
  }

  /** `Remark` is plain. */
  lemma RemarkPlain()
    ensures PlainComment(Remark)
  {
    var v := Remark.value;
    RemarkHeadPlain();
    RemarkTailPlain();
    PlainJoin(v, 0, 32, 65);
    assert v[0..65] == v;
  }

  /** `Composer` and `Date` are plain. */
  lemma ComposerAndDatePlain()
    ensures PlainComment(Composer) && PlainComment(Date)
  {
  }

  /** `DiscNumber` and `EncodedBy` are plain. */
  lemma DiscNumberAndEncodedByPlain()
    ensures PlainComment(DiscNumber) && PlainComment(EncodedBy)
  {
  }

  /** `Classical` and `Rap` are plain. */
  lemma ClassicalAndRapPlain()
    ensures PlainComment(Classical) && PlainComment(Rap)
  {
  }

  /** `Rock` and `Isrc` are plain. */
  lemma RockAndIsrcPlain()
    ensures PlainComment(Rock) && PlainComment(Isrc)
  {
  }

  /** `Label` and `Title` are plain. */
  lemma LabelAndTitlePlain()
    ensures PlainComment(Label) && PlainComment(Title)
  {
  }

  /** Every counted comment of the example can be stored. */
  lemma ExampleStorable()
    ensures forall i :: 0 <= i < |ExampleComments| ==> VorbisCommentBlock.StorableComment(ExampleComments[i])
  {
    AlbumAndAlbumArtistPlain();
    ArtistAndBarcodePlain();
    CatalogNumberPlain();
    RemarkPlain();
    ComposerAndDatePlain();
    DiscNumberAndEncodedByPlain();
    ClassicalAndRapPlain();
    RockAndIsrcPlain();
    LabelAndTitlePlain();
    forall i | 0 <= i < |ExampleComments|
      ensures VorbisCommentBlock.StorableComment(ExampleComments[i])
    {
      assert ExampleComments[i] in ExampleComments;
      PlainStorable(ExampleComments[i]);
    }
  }

  /** The example is a block laid out by `VorbisBytes`, then the two
      trailing comments. */
  lemma ExampleLayout()
    ensures VorbisExample == VorbisCommentBlock.VorbisBytes(Vendor, ExampleComments) + ExampleTrailing
  {
    ExampleCommentsStored();
    SmallLittleEndian(32);
    SmallLittleEndian(16);
  }

  /** The values of `GENRE` among the first four counted comments. */
  lemma FirstQuarterGenres()
    ensures var cs := ExampleComments;
      VorbisCommentBlock.ValuesOf(cs[..4], GenreTag) == []
  {
    var cs := ExampleComments;
    assert cs[0] == Album && cs[1] == AlbumArtist && cs[2] == Artist && cs[3] == Barcode;
    assert Album.tag[0] != GenreTag[0];
    assert cs[..0] == [];
    ValuesOfStep(cs, 0, GenreTag);
    ValuesOfStep(cs, 1, GenreTag);
    ValuesOfStep(cs, 2, GenreTag);
    ValuesOfStep(cs, 3, GenreTag);
  }

  /** The values of `GENRE` among the second four counted comments. */
  lemma SecondQuarterGenres()
    ensures var cs := ExampleComments;
      VorbisCommentBlock.ValuesOf(cs[..8], GenreTag) == VorbisCommentBlock.ValuesOf(cs[..4], GenreTag)
  {
    var cs := ExampleComments;
    assert cs[4] == CatalogNumber && cs[5] == Remark && cs[6] == Composer && cs[7] == Date;
    ValuesOfStep(cs, 4, GenreTag);
    ValuesOfStep(cs, 5, GenreTag);
    ValuesOfStep(cs, 6, GenreTag);
    ValuesOfStep(cs, 7, GenreTag);
  }

  /** The values of `GENRE` among the third four counted comments. */
  lemma ThirdQuarterGenres()
    ensures var cs := ExampleComments;
      VorbisCommentBlock.ValuesOf(cs[..12], GenreTag) == VorbisCommentBlock.ValuesOf(cs[..8], GenreTag) + [Classical.value] + [Rap.value]
  {
    var cs := ExampleComments;
    assert cs[8] == DiscNumber && cs[9] == EncodedBy && cs[10] == Classical && cs[11] == Rap;
    ValuesOfStep(cs, 8, GenreTag);
    ValuesOfStep(cs, 9, GenreTag);
    ValuesOfStep(cs, 10, GenreTag);
    ValuesOfStep(cs, 11, GenreTag);
  }

  /** The values of `GENRE` among the fourth four counted comments. */
  lemma FourthQuarterGenres()
    ensures var cs := ExampleComments;
      VorbisCommentBlock.ValuesOf(cs[..16], GenreTag) == VorbisCommentBlock.ValuesOf(cs[..12], GenreTag) + [Rock.value]
  {
    var cs := ExampleComments;
    assert cs[12] == Rock && cs[13] == Isrc && cs[14] == Label && cs[15] == Title;
    assert Label.tag[0] != GenreTag[0] && Title.tag[0] != GenreTag[0];
    ValuesOfStep(cs, 12, GenreTag);
    ValuesOfStep(cs, 13, GenreTag);
    ValuesOfStep(cs, 14, GenreTag);
    ValuesOfStep(cs, 15, GenreTag);
  }

  /** The values of `GENRE` among the counted comments, in order. */
  lemma ExampleGenres()
    ensures VorbisCommentBlock.ValuesOf(ExampleComments, GenreTag) == [Classical.value, Rap.value, Rock.value]
  {
    FirstQuarterGenres();
    SecondQuarterGenres();
    ThirdQuarterGenres();
    FourthQuarterGenres();
    assert ExampleComments[..16] == ExampleComments;
  }

  /** The vendor of the example can be stored. */
  lemma VendorStorable()
    ensures VorbisCommentBlock.Storable(Vendor)
  {
    AsciiValid(Vendor);
    Pow2ThirtyTwo();
  }

  /** The counted part of the example is 490 bytes long. */
  lemma ExampleLength()
    ensures |VorbisCommentBlock.VorbisBytes(Vendor, ExampleComments)| == 490
  {
    ExampleLayout();
    assert |VorbisExample| == 524;
  }

  /** The example read whole: its vendor, and the map of its counted comments. */
  lemma ExampleRead()
    ensures VorbisCommentBlock.TakeVorbisComment(BytesBits(VorbisExample), 0)
         == Ok(Read(VorbisCommentBlock.VorbisComment(Vendor, VorbisCommentBlock.Tags(ExampleComments)), 8 * 490))
  {
    ExampleLayout();
    ExampleStorable();
    VendorStorable();
    Pow2ThirtyTwo();
    VorbisCommentBlock.VorbisRoundTrip(Vendor, ExampleComments, ExampleTrailing);
    ExampleLength();
  }

  /** `test_with_multiple_tag_values`: `parse_comments` on the example reads
      the vendor and the 16 counted comments, stops after byte 490 without
      reading the two trailing comments, and keeps the three `GENRE` values
      in their order. */
  lemma VorbisVector(d: seq<Byte>)
    requires d == VorbisExample
    ensures var r := VorbisCommentBlock.TakeVorbisComment(BytesBits(d), 0);
      && r.Ok? && r.value.next == 8 * 490 && r.value.value.vendor == Vendor
      && GenreTag in r.value.value.tags && r.value.value.tags[GenreTag] == [Classical.value, Rap.value, Rock.value]
  {
    ExampleRead();
    ExampleGenres();
    VorbisCommentBlock.TagsHoldValues(ExampleComments, GenreTag);
  }
}
