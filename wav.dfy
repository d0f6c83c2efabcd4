/** The canonical 44-byte RIFF/WAVE PCM header written before the decoded
    samples: the `RIFF` chunk with its size, the `WAVE` form type, a 16-byte
    `fmt ` chunk and the header of the `data` chunk. */
module Wav {
  import opened Bits
  import opened Reader

  /** The four stream properties the header is built from. */
  datatype Format = Format(channels: nat, sampleRate: nat, sampleWidth: nat, totalSamples: nat)

  const Riff: seq<Byte> := [0x52, 0x49, 0x46, 0x46]
  const Wave: seq<Byte> := [0x57, 0x41, 0x56, 0x45]
  const FmtId: seq<Byte> := [0x66, 0x6D, 0x74, 0x20]
  const DataId: seq<Byte> := [0x64, 0x61, 0x74, 0x61]

  /** `sample_width // 8`: whole bytes per sample. */
  function ByteWidth(f: Format): nat
  {
    f.sampleWidth / 8
  }

  /** `total_samples * channels * byte_width`: the bytes of sample data. */
  function DataLength(f: Format): nat
  {
    f.totalSamples * f.channels * ByteWidth(f)
  }

  /** `sample_rate * channels * byte_width`. */
  function ByteRate(f: Format): nat
  {
    f.sampleRate * f.channels * ByteWidth(f)
  }

  /** `channels * byte_width`. */
  function BlockAlign(f: Format): nat
  {
    f.channels * ByteWidth(f)
  }

  /** Every value `struct.pack` writes fits its field: the RIFF size and both
      32-bit fields of the `fmt ` chunk below 2^32, the 16-bit ones below 2^16. */
  predicate Fits(f: Format)
  {
    && DataLength(f) + 36 < Pow2(32)
    && f.channels < Pow2(16) && f.sampleRate < Pow2(32) && ByteRate(f) < Pow2(32)
    && BlockAlign(f) < Pow2(16) && f.sampleWidth < Pow2(16)
  }

  /** `RIFF`, `pack('<I', data_len + 36)`, `WAVE` and `fmt `. */
  function RiffHeader(f: Format): (r: seq<Byte>)
    ensures |r| == 16
  {
    Riff + LittleEndianBytes(DataLength(f) + 36, 4) + Wave + FmtId
  }

  /** The body of the `fmt ` chunk, `pack('<IHHIIHH', 16, 1, channels,
      sample_rate, byte_rate, block_align, sample_width)`. */
  function FmtBody(f: Format): (r: seq<Byte>)
    ensures |r| == 20
  {
    LittleEndianBytes(16, 4) + (LittleEndianBytes(1, 2) + (LittleEndianBytes(f.channels, 2)
    + (LittleEndianBytes(f.sampleRate, 4) + (LittleEndianBytes(ByteRate(f), 4)
    + (LittleEndianBytes(BlockAlign(f), 2) + LittleEndianBytes(f.sampleWidth, 2))))))
  }

  /** `data` and `pack('<I', data_len)`. */
  function DataHeader(f: Format): (r: seq<Byte>)
    ensures |r| == 8
  {
    DataId + LittleEndianBytes(DataLength(f), 4)
  }

  /** `convert_to_wav`'s header writes; a value too wide for its field makes
      `struct.pack` fail. */
  function WavHeader(f: Format): (r: Result<seq<Byte>>)
    ensures r.Ok? ==> |r.value| == 44
    ensures r.Err? ==> r.error == PackOverflow
  {
    if !Fits(f) then Err(PackOverflow) else Ok(RiffHeader(f) + FmtBody(f) + DataHeader(f))
  }

  /** The header fails exactly when a field overflows: the RIFF size, the
      channel count, the sample rate, the byte rate, the block alignment or the
      sample width. The `data` size is smaller than the RIFF size, so it never
      overflows alone. */
  lemma HeaderOverflow(f: Format)
    ensures WavHeader(f).Err? <==>
      || DataLength(f) + 36 >= Pow2(32) || f.channels >= Pow2(16) || f.sampleRate >= Pow2(32)
      || ByteRate(f) >= Pow2(32) || BlockAlign(f) >= Pow2(16) || f.sampleWidth >= Pow2(16)
    ensures WavHeader(f).Ok? ==> DataLength(f) < Pow2(32)
  {
  }

  /** `8 * 4` and `8 * 2` bits. */
  lemma FieldWidths()
    ensures Pow2(8 * 2) == Pow2(16) && Pow2(8 * 4) == Pow2(32)
  {
  }

  /** The RIFF chunk header reads back as its values. */
  lemma RiffLayout(f: Format)
    requires Fits(f)
    ensures var h := RiffHeader(f);
      && h[0..4] == Riff && LittleEndian(h[4..8]) == DataLength(f) + 36
      && h[8..12] == Wave && h[12..16] == FmtId
  {
    var h := RiffHeader(f);
    assert h[4..8] == LittleEndianBytes(DataLength(f) + 36, 4);
    FieldWidths();
    LittleEndianRoundTrip(DataLength(f) + 36, 4);
  }

  /** The `fmt ` chunk is its seven fields, each at its offset. */
  lemma FmtSlices(f: Format)
    ensures var b := FmtBody(f);
      && b[0..4] == LittleEndianBytes(16, 4) && b[4..6] == LittleEndianBytes(1, 2)
      && b[6..8] == LittleEndianBytes(f.channels, 2) && b[8..12] == LittleEndianBytes(f.sampleRate, 4)
      && b[12..16] == LittleEndianBytes(ByteRate(f), 4) && b[16..18] == LittleEndianBytes(BlockAlign(f), 2)
      && b[18..20] == LittleEndianBytes(f.sampleWidth, 2)
  {
    var b := FmtBody(f);
    var x0, x1, x2 := LittleEndianBytes(16, 4), LittleEndianBytes(1, 2), LittleEndianBytes(f.channels, 2);
    var x3, x4 := LittleEndianBytes(f.sampleRate, 4), LittleEndianBytes(ByteRate(f), 4);
    var x5, x6 := LittleEndianBytes(BlockAlign(f), 2), LittleEndianBytes(f.sampleWidth, 2);
    var r5 := x5 + x6;
    var r4 := x4 + r5;
    var r3 := x3 + r4;
    var r2 := x2 + r3;
    var r1 := x1 + r2;
    assert b[0..4] == x0 && b[4..] == r1 by { assert b[0..] == x0 + r1; Peel(b, 0, x0, r1); }
    assert b[4..6] == x1 && b[6..] == r2 by { Peel(b, 4, x1, r2); }
    assert b[6..8] == x2 && b[8..] == r3 by { Peel(b, 6, x2, r3); }
    assert b[8..12] == x3 && b[12..] == r4 by { Peel(b, 8, x3, r4); }
    assert b[12..16] == x4 && b[16..] == r5 by { Peel(b, 12, x4, r5); }
    assert b[16..18] == x5 && b[18..20] == x6 by { Peel(b, 16, x5, x6); }
  }

  /** Every field of the `fmt ` chunk reads back as its value. */
  lemma FmtLayout(f: Format)
    requires Fits(f)
    ensures var b := FmtBody(f);
      && LittleEndian(b[0..4]) == 16 && LittleEndian(b[4..6]) == 1
      && LittleEndian(b[6..8]) == f.channels && LittleEndian(b[8..12]) == f.sampleRate
      && LittleEndian(b[12..16]) == ByteRate(f) && LittleEndian(b[16..18]) == BlockAlign(f)
      && LittleEndian(b[18..20]) == f.sampleWidth
  {
    FmtSlices(f);
    FieldWidths();
    assert Pow2(16) == 65536 by { Pow2Add(8, 8); assert Pow2(8) == 256 by { Pow2Add(4, 4); assert Pow2(4) == 16; } }
    Pow2Monotone(16, 32);
    LittleEndianRoundTrip(16, 4);
    LittleEndianRoundTrip(1, 2);
    LittleEndianRoundTrip(f.channels, 2);
    LittleEndianRoundTrip(f.sampleRate, 4);
    LittleEndianRoundTrip(ByteRate(f), 4);
    LittleEndianRoundTrip(BlockAlign(f), 2);
    LittleEndianRoundTrip(f.sampleWidth, 2);
  }

  /** What follows offset `i` is `x` and then `rest`: `x` is the slice at `i`. */
  lemma Peel(b: seq<Byte>, i: nat, x: seq<Byte>, rest: seq<Byte>)
    requires i <= |b| && b[i..] == x + rest
    ensures b[i..i + |x|] == x && b[i + |x|..] == rest
  {
    assert b[i..i + |x|] == (x + rest)[..|x|];
    assert b[i + |x|..] == (x + rest)[|x|..];
  }

  /** The `data` chunk header reads back as the data length. */
  lemma DataLayout(f: Format)
    requires Fits(f)
    ensures var h := DataHeader(f); h[0..4] == DataId && LittleEndian(h[4..8]) == DataLength(f)
  {
    var h := DataHeader(f);
    assert h[4..8] == LittleEndianBytes(DataLength(f), 4);
    FieldWidths();
    LittleEndianRoundTrip(DataLength(f), 4);
  }

  /** The three parts of the header sit at bytes 0, 16 and 36. */
  lemma HeaderParts(f: Format)
    requires WavHeader(f).Ok?
    ensures var h := WavHeader(f).value;
      h[..16] == RiffHeader(f) && h[16..36] == FmtBody(f) && h[36..] == DataHeader(f)
  {
  }

  /** The RIFF size counts every byte of the file after its first eight: the
      rest of the header and the sample data. */
  lemma RiffSize(f: Format)
    requires WavHeader(f).Ok?
    ensures LittleEndian(WavHeader(f).value[4..8]) + 8 == |WavHeader(f).value| + DataLength(f)
  {
    var h := WavHeader(f).value;
    HeaderParts(f);
    RiffLayout(f);
    assert h[4..8] == RiffHeader(f)[4..8];
  }
}
