/** The older STREAMINFO reader, which unpacks a block body already held as
    bytes: `struct.unpack` for the byte-sized fields and a bit-field unpack of
    bytes 10 to 17 for the rest. */
module LegacyStreamInfo {
  import opened Bits
  import opened Reader
  import StreamInfoBlock

  /** `length` and `isLast` are the header values the block stores. */
  datatype LegacyStreamInfo = LegacyStreamInfo(
    length: int,
    isLast: bool,
    minBlockSize: nat,
    maxBlockSize: nat,
    minFrameSize: nat,
    maxFrameSize: nat,
    sampleRate: nat,
    channels: nat,
    bitsPerSample: nat,
    totalSamples: nat,
    md5: seq<Byte>)

  /** `Streaminfo.__init__(length, is_last, data)`: the declared length must be
      the length of `data`; every unpack of a slice shorter than its format
      fails, so fewer than 18 bytes fail; the three-byte frame sizes are
      unpacked as four bytes behind a zero byte; the bit fields are stored as
      read, without adding one. */
  function ParseLegacyStreamInfo(length: int, isLast: bool, data: seq<Byte>): (r: Result<LegacyStreamInfo>)
    ensures r.Err? <==> length < 0 || |data| != length || |data| < 18
    ensures r.Err? ==> r.error == if length < 0 || |data| != length then LengthMismatch else ShortField
    ensures r.Ok? ==> r.value.length == length && r.value.isLast == isLast && |r.value.md5| == length - 18
  {
    if |data| != length || length < 0 then Err(LengthMismatch)
    else if |data| < 18 then Err(ShortField)
    else
      var packed := BytesBits(data[10..18]);
      Ok(LegacyStreamInfo(length, isLast,
                          BigEndian(data[0..2]), BigEndian(data[2..4]),
                          BigEndian([0] + data[4..7]), BigEndian([0] + data[7..10]),
                          Field(packed, 0, 0, 20), Field(packed, 0, 20, 3),
                          Field(packed, 0, 23, 5), Field(packed, 0, 28, 36),
                          data[18..]))
  }

  /** A leading zero byte does not change a big-endian value. */
  lemma {:induction false} BigEndianLeadingZero(s: seq<Byte>)
    ensures BigEndian([0] + s) == BigEndian(s)
  {
    if |s| > 0 {
      var init := s[..|s| - 1];
      assert ([0] + s)[..|[0] + s| - 1] == [0] + init;
      BigEndianLeadingZero(init);
    } else {
      assert BigEndian([0]) == BigEndian([]) * 256 + 0;
    }
  }

  /** Over the same 34 bytes both readers agree on every field, except that the
      older one stores the channel count and the sample depth minus one. */
  lemma LegacyAgrees(isLast: bool, d: seq<Byte>)
    requires |d| == 34
    ensures ParseLegacyStreamInfo(34, isLast, d).Ok? && StreamInfoBlock.TakeStreamInfo(BytesBits(d), 0).Ok?
    ensures var legacy := ParseLegacyStreamInfo(34, isLast, d).value;
            var current := StreamInfoBlock.TakeStreamInfo(BytesBits(d), 0).value.value;
      && legacy.minBlockSize == current.minBlockSize && legacy.maxBlockSize == current.maxBlockSize
      && legacy.minFrameSize == current.minFrameSize && legacy.maxFrameSize == current.maxFrameSize
      && legacy.sampleRate == current.sampleRate && legacy.totalSamples == current.totalSamples
      && legacy.channels + 1 == current.channels && legacy.bitsPerSample + 1 == current.bitsPerSample
      && legacy.md5 == current.md5
  {
    StreamInfoBlock.StreamInfoOfBytes(d);
    BigEndianLeadingZero(d[4..7]);
    BigEndianLeadingZero(d[7..10]);
    assert d[18..Min(|d|, 34)] == d[18..];
  }
}
