/** The STREAMINFO block body read from the bit stream (RFC 9639, section 8.2):
    sixteen fields packed most significant bit first, then the MD5 signature. */
module StreamInfoBlock {
  import opened Bits
  import opened Reader
  import opened BitStreams

  datatype StreamInfo = StreamInfo(
    minBlockSize: nat,
    maxBlockSize: nat,
    minFrameSize: nat,
    maxFrameSize: nat,
    sampleRate: nat,
    channels: nat,
    bitsPerSample: nat,
    totalSamples: nat,
    md5: seq<Byte>)

  /** The block from its stored fields: the channel count and the sample
      depth are stored minus one. */
  function Decoded(minBlock: nat, maxBlock: nat, minFrame: nat, maxFrame: nat, rate: nat,
                   channelsCode: nat, depthCode: nat, total: nat, md5: seq<Byte>): (v: StreamInfo)
    ensures v.channels == channelsCode + 1 && v.bitsPerSample == depthCode + 1
  {
    StreamInfo(minBlock, maxBlock, minFrame, maxFrame, rate, channelsCode + 1, depthCode + 1, total, md5)
  }

  /** The fields at bit offsets 0-15, 16-31, 32-55, 56-79, 80-99, 100-102,
      103-107 and 108-143 from `p`, then up to sixteen whole bytes of signature. Every
      field read fails alike at the end of the input, so the block fails
      exactly when fewer than 144 bits remain; the signature is a byte read,
      which never fails but comes back short at the end of the input. */
  function TakeStreamInfo(u: BitString, p: nat): (r: Result<Read<StreamInfo>>)
    ensures r.Ok? <==> p + 144 <= |u|
    ensures r.Err? ==> r.error == EndOfInput
  {
    if |u| < p + 144 then Err(EndOfInput)
    else
      var md5 := TakeBytes(u, p + 144, 16);
      Ok(Read(Decoded(Field(u, p, 0, 16), Field(u, p, 16, 16),
                         Field(u, p, 32, 24), Field(u, p, 56, 24),
                         Field(u, p, 80, 20), Field(u, p, 100, 3),
                         Field(u, p, 103, 5), Field(u, p, 108, 36), md5.value),
              md5.next))
  }

  /** The channel count lies in 1..8 and the sample depth in 1..32. */
  lemma StreamInfoRanges(u: BitString, p: nat)
    requires p + 144 <= |u|
    ensures var v := TakeStreamInfo(u, p).value.value;
      1 <= v.channels <= 8 && 1 <= v.bitsPerSample <= 32 && |v.md5| <= 16
  {
    BitsValueBound(u[p + 100..p + 103]);
    BitsValueBound(u[p + 103..p + 108]);
    assert Pow2(3) == 8 && Pow2(5) == 32;
  }

  /** `Streaminfo.__init__`: the reads in the order of the fields. */
  method ReadStreamInfo(s: BitStream) returns (r: Result<StreamInfo>)
    requires s.Valid()
    modifies s
    ensures s.Yields(r, TakeStreamInfo(s.bits, old(s.Consumed())))
  {
    var minBlock :- s.ReadUint(16);
    var maxBlock :- s.ReadUint(16);
    var minFrame :- s.ReadUint(24);
    var maxFrame :- s.ReadUint(24);
    var rate :- s.ReadUint(20);
    var channels :- s.ReadUint(3);
    var depth :- s.ReadUint(5);
    var total :- s.ReadUint(36);
    ghost var c := s.Consumed();
    ghost var m := TakeBytes(s.bits, c, 16);
    var md5 := s.ReadBytes(16);
    assert md5 == m.value && s.Consumed() == m.next;
    r := Ok(Decoded(minBlock, maxBlock, minFrame, maxFrame, rate, channels, depth, total, md5));
  }

  /** Over whole bytes the packed fields fill exactly 18 bytes, so the stream is
      aligned when the signature is read: the signature is bytes 18 to 34 (fewer
      at the end of the input) and reading stops right after it. The first four
      fields are big-endian byte groups, and the next four are bit fields of
      bytes 10 to 17. */
  lemma StreamInfoOfBytes(d: seq<Byte>)
    requires |d| >= 18
    ensures TakeStreamInfo(BytesBits(d), 0).Ok?
    ensures var r := TakeStreamInfo(BytesBits(d), 0).value; var w := BytesBits(d[10..18]);
      && r.value.md5 == d[18..Min(|d|, 34)] && r.next == 8 * Min(|d|, 34)
      && r.value.minBlockSize == BigEndian(d[0..2])
      && r.value.maxBlockSize == BigEndian(d[2..4])
      && r.value.minFrameSize == BigEndian(d[4..7])
      && r.value.maxFrameSize == BigEndian(d[7..10])
      && r.value.sampleRate == Field(w, 0, 0, 20)
      && r.value.channels == Field(w, 0, 20, 3) + 1
      && r.value.bitsPerSample == Field(w, 0, 23, 5) + 1
      && r.value.totalSamples == Field(w, 0, 28, 36)
  {
    TakeBytesOfBytes(d, 18, 16, Min(|d|, 34));
    ByteField(d, 0, 2);
    ByteField(d, 2, 4);
    ByteField(d, 4, 7);
    ByteField(d, 7, 10);
    PackedBytes(d);
  }

  /** Bits 80 to 143 are the bits of bytes 10 to 17. */
  lemma PackedBytes(d: seq<Byte>)
    requires |d| >= 18
    ensures var u := BytesBits(d); var w := BytesBits(d[10..18]);
      && Field(u, 0, 80, 20) == Field(w, 0, 0, 20)
      && Field(u, 0, 100, 3) == Field(w, 0, 20, 3)
      && Field(u, 0, 103, 5) == Field(w, 0, 23, 5)
      && Field(u, 0, 108, 36) == Field(w, 0, 28, 36)
  {
    var u := BytesBits(d);
    BytesBitsSlice(d, 10, 18);
    SliceOfSlice(u, 80, 144, 0, 20);
    SliceOfSlice(u, 80, 144, 20, 23);
    SliceOfSlice(u, 80, 144, 23, 28);
    SliceOfSlice(u, 80, 144, 28, 64);
  }

  /** A field made of whole bytes is their big-endian value. */
  lemma ByteField(d: seq<Byte>, i: nat, j: nat)
    requires i <= j <= |d|
    ensures BitsValue(BytesBits(d)[8 * i..8 * j]) == BigEndian(d[i..j])
  {
    BytesBitsSlice(d, i, j);
    BitsValueOfBytes(d[i..j]);
  }
}
