/** One audio frame (RFC 9639, section 9): the frame header, one subframe
    per channel, undoing the left/side or right/side decorrelation, then the
    byte alignment and the CRC-16 footer. */
module Frames {
  import opened Bits
  import opened Reader
  import opened BitStreams
  import opened Subframes

  /** The number of one bits at the top of the `n`-bit value `b`. */
  function LeadingOnes(b: nat, n: nat): (k: nat)
    ensures k <= n
  {
    if n == 0 then 0
    else if b >= Pow2(n - 1) then 1 + LeadingOnes(b - Pow2(n - 1), n - 1)
    else 0
  }

  /** Shifting a value left by one inside the same width drops one leading one. */
  lemma {:induction false} LeadingOnesDouble(c: nat, n: nat)
    requires n >= 1 && c < Pow2(n - 1)
    ensures LeadingOnes(2 * c, n) == LeadingOnes(c, n - 1)
    decreases n
  {
    if n >= 2 {
      var h := Pow2(n - 2);
      assert Pow2(n - 1) == 2 * h;
      if c >= h {
        LeadingOnesDouble(c - h, n - 1);
        assert 2 * c - Pow2(n - 1) == 2 * (c - h);
      }
    }
  }

  /** The bytes of the coded frame or sample number after its first byte: the
      loop `while temp >= 0b11000000` skips one byte per leading one of the
      first byte beyond the first. */
  function ExtraBytes(lead: nat): nat
  {
    if lead >= 0xC0 then
      assert Pow2(7) == 128 by { assert Pow2(4) == 16; }
      LeadingOnes(lead, 8) - 1
    else 0
  }

  /** A byte has at least two leading ones exactly when it is at least `0xC0`. */
  lemma TwoLeadingOnes(b: nat)
    requires b < 256
    ensures LeadingOnes(b, 8) >= 2 <==> b >= 0xC0
  {
    assert Pow2(7) == 128 && Pow2(6) == 64 by { assert Pow2(4) == 16; }
  }

  /** One pass of the skip loop: `(temp << 1) & 0xFF` has one extra byte fewer. */
  lemma SkipStep(temp: nat)
    requires 0xC0 <= temp < 256
    ensures ExtraBytes(temp) >= 1
    ensures ExtraBytes((temp * 2) % 256) == ExtraBytes(temp) - 1
  {
    var c := temp - 128;
    assert Pow2(7) == 128 by { assert Pow2(4) == 16; }
    assert (temp * 2) % 256 == 2 * c;
    LeadingOnesDouble(c, 8);
    TwoLeadingOnes(temp);
    TwoLeadingOnes(2 * c);
  }

  /** A value of `n` bits whose top `k < n` bits are ones and whose next bit
      is zero has exactly `k` leading ones. */
  lemma {:induction false} LeadingOnesRange(b: nat, n: nat, k: nat)
    requires k < n && Pow2(n) - Pow2(n - k) <= b < Pow2(n) - Pow2(n - k - 1)
    ensures LeadingOnes(b, n) == k
    decreases k
  {
    assert Pow2(n) == 2 * Pow2(n - 1);
    if k > 0 {
      Pow2Monotone(n - k, n - 1);
      LeadingOnesRange(b - Pow2(n - 1), n - 1, k - 1);
    }
  }

  /** The length in bytes of the coded number by its first byte, as the
      UTF-8-like coding of RFC 9639, section 9.1.5, lays it out; a first byte
      `10xxxxxx` counts as one byte and `0xFF` as eight. */
  lemma CodedNumberLengths(lead: nat)
    requires lead < 256
    ensures lead < 0xC0 ==> ExtraBytes(lead) == 0
    ensures 0xC0 <= lead < 0xE0 ==> ExtraBytes(lead) == 1
    ensures 0xE0 <= lead < 0xF0 ==> ExtraBytes(lead) == 2
    ensures 0xF0 <= lead < 0xF8 ==> ExtraBytes(lead) == 3
    ensures 0xF8 <= lead < 0xFC ==> ExtraBytes(lead) == 4
    ensures 0xFC <= lead < 0xFE ==> ExtraBytes(lead) == 5
    ensures lead == 0xFE ==> ExtraBytes(lead) == 6
    ensures lead == 0xFF ==> ExtraBytes(lead) == 7
  {
    assert Pow2(0) == 1 && Pow2(1) == 2 && Pow2(2) == 4 && Pow2(3) == 8 && Pow2(4) == 16;
    assert Pow2(5) == 32 && Pow2(6) == 64 && Pow2(7) == 128 && Pow2(8) == 256;
    var k := LeadingOnes(lead, 8);
    if lead == 0xFF {
      assert LeadingOnes(0, 0) == 0;
      assert LeadingOnes(1, 1) == 1;
      assert LeadingOnes(3, 2) == 2;
      assert LeadingOnes(7, 3) == 3;
      assert LeadingOnes(15, 4) == 4;
      assert LeadingOnes(31, 5) == 5;
      assert LeadingOnes(63, 6) == 6;
      assert LeadingOnes(127, 7) == 7;
    } else if lead >= 0xFE {
      LeadingOnesRange(lead, 8, 7);
    } else if lead >= 0xFC {
      LeadingOnesRange(lead, 8, 6);
    } else if lead >= 0xF8 {
      LeadingOnesRange(lead, 8, 5);
    } else if lead >= 0xF0 {
      LeadingOnesRange(lead, 8, 4);
    } else if lead >= 0xE0 {
      LeadingOnesRange(lead, 8, 3);
    } else if lead >= 0xC0 {
      LeadingOnesRange(lead, 8, 2);
    }
  }

  /** The coded frame or sample number: its first byte, then the bytes the
      loop skips; the value is its length in bytes. */
  function TakeCodedNumber(u: BitString, p: nat): (r: Result<Read<nat>>)
    requires p <= |u|
    ensures r.Err? ==> r.error == EndOfInput
    ensures r.Ok? ==> 1 <= r.value.value && r.value.next == p + 8 * r.value.value <= |u|
  {
    var lead :- TakeUint(u, p, 8);
    var n := ExtraBytes(lead.value);
    if lead.next + 8 * n > |u| then Err(EndOfInput) else Ok(Read(1 + n, lead.next + 8 * n))
  }

  /** The bits of the block size field after the coded number: 8 for code 6,
      16 for code 7, none otherwise. */
  function BlockSizeBits(code: nat): nat
  {
    if code == 6 then 8 else if code == 7 then 16 else 0
  }

  /** The block size of a block size code and the field after the coded
      number; code 0 leaves `block_size` unbound. */
  function BlockSizeOf(code: nat, extra: nat): Result<nat>
  {
    if code == 1 then Ok(192)
    else if 2 <= code <= 5 then Ok(576 * Pow2(code - 2))
    else if code == 6 || code == 7 then Ok(extra + 1)
    else if 8 <= code <= 15 then Ok(256 * Pow2(code - 8))
    else Err(UnboundBlockSize)
  }

  /** The block sizes of RFC 9639, section 9.1.1: the code's table value, or
      one more than the 8- or 16-bit field for codes 6 and 7. */
  lemma BlockSizeTable(extra: nat)
    ensures BlockSizeOf(0, extra) == Err(UnboundBlockSize)
    ensures BlockSizeOf(1, extra) == Ok(192)
    ensures BlockSizeOf(2, extra) == Ok(576) && BlockSizeOf(3, extra) == Ok(1152)
    ensures BlockSizeOf(4, extra) == Ok(2304) && BlockSizeOf(5, extra) == Ok(4608)
    ensures BlockSizeOf(6, extra) == Ok(extra + 1) && BlockSizeOf(7, extra) == Ok(extra + 1)
    ensures extra < Pow2(BlockSizeBits(6)) ==> BlockSizeOf(6, extra).Ok? && 1 <= BlockSizeOf(6, extra).value <= 256
    ensures extra < Pow2(BlockSizeBits(7)) ==> BlockSizeOf(7, extra).Ok? && 1 <= BlockSizeOf(7, extra).value <= 65536
    ensures BlockSizeOf(8, extra) == Ok(256) && BlockSizeOf(9, extra) == Ok(512)
    ensures BlockSizeOf(10, extra) == Ok(1024) && BlockSizeOf(11, extra) == Ok(2048)
    ensures BlockSizeOf(12, extra) == Ok(4096) && BlockSizeOf(13, extra) == Ok(8192)
    ensures BlockSizeOf(14, extra) == Ok(16384) && BlockSizeOf(15, extra) == Ok(32768)
  {
    assert Pow2(1) == 2 && Pow2(2) == 4 && Pow2(3) == 8 && Pow2(4) == 16;
    assert Pow2(5) == 32 && Pow2(6) == 64 && Pow2(7) == 128;
    Pow2Add(8, 8);
  }

  /** The bits of the sample rate field after the block size field: 8 for
      code 12, 16 for codes 13 and 14, none otherwise. */
  function RateBits(code: nat): nat
  {
    if code == 12 then 8 else if code == 13 || code == 14 then 16 else 0
  }

  /** What the frame header decides for the rest of the frame. */
  datatype Header = Header(blockSize: Result<nat>, channelAssignment: nat)

  /** The frame header: the 14-bit sync code `0b11111111111110`, a reserved
      bit, the blocking strategy, the block size, sample rate and channel
      assignment codes, the sample size code, a reserved bit, the coded number,
      the optional block size and sample rate fields and the CRC-8. */
  function TakeFrameHeader(u: BitString, p: nat): (r: Result<Read<Header>>)
    requires p <= |u|
    ensures r.Ok? ==> p + 48 <= r.value.next <= |u| && Field(u, p, 0, 14) == 0x3FFE
    ensures r.Ok? ==> r.value.value.channelAssignment == Field(u, p, 24, 4)
  {
    if p + 14 > |u| then Err(EndOfInput)
    else if Field(u, p, 0, 14) != 0x3FFE then Err(InvalidSync)
    else if p + 32 > |u| then Err(EndOfInput)
    else
      var n :- TakeCodedNumber(u, p + 32);
      TakeHeaderRest(u, n.next, Field(u, p, 16, 4), Field(u, p, 20, 4), Field(u, p, 24, 4))
  }

  /** The header after the coded number. */
  function TakeHeaderRest(u: BitString, p: nat, sizeCode: nat, rateCode: nat, assignment: nat)
    : (r: Result<Read<Header>>)
    requires p <= |u|
    ensures r.Err? ==> r.error == EndOfInput
    ensures r.Ok? ==> p + 8 <= r.value.next <= |u| && r.value.value.channelAssignment == assignment
  {
    var extra :- TakeUint(u, p, BlockSizeBits(sizeCode));
    var rate :- TakeUint(u, extra.next, RateBits(rateCode));
    var crc :- TakeUint(u, rate.next, 8);
    Ok(Read(Header(BlockSizeOf(sizeCode, extra.value), assignment), crc.next))
  }

  /** The header read at `p` once its first 32 bits are known. */
  lemma HeaderAt(u: BitString, p: nat, sizeCode: nat, rateCode: nat, assignment: nat)
    requires p + 32 <= |u| && Field(u, p, 0, 14) == 0x3FFE
    requires sizeCode == Field(u, p, 16, 4) && rateCode == Field(u, p, 20, 4) && assignment == Field(u, p, 24, 4)
    ensures TakeFrameHeader(u, p)
      == match TakeCodedNumber(u, p + 32)
         case Err(e) => Err(e)
         case Ok(n) => TakeHeaderRest(u, n.next, sizeCode, rateCode, assignment)
  {
  }

  /** Fewer than 32 bits left: the header ends early, unless the sync code
      is already wrong. */
  lemma HeaderShort(u: BitString, p: nat)
    requires p <= |u| < p + 32
    ensures TakeFrameHeader(u, p)
      == if p + 14 <= |u| && Field(u, p, 0, 14) != 0x3FFE then Err(InvalidSync) else Err(EndOfInput)
  {
  }

  /** `left - side` (left/side) and `side + right` (right/side) on the first
      `n` samples, in place; the samples beyond stay as read. The other
      channel is never shorter than `n` (`SubframeLength`); the bound on its
      length only keeps these functions total. */
  function LeftSide(left: seq<int>, side: seq<int>, n: nat): (r: seq<int>)
  {
    seq(|side|, i requires 0 <= i < |side| => if i < n && i < |left| then left[i] - side[i] else side[i])
  }

  function RightSide(side: seq<int>, right: seq<int>, n: nat): (r: seq<int>)
  {
    seq(|side|, i requires 0 <= i < |side| => if i < n && i < |right| then side[i] + right[i] else side[i])
  }

  /** The side channel an encoder computes: left minus right. */
  function Side(left: seq<int>, right: seq<int>): (r: seq<int>)
    requires |left| == |right|
    ensures |r| == |left|
  {
    seq(|left|, i requires 0 <= i < |left| => left[i] - right[i])
  }

  /** Left/side decoding gets the right channel back from the left one and the side. */
  lemma LeftSideRoundTrip(left: seq<int>, right: seq<int>)
    requires |left| == |right|
    ensures LeftSide(left, Side(left, right), |left|) == right
  {
  }

  /** Right/side decoding gets the left channel back from the side and the right one. */
  lemma RightSideRoundTrip(left: seq<int>, right: seq<int>)
    requires |left| == |right|
    ensures RightSide(Side(left, right), right, |right|) == left
  {
  }

  /** `(((mid << 1) | (side & 1)) + side) >> 1` and the same with `- side`:
      `& 1` is the remainder modulo 2 and `>> 1` rounds toward minus infinity
      for negative numbers too, as `/ 2` does here. */
  function MidSideLeft(mid: int, side: int): int
  {
    (2 * mid + side % 2 + side) / 2
  }

  function MidSideRight(mid: int, side: int): int
  {
    (2 * mid + side % 2 - side) / 2
  }

  /** Mid/side decoding inverts the encoder's `mid = (left + right) >> 1`,
      `side = left - right`. */
  lemma MidSideRoundTrip(left: int, right: int)
    ensures MidSideLeft((left + right) / 2, left - right) == left
    ensures MidSideRight((left + right) / 2, left - right) == right
  {
    var mid, side := (left + right) / 2, left - right;
    assert side % 2 == (left + right) % 2;
    assert 2 * mid + side % 2 == left + right;
  }

  /** `[decode_subframe(...) for _ in range(count)]`: the first `count - 1`
      subframes, then one more where they end; the first error is the result. */
  function TakeSubframes(u: BitString, p: nat, count: nat, blockSize: nat, bps: int)
    : (r: Result<Read<seq<seq<int>>>>)
    requires p <= |u|
    ensures r.Ok? ==> |r.value.value| == count && p <= r.value.next <= |u|
    decreases count
  {
    if count == 0 then Ok(Read([], p))
    else
      var done :- TakeSubframes(u, p, count - 1, blockSize, bps);
      var x :- TakeSubframe(u, done.next, blockSize, bps);
      Ok(Read(done.value + [x.value], x.next))
  }

  /** Once a subframe fails, decoding more of them fails with the same error. */
  lemma {:induction false} SubframesFail(u: BitString, p: nat, k: nat, count: nat, blockSize: nat, bps: int)
    requires p <= |u| && k <= count && TakeSubframes(u, p, k, blockSize, bps).Err?
    ensures TakeSubframes(u, p, count, blockSize, bps) == TakeSubframes(u, p, k, blockSize, bps)
    decreases count - k
  {
    if k < count {
      SubframesFailStep(u, p, k, blockSize, bps);
      SubframesFail(u, p, k + 1, count, blockSize, bps);
    }
  }

  /** A failure among the first `n` subframes is the failure of the first `n + 1`. */
  lemma SubframesFailStep(u: BitString, p: nat, n: nat, blockSize: nat, bps: int)
    requires p <= |u| && TakeSubframes(u, p, n, blockSize, bps).Err?
    ensures TakeSubframes(u, p, n + 1, blockSize, bps) == TakeSubframes(u, p, n, blockSize, bps)
  {
  }

  /** `decode_subframes`: assignments 0 to 7 are that many channels plus one,
      each on its own; 8 is left/side and 9 right/side, the side channel one
      bit wider; anything else is refused before a bit is read. */
  function TakeChannels(u: BitString, p: nat, blockSize: nat, bps: int, assignment: nat)
    : (r: Result<Read<seq<seq<int>>>>)
    requires p <= |u|
    ensures r.Ok? ==> p <= r.value.next <= |u| && assignment <= 9
    ensures r.Ok? ==> |r.value.value| == ChannelCount(assignment)
    ensures assignment > 9 ==> r == Err(InvalidChannelAssignment)
  {
    if assignment <= 7 then TakeSubframes(u, p, assignment + 1, blockSize, bps)
    else if assignment == 8 then TakeLeftSide(u, p, blockSize, bps)
    else if assignment == 9 then TakeRightSide(u, p, blockSize, bps)
    else Err(InvalidChannelAssignment)
  }

  /** Left/side: the left channel, then the side channel one bit wider, which
      becomes the right channel. */
  function TakeLeftSide(u: BitString, p: nat, blockSize: nat, bps: int): (r: Result<Read<seq<seq<int>>>>)
    requires p <= |u|
    ensures r.Ok? ==> p <= r.value.next <= |u| && |r.value.value| == 2
  {
    var left :- TakeSubframe(u, p, blockSize, bps);
    var side :- TakeSubframe(u, left.next, blockSize, bps + 1);
    Ok(Read([left.value, LeftSide(left.value, side.value, blockSize)], side.next))
  }

  /** Right/side: the side channel one bit wider, which becomes the left
      channel, then the right channel. */
  function TakeRightSide(u: BitString, p: nat, blockSize: nat, bps: int): (r: Result<Read<seq<seq<int>>>>)
    requires p <= |u|
    ensures r.Ok? ==> p <= r.value.next <= |u| && |r.value.value| == 2
  {
    var side :- TakeSubframe(u, p, blockSize, bps + 1);
    var right :- TakeSubframe(u, side.next, blockSize, bps);
    Ok(Read([RightSide(side.value, right.value, blockSize), right.value], right.next))
  }

  /** The number of channels an assignment code stands for. */
  function ChannelCount(assignment: nat): nat
  {
    if assignment <= 7 then assignment + 1 else 2
  }

  /** Every channel holds exactly `n` samples. */
  predicate AllOfLength(channels: seq<seq<int>>, n: nat)
  {
    forall i :: 0 <= i < |channels| ==> |channels[i]| == n
  }

  /** A whole frame; `bps` is the stream's bits per sample. */
  function TakeFrame(u: BitString, p: nat, bps: int): (r: Result<Read<seq<seq<int>>>>)
    requires p <= |u|
    ensures r.Ok? ==> p + 48 <= r.value.next <= |u|
  {
    var h :- TakeFrameHeader(u, p);
    var blockSize :- h.value.blockSize;
    TakeFrameBody(u, h.next, blockSize, bps, h.value.channelAssignment)
  }

  /** The subframes, the alignment, the CRC-16, and the check that every
      channel has exactly `blockSize` samples. */
  function TakeFrameBody(u: BitString, p: nat, blockSize: nat, bps: int, assignment: nat)
    : (r: Result<Read<seq<seq<int>>>>)
    requires p <= |u|
    ensures r.Ok? ==> p + 16 <= r.value.next <= |u|
    ensures r.Ok? ==> |r.value.value| == ChannelCount(assignment) && AllOfLength(r.value.value, blockSize)
  {
    var channels :- TakeChannels(u, p, blockSize, bps, assignment);
    var crc :- TakeUint(u, Align(u, channels.next), 16);
    if !AllOfLength(channels.value, blockSize) then Err(BlockLength) else Ok(Read(channels.value, crc.next))
  }

  /** A decoded frame has the channels its assignment names, each of the
      block size the header gives. */
  lemma FrameShape(u: BitString, p: nat, bps: int)
    requires p <= |u| && TakeFrame(u, p, bps).Ok?
    ensures var h := TakeFrameHeader(u, p).value;
      && h.value.blockSize.Ok?
      && |TakeFrame(u, p, bps).value.value| == ChannelCount(h.value.channelAssignment)
      && AllOfLength(TakeFrame(u, p, bps).value.value, h.value.blockSize.value)
      && h.value.channelAssignment <= 9
  {
    var h := TakeFrameHeader(u, p).value;
    var r := TakeChannels(u, h.next, h.value.blockSize.value, bps, h.value.channelAssignment);
    assert r.Ok?;
  }

  /** The coded number: the first byte, then `stream.read_uint(8)` while
      `temp >= 0b11000000`, with `temp = (temp << 1) & 0xFF`. */
  method SkipCodedNumber(s: BitStream) returns (r: Result<nat>)
    requires s.Valid()
    modifies s
    ensures s.Yields(r, TakeCodedNumber(s.bits, old(s.Consumed())))
  {
    ghost var c := s.Consumed();
    var lead :- s.ReadUint(8);
    BitsValueBound(s.bits[c..c + 8]);
    assert Pow2(8) == 256 by { assert Pow2(4) == 16; }
    var temp := lead;
    var j := 0;
    while temp >= 0xC0
      invariant s.Valid() && s.Consumed() == c + 8 + 8 * j && temp < 256
      invariant j + ExtraBytes(temp) == ExtraBytes(lead)
      decreases ExtraBytes(temp)
    {
      SkipStep(temp);
      var _ :- s.ReadUint(8);
      temp := (temp * 2) % 256;
      j := j + 1;
    }
    r := Ok(1 + j);
  }

  /** The frame header. */
  method ReadFrameHeader(s: BitStream) returns (r: Result<Header>)
    requires s.Valid()
    modifies s
    ensures s.Yields(r, TakeFrameHeader(s.bits, old(s.Consumed())))
  {
    ghost var c := s.Consumed();
    if c + 32 > |s.bits| {
      HeaderShort(s.bits, c);
    }
    var sync :- s.ReadUint(14);
    if sync != 0x3FFE {
      return Err(InvalidSync);
    }
    var codes :- ReadHeaderCodes(s);
    var sizeCode, rateCode, assignment := codes.sizeCode, codes.rateCode, codes.assignment;
    HeaderAt(s.bits, c, sizeCode, rateCode, assignment);
    var _ :- SkipCodedNumber(s);
    r := ReadHeaderRest(s, sizeCode, rateCode, assignment);
  }

  /** The header fields after the sync code as they are read. */
  datatype Codes = Codes(sizeCode: nat, rateCode: nat, assignment: nat)

  /** The reserved bit, the blocking strategy, the block size, sample rate and
      channel assignment codes, the sample size code and a reserved bit: 18
      bits after the sync code. */
  method ReadHeaderCodes(s: BitStream) returns (r: Result<Codes>)
    requires s.Valid()
    modifies s
    ensures s.Consistent()
    ensures var c := old(s.Consumed());
      c + 18 <= |s.bits| ==> 
        && r == Ok(Codes(Field(s.bits, c, 2, 4), Field(s.bits, c, 6, 4), Field(s.bits, c, 10, 4)))
        && s.Valid() && s.Consumed() == c + 18
    ensures old(s.Consumed()) + 18 > |s.bits| ==> r == Err(EndOfInput)
  {
    var _ :- s.ReadUint(1);
    var _ :- s.ReadUint(1);
    var sizeCode :- s.ReadUint(4);
    var rateCode :- s.ReadUint(4);
    var assignment :- s.ReadUint(4);
    var _ :- s.ReadUint(3);
    var _ :- s.ReadUint(1);
    r := Ok(Codes(sizeCode, rateCode, assignment));
  }

  /** The optional block size and sample rate fields and the CRC-8. */
  method ReadHeaderRest(s: BitStream, sizeCode: nat, rateCode: nat, assignment: nat) returns (r: Result<Header>)
    requires s.Valid()
    modifies s
    ensures s.Yields(r, TakeHeaderRest(s.bits, old(s.Consumed()), sizeCode, rateCode, assignment))
  {
    var extra :- ReadBlockSizeField(s, sizeCode);
    var _ :- ReadRateField(s, rateCode);
    var _ :- s.ReadUint(8);
    r := Ok(Header(BlockSizeOf(sizeCode, extra), assignment));
  }

  /** `block_size = stream.read_uint(8) + 1` for code 6, `read_uint(16) + 1`
      for code 7; the `+ 1` is in `BlockSizeOf`. */
  method ReadBlockSizeField(s: BitStream, code: nat) returns (r: Result<nat>)
    requires s.Valid()
    modifies s
    ensures s.Yields(r, TakeUint(s.bits, old(s.Consumed()), BlockSizeBits(code)))
  {
    if code == 6 {
      r := s.ReadUint(8);
    } else if code == 7 {
      r := s.ReadUint(16);
    } else {
      NoBits(s.bits, s.Consumed());
      r := Ok(0);
    }
  }

  /** The sample rate field: 8 bits for code 12, 16 for codes 13 and 14. */
  method ReadRateField(s: BitStream, code: nat) returns (r: Result<nat>)
    requires s.Valid()
    modifies s
    ensures s.Yields(r, TakeUint(s.bits, old(s.Consumed()), RateBits(code)))
  {
    if code == 12 {
      r := s.ReadUint(8);
    } else if code == 13 || code == 14 {
      r := s.ReadUint(16);
    } else {
      NoBits(s.bits, s.Consumed());
      r := Ok(0);
    }
  }

  /** Reading no bits reads the value 0 and stays put. */
  lemma NoBits(u: BitString, p: nat)
    requires p <= |u|
    ensures TakeUint(u, p, 0) == Ok(Read(0, p))
  {
    assert u[p..p] == [];
  }

  /** `[decode_subframe(stream, block_size, bits_per_sample) for _ in range(count)]`. */
  method ReadSubframes(s: BitStream, count: nat, blockSize: nat, bps: int) returns (r: Result<seq<seq<int>>>)
    requires s.Valid()
    modifies s
    ensures s.Yields(r, TakeSubframes(s.bits, old(s.Consumed()), count, blockSize, bps))
  {
    ghost var u := s.bits;
    ghost var start := s.Consumed();
    var done: seq<seq<int>> := [];
    var i := 0;
    while i < count
      invariant s.Valid() && s.bits == u && i <= count
      invariant TakeSubframes(u, start, i, blockSize, bps) == Ok(Read(done, s.Consumed()))
    {
      var x := ReadSubframe(s, blockSize, bps);
      if x.Err? {
        SubframesFail(u, start, i + 1, count, blockSize, bps);
        return Err(x.error);
      }
      done, i := done + [x.value], i + 1;
    }
    r := Ok(done);
  }

  /** `for i in range(block_size): diff[i] = left[i] - diff[i]`, on the list
      `diff` in place. */
  method UndoLeftSide(left: seq<int>, side: seq<int>, n: nat) returns (right: seq<int>)
    requires n <= |left| && n <= |side|
    ensures right == LeftSide(left, side, n)
  {
    var diff := new int[|side|](i requires 0 <= i < |side| => side[i]);
    var i := 0;
    while i < n
      invariant i <= n
      invariant diff[..] == LeftSide(left, side, i)
    {
      diff[i] := left[i] - diff[i];
      i := i + 1;
    }
    right := diff[..];
  }

  /** `for i in range(block_size): diff[i] += right[i]`, on the list `diff`
      in place. */
  method UndoRightSide(side: seq<int>, right: seq<int>, n: nat) returns (left: seq<int>)
    requires n <= |side| && n <= |right|
    ensures left == RightSide(side, right, n)
  {
    var diff := new int[|side|](i requires 0 <= i < |side| => side[i]);
    var i := 0;
    while i < n
      invariant i <= n
      invariant diff[..] == RightSide(side, right, i)
    {
      diff[i] := diff[i] + right[i];
      i := i + 1;
    }
    left := diff[..];
  }

  /** `decode_subframes`. */
  method ReadChannels(s: BitStream, blockSize: nat, bps: int, assignment: nat) returns (r: Result<seq<seq<int>>>)
    requires s.Valid()
    modifies s
    ensures s.Yields(r, TakeChannels(s.bits, old(s.Consumed()), blockSize, bps, assignment))
  {
    ghost var c := s.Consumed();
    if assignment <= 7 {
      r := ReadSubframes(s, assignment + 1, blockSize, bps);
      assert s.Yields(r, TakeChannels(s.bits, c, blockSize, bps, assignment));
    } else if assignment == 8 {
      r := ReadLeftSide(s, blockSize, bps);
      assert s.Yields(r, TakeChannels(s.bits, c, blockSize, bps, assignment));
    } else if assignment == 9 {
      r := ReadRightSide(s, blockSize, bps);
      assert s.Yields(r, TakeChannels(s.bits, c, blockSize, bps, assignment));
    } else {
      r := Err(InvalidChannelAssignment);
      assert s.Yields(r, TakeChannels(s.bits, c, blockSize, bps, assignment));
    }
  }

  method ReadLeftSide(s: BitStream, blockSize: nat, bps: int) returns (r: Result<seq<seq<int>>>)
    requires s.Valid()
    modifies s
    ensures s.Yields(r, TakeLeftSide(s.bits, old(s.Consumed()), blockSize, bps))
  {
    ghost var c := s.Consumed();
    var left :- ReadSubframe(s, blockSize, bps);
    SubframeLength(s.bits, c, blockSize, bps);
    c := s.Consumed();
    var side :- ReadSubframe(s, blockSize, bps + 1);
    SubframeLength(s.bits, c, blockSize, bps + 1);
    var right := UndoLeftSide(left, side, blockSize);
    r := Ok([left, right]);
  }

  method ReadRightSide(s: BitStream, blockSize: nat, bps: int) returns (r: Result<seq<seq<int>>>)
    requires s.Valid()
    modifies s
    ensures s.Yields(r, TakeRightSide(s.bits, old(s.Consumed()), blockSize, bps))
  {
    ghost var c := s.Consumed();
    var side :- ReadSubframe(s, blockSize, bps + 1);
    SubframeLength(s.bits, c, blockSize, bps + 1);
    c := s.Consumed();
    var right :- ReadSubframe(s, blockSize, bps);
    SubframeLength(s.bits, c, blockSize, bps);
    var left := UndoRightSide(side, right, blockSize);
    r := Ok([left, right]);
  }

  /** `for b in blocks: assert len(b) == block_size`. */
  method CheckLengths(channels: seq<seq<int>>, n: nat) returns (ok: bool)
    ensures ok == AllOfLength(channels, n)
  {
    var i := 0;
    while i < |channels|
      invariant i <= |channels|
      invariant AllOfLength(channels[..i], n)
    {
      if |channels[i]| != n {
        return false;
      }
      assert channels[..i + 1] == channels[..i] + [channels[i]];
      i := i + 1;
    }
    assert channels[..i] == channels;
    ok := true;
  }

  /** `decode_frame`: the header, the subframes of the block size it gives,
      the alignment to a byte, the CRC-16, and the length check; the decoded
      channels are what it yields. */
  method DecodeFrame(s: BitStream, channelCount: int, bps: int) returns (r: Result<seq<seq<int>>>)
    requires s.Valid()
    modifies s
    ensures s.Yields(r, TakeFrame(s.bits, old(s.Consumed()), bps))
  {
    var header :- ReadFrameHeader(s);
    var blockSize :- header.blockSize;
    r := ReadFrameBody(s, blockSize, bps, header.channelAssignment);
  }

  method ReadFrameBody(s: BitStream, blockSize: nat, bps: int, assignment: nat) returns (r: Result<seq<seq<int>>>)
    requires s.Valid()
    modifies s
    ensures s.Yields(r, TakeFrameBody(s.bits, old(s.Consumed()), blockSize, bps, assignment))
  {
    var channels :- ReadChannels(s, blockSize, bps, assignment);
    s.ClearBuffer();
    var _ :- s.ReadUint(16);
    var ok := CheckLengths(channels, blockSize);
    if !ok {
      return Err(BlockLength);
    }
    r := Ok(channels);
  }
}
