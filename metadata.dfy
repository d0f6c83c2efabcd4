/** The metadata of a FLAC stream (RFC 9639, section 8): the `fLaC` marker,
    then metadata blocks, each a 32-bit header followed by a body, up to the
    block whose header has the last-block flag set. */
module Metadata {
  import opened Bits
  import opened Reader
  import opened BitStreams
  import opened StreamInfoBlock
  import opened ApplicationBlock
  import opened VorbisCommentBlock
  import opened PictureBlock
  import opened UnknownBlock

  /** `FLAC_MARKER`: the bytes of `fLaC`. */
  const FlacMarker: seq<Byte> := [0x66, 0x4C, 0x61, 0x43]

  /** A block header: the last-block flag, the block type and the body size in bytes. */
  datatype Header = Header(isLast: bool, blockType: nat, size: nat)

  /** The body of each kind of block `block_types` knows, and of the rest. */
  datatype Body =
    | StreamInfoBody(info: StreamInfo)
    | ApplicationBody(application: Application)
    | VorbisCommentBody(comment: VorbisComment)
    | PictureBody(picture: Picture)
    | UnknownBody

  /** `MetadataBlock`: every block keeps the size and the flag of its header. */
  datatype Block = Block(size: nat, isLast: bool, body: Body)

  /** `_streaminfo` is the first block, whatever its type; `_blocks` the others. */
  datatype Metadata = Metadata(streamInfo: Block, blocks: seq<Block>)

  /** `_parse_metadata_block`'s header reads: 1, 7 and 24 bits. */
  function TakeHeader(u: BitString, p: nat): (r: Result<Read<Header>>)
    ensures r.Ok? <==> p + 32 <= |u|
    ensures r.Err? ==> r.error == EndOfInput
    ensures r.Ok? ==> r.value.next == p + 32 && r.value.value.blockType < 128
    ensures r.Ok? ==> r.value.value.size < 0x100_0000
  {
    if |u| < p + 32 then Err(EndOfInput)
    else
      BitsValueBound(u[p + 1..p + 8]);
      BitsValueBound(u[p + 8..p + 32]);
      Pow2Add(8, 16);
      assert Pow2(7) == 128 && Pow2(8) == 256;
      Ok(Read(Header(Field(u, p, 0, 1) == 1, Field(u, p, 1, 7), Field(u, p, 8, 24)), p + 32))
  }

  /** The body read the `block_types` dispatch picks: types 0, 2, 4 and 6
      have their own parser; every other type is skipped, 3 and 5 among them. */
  function TakeBody(u: BitString, p: nat, h: Header): (r: Result<Read<Body>>)
    requires p <= |u|
    ensures r.Ok? ==> p <= r.value.next <= |u|
    ensures r.Ok? ==> (r.value.value.StreamInfoBody? <==> h.blockType == 0)
    ensures r.Ok? ==> (r.value.value.ApplicationBody? <==> h.blockType == 2)
    ensures r.Ok? ==> (r.value.value.VorbisCommentBody? <==> h.blockType == 4)
    ensures r.Ok? ==> (r.value.value.PictureBody? <==> h.blockType == 6)
    ensures h.blockType !in {0, 2, 4, 6} ==> r == Ok(Read(UnknownBody, SkipEnd(u, p, h.size)))
  {
    if h.blockType == 0 then
      var info :- TakeStreamInfo(u, p);
      Ok(Read(StreamInfoBody(info.value), info.next))
    else if h.blockType == 2 then
      var data := TakeBytes(u, p, h.size);
      var application :- ParseApplication(h.size, data.value);
      Ok(Read(ApplicationBody(application), data.next))
    else if h.blockType == 4 then
      var comment :- TakeVorbisComment(u, p);
      Ok(Read(VorbisCommentBody(comment.value), comment.next))
    else if h.blockType == 6 then
      var picture :- TakePicture(u, p);
      Ok(Read(PictureBody(picture.value), picture.next))
    else
      Ok(Read(UnknownBody, SkipEnd(u, p, h.size)))
  }

  /** `_parse_metadata_block`: a header, then the body it announces. */
  function TakeBlock(u: BitString, p: nat): (r: Result<Read<Block>>)
    requires p <= |u|
    ensures r.Ok? ==> p + 32 <= r.value.next <= |u|
  {
    var h :- TakeHeader(u, p);
    var body :- TakeBody(u, h.next, h.value);
    Ok(Read(Block(h.value.size, h.value.isLast, body.value), body.next))
  }

  /** `_parse_metadata_blocks`: blocks up to and including the first one
      flagged last. Every block takes at least its 32-bit header, so the
      reading ends. */
  function TakeBlocks(u: BitString, p: nat): (r: Result<Read<seq<Block>>>)
    requires p <= |u|
    ensures r.Ok? ==> |r.value.value| > 0 && p < r.value.next <= |u|
    decreases |u| - p
  {
    match TakeBlock(u, p)
    case Err(e) => Err(e)
    case Ok(b) =>
      if b.value.isLast then Ok(Read([b.value], b.next))
      else Prepend([b.value], TakeBlocks(u, b.next))
  }

  /** `Metadata.__init__`: the marker, then the blocks. */
  function ParseMetadata(d: seq<Byte>): (r: Result<Metadata>)
  {
    var u := BytesBits(d);
    var marker := TakeBytes(u, 0, 4);
    if marker.value != FlacMarker then Err(NotFlac)
    else
      var blocks :- TakeBlocks(u, marker.next);
      Ok(Metadata(blocks.value[0], blocks.value[1..]))
  }

  /** Exactly the last block of the list has the last-block flag set. */
  lemma {:induction false} OnlyLastIsLast(u: BitString, p: nat)
    requires p <= |u| && TakeBlocks(u, p).Ok?
    ensures var bs := TakeBlocks(u, p).value.value;
      bs[|bs| - 1].isLast && forall i :: 0 <= i < |bs| - 1 ==> !bs[i].isLast
    decreases |u| - p
  {
    var b := TakeBlock(u, p).value;
    if !b.value.isLast {
      OnlyLastIsLast(u, b.next);
      var rest := TakeBlocks(u, b.next).value.value;
      var bs := TakeBlocks(u, p).value.value;
      assert bs == [b.value] + rest;
      forall i | 0 <= i < |bs| - 1
        ensures !bs[i].isLast
      {
        if i > 0 {
          assert bs[i] == rest[i - 1];
        }
      }
    }
  }

  /** The first four bytes must be the marker: shorter input or any other
      four bytes fail with `NotFlac`, and nothing fails with it otherwise. */
  lemma MarkerRequired(d: seq<Byte>)
    ensures ParseMetadata(d) == Err(NotFlac) <== |d| < 4 || d[..4] != FlacMarker
    ensures ParseMetadata(d).Ok? ==> |d| >= 4 && d[..4] == FlacMarker
  {
    TakeBytesOfBytes(d, 0, 4, Min(4, |d|));
  }

  /** `_streaminfo` has the last-block flag exactly when it is the only block,
      and otherwise the last of `_blocks` has it and no other block does. */
  lemma MetadataLastFlag(d: seq<Byte>)
    requires ParseMetadata(d).Ok?
    ensures var m := ParseMetadata(d).value;
      && (m.streamInfo.isLast <==> m.blocks == [])
      && (m.blocks != [] ==> m.blocks[|m.blocks| - 1].isLast)
      && forall i :: 0 <= i < |m.blocks| - 1 ==> !m.blocks[i].isLast
  {
    var u := BytesBits(d);
    var marker := TakeBytes(u, 0, 4);
    OnlyLastIsLast(u, marker.next);
    var bs := TakeBlocks(u, marker.next).value.value;
    var m := ParseMetadata(d).value;
    assert m.streamInfo == bs[0] && m.blocks == bs[1..];
    forall i | 0 <= i < |m.blocks| - 1
      ensures !m.blocks[i].isLast
    {
      assert m.blocks[i] == bs[i + 1];
    }
  }

  /** A STREAMINFO body is the same whatever size its header declares. */
  lemma StreamInfoIgnoresSize(u: BitString, p: nat, isLast: bool, a: nat, b: nat)
    requires p <= |u|
    ensures TakeBody(u, p, Header(isLast, 0, a)) == TakeBody(u, p, Header(isLast, 0, b))
  {
  }

  /** `sample_width`: the sample depth of the first block; reading it fails
      when the first block is not a STREAMINFO block. */
  function SampleWidth(m: Metadata): (r: Result<nat>)
    ensures r.Ok? <==> m.streamInfo.body.StreamInfoBody?
    ensures r.Ok? ==> r.value == m.streamInfo.body.info.bitsPerSample
    ensures r.Err? ==> r.error == MissingField
  {
    match m.streamInfo.body
    case StreamInfoBody(info) => Ok(info.bitsPerSample)
    case _ => Err(MissingField)
  }

  /** `frame_rate`: the sample rate of the first block. */
  function FrameRate(m: Metadata): (r: Result<nat>)
    ensures r.Ok? <==> m.streamInfo.body.StreamInfoBody?
    ensures r.Ok? ==> r.value == m.streamInfo.body.info.sampleRate
    ensures r.Err? ==> r.error == MissingField
  {
    match m.streamInfo.body
    case StreamInfoBody(info) => Ok(info.sampleRate)
    case _ => Err(MissingField)
  }

  /** `channels`: the channel count of the first block. */
  function Channels(m: Metadata): (r: Result<nat>)
    ensures r.Ok? <==> m.streamInfo.body.StreamInfoBody?
    ensures r.Ok? ==> r.value == m.streamInfo.body.info.channels
    ensures r.Err? ==> r.error == MissingField
  {
    match m.streamInfo.body
    case StreamInfoBody(info) => Ok(info.channels)
    case _ => Err(MissingField)
  }

  /** On a stream whose first block is a STREAMINFO block, the channel count
      is in 1..8 and the sample depth in 1..32. */
  lemma AccessorRanges(d: seq<Byte>)
    requires ParseMetadata(d).Ok? && SampleWidth(ParseMetadata(d).value).Ok?
    ensures 1 <= Channels(ParseMetadata(d).value).value <= 8
    ensures 1 <= SampleWidth(ParseMetadata(d).value).value <= 32
  {
    var u := BytesBits(d);
    var marker := TakeBytes(u, 0, 4);
    var q := TakeHeader(u, marker.next).value.next;
    StreamInfoRanges(u, q);
  }

  /** `pictures`: the picture blocks of `blocks`, in order. */
  function Pictures(blocks: seq<Block>): (r: seq<Block>)
    ensures |r| <= |blocks|
    ensures forall i :: 0 <= i < |r| ==> r[i].body.PictureBody?
  {
    if |blocks| == 0 then []
    else Pictures(blocks[..|blocks| - 1])
         + (if blocks[|blocks| - 1].body.PictureBody? then [blocks[|blocks| - 1]] else [])
  }

  /** A block is among the pictures exactly when it is a picture block of `blocks`. */
  lemma {:induction false} PicturesMembers(blocks: seq<Block>, b: Block)
    ensures b in Pictures(blocks) <==> b in blocks && b.body.PictureBody?
  {
    if |blocks| > 0 {
      var init := blocks[..|blocks| - 1];
      PicturesMembers(init, b);
      assert blocks == init + [blocks[|blocks| - 1]];
    }
  }

  /** The filter keeps the order: the pictures of two runs of blocks are the
      pictures of the first run followed by those of the second. */
  lemma {:induction false} PicturesConcat(a: seq<Block>, b: seq<Block>)
    ensures Pictures(a + b) == Pictures(a) + Pictures(b)
    decreases |b|
  {
    if |b| == 0 {
      assert a + b == a;
    } else {
      var init := b[..|b| - 1];
      assert (a + b)[..|a + b| - 1] == a + init;
      PicturesConcat(a, init);
    }
  }

  /** `Metadata.__init__`, with the stream over the file's bytes. */
  method ReadMetadata(data: seq<Byte>) returns (r: Result<Metadata>)
    ensures r == ParseMetadata(data)
  {
    var s := new BitStream(data);
    var marker := s.ReadBytes(4);
    if marker != FlacMarker {
      return Err(NotFlac);
    }
    var blocks :- ReadBlocks(s);
    r := Ok(Metadata(blocks[0], blocks[1..]));
  }

  /** `_parse_metadata_blocks`: the `while True` loop. */
  method ReadBlocks(s: BitStream) returns (r: Result<seq<Block>>)
    requires s.Valid()
    modifies s
    ensures s.Yields(r, TakeBlocks(s.bits, old(s.Consumed())))
  {
    ghost var start := s.Consumed();
    ghost var at := start;
    var blocks: seq<Block> := [];
    PrependNothing(TakeBlocks(s.bits, start));
    while true
      invariant s.Valid() && at == s.Consumed()
      invariant TakeBlocks(s.bits, start) == Prepend(blocks, TakeBlocks(s.bits, at))
      decreases |s.bits| - at
    {
      var block :- ReadBlock(s);
      if block.isLast {
        blocks := blocks + [block];
        break;
      }
      PrependPrepend(blocks, [block], TakeBlocks(s.bits, s.Consumed()));
      blocks := blocks + [block];
      at := s.Consumed();
    }
    r := Ok(blocks);
  }

  /** `_parse_metadata_block`. */
  method ReadBlock(s: BitStream) returns (r: Result<Block>)
    requires s.Valid()
    modifies s
    ensures s.Yields(r, TakeBlock(s.bits, old(s.Consumed())))
  {
    var h :- ReadHeader(s);
    var body :- ReadBody(s, h);
    r := Ok(Block(h.size, h.isLast, body));
  }

  method ReadHeader(s: BitStream) returns (r: Result<Header>)
    requires s.Valid()
    modifies s
    ensures s.Yields(r, TakeHeader(s.bits, old(s.Consumed())))
  {
    var isLast :- s.ReadUint(1);
    var blockType :- s.ReadUint(7);
    var size :- s.ReadUint(24);
    r := Ok(Header(isLast == 1, blockType, size));
  }

  /** The `block_types` dispatch. */
  method ReadBody(s: BitStream, h: Header) returns (r: Result<Body>)
    requires s.Valid()
    modifies s
    ensures s.Yields(r, TakeBody(s.bits, old(s.Consumed()), h))
  {
    if h.blockType == 0 {
      var info :- ReadStreamInfo(s);
      r := Ok(StreamInfoBody(info));
    } else if h.blockType == 2 {
      var data := s.ReadBytes(h.size);
      var application :- ParseApplication(h.size, data);
      r := Ok(ApplicationBody(application));
    } else if h.blockType == 4 {
      var comment :- ReadVorbisComment(s);
      r := Ok(VorbisCommentBody(comment));
    } else if h.blockType == 6 {
      var picture :- ReadPicture(s);
      r := Ok(PictureBody(picture));
    } else {
      SkipUnknown(s, h.size);
      r := Ok(UnknownBody);
    }
  }
}
