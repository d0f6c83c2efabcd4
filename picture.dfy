/** The PICTURE block (RFC 9639, section 8.8): a picture type, two
    length-prefixed texts, four 32-bit numbers describing the image, then the
    length-prefixed image data. Every number is a 32-bit big-endian field. */
module PictureBlock {
  import opened Bits
  import opened Reader
  import opened Utf8
  import opened BitStreams

  /** `picture_types`: the name of each picture type code 0 to 20. */
  const PictureTypes: seq<string> := [
    "Other",
    "32x32 pixels 'file icon' (PNG only)",
    "Other file icon",
    "Cover (front)",
    "Cover (back)",
    "Leaflet page",
    "Media (e.g. label side of CD)",
    "Lead artist/lead performer/soloist",
    "Artist/performer",
    "Conductor",
    "Band/Orchestra",
    "Composer",
    "Lyricist/text writer",
    "Recording Location",
    "During recording",
    "During performance",
    "Movie/video screen capture",
    "A bright coloured fish",
    "Illustration",
    "Band/artist logotype",
    "Publisher/Studio logotype"
  ]

  /** The texts are kept as their UTF-8 bytes. */
  datatype Picture = Picture(
    pictureType: string,
    mimeType: seq<Byte>,
    description: seq<Byte>,
    width: nat,
    height: nat,
    colorDepth: nat,
    usedColors: nat,
    imageData: seq<Byte>)

  datatype Dimensions = Dimensions(width: nat, height: nat, colorDepth: nat, usedColors: nat)

  /** The lookup `picture_types[code]`, which raises for a code without an entry. */
  function PictureTypeName(code: nat): (r: Result<string>)
    ensures r.Ok? <==> code < 21
    ensures r.Err? ==> r.error == UnknownPictureType
  {
    if code < |PictureTypes| then Ok(PictureTypes[code]) else Err(UnknownPictureType)
  }

  /** Distinct codes have distinct names, so the name identifies the code. */
  lemma PictureTypeNamesDistinct()
    ensures forall i, j :: 0 <= i < j < |PictureTypes| ==> PictureTypes[i] != PictureTypes[j]
  {
  }

  /** `read_uint(32)`, then that many bytes, which must decode as UTF-8. */
  function TakeText(u: BitString, p: nat): (r: Result<Read<seq<Byte>>>)
    requires p <= |u|
    ensures r.Ok? ==> ValidUtf8(r.value.value) && p + 32 <= r.value.next <= |u|
    ensures r.Err? ==> r.error == EndOfInput || r.error == BadUtf8
  {
    var n :- TakeUint(u, p, 32);
    var t := TakeBytes(u, n.next, n.value);
    if !ValidUtf8(t.value) then Err(BadUtf8) else Ok(t)
  }

  /** The text read at `p` once its length is known. */
  lemma TextAt(u: BitString, p: nat, m: Read<seq<Byte>>)
    requires p + 32 <= |u| && m == TakeBytes(u, p + 32, BitsValue(u[p..p + 32]))
    ensures TakeText(u, p) == if ValidUtf8(m.value) then Ok(m) else Err(BadUtf8)
  {
  }

  /** `read_uint(32)`, then up to that many bytes, kept raw. */
  function TakeBlob(u: BitString, p: nat): (r: Result<Read<seq<Byte>>>)
    requires p <= |u|
    ensures r.Ok? <==> p + 32 <= |u|
    ensures r.Err? ==> r.error == EndOfInput
    ensures r.Ok? ==> p + 32 <= r.value.next <= |u|
  {
    var n :- TakeUint(u, p, 32);
    Ok(TakeBytes(u, n.next, n.value))
  }

  /** Width, height, colour depth and used colours: four 32-bit fields. */
  function TakeDimensions(u: BitString, p: nat): (r: Result<Read<Dimensions>>)
    ensures r.Ok? <==> p + 128 <= |u|
    ensures r.Err? ==> r.error == EndOfInput
    ensures r.Ok? ==> r.value.next == p + 128
  {
    if |u| < p + 128 then Err(EndOfInput)
    else Ok(Read(Dimensions(Field(u, p, 0, 32), Field(u, p, 32, 32), Field(u, p, 64, 32), Field(u, p, 96, 32)),
                 p + 128))
  }

  function Assembled(name: string, mime: seq<Byte>, description: seq<Byte>, d: Dimensions,
                     image: seq<Byte>): (v: Picture)
    ensures v.width == d.width && v.height == d.height
    ensures v.colorDepth == d.colorDepth && v.usedColors == d.usedColors
  {
    Picture(name, mime, description, d.width, d.height, d.colorDepth, d.usedColors, image)
  }

  /** `Picture.parse_picture`: the reads in the order of the fields. */
  function TakePicture(u: BitString, p: nat): (r: Result<Read<Picture>>)
    requires p <= |u|
    ensures r.Ok? ==> p + 256 <= r.value.next <= |u|
    ensures r.Ok? ==> ValidUtf8(r.value.value.mimeType) && ValidUtf8(r.value.value.description)
  {
    var t :- TakeUint(u, p, 32);
    var name :- PictureTypeName(t.value);
    var mime :- TakeText(u, t.next);
    TakePictureRest(u, mime.next, name, mime.value)
  }

  /** The picture read at `p` once its type code is known. */
  lemma PictureAt(u: BitString, p: nat)
    requires p + 32 <= |u|
    ensures var code := BitsValue(u[p..p + 32]);
      TakePicture(u, p)
        == if code >= 21 then Err(UnknownPictureType)
           else match TakeText(u, p + 32)
             case Err(e) => Err(e)
             case Ok(m) => TakePictureRest(u, m.next, PictureTypes[code], m.value)
  {
  }

  /** The reads after the MIME type: the description, the dimensions, the image. */
  function TakePictureRest(u: BitString, p: nat, name: string, mime: seq<Byte>): (r: Result<Read<Picture>>)
    requires p <= |u|
    ensures r.Ok? ==> p + 192 <= r.value.next <= |u|
    ensures r.Ok? ==> r.value.value.pictureType == name && r.value.value.mimeType == mime
    ensures r.Ok? ==> ValidUtf8(r.value.value.description)
  {
    var description :- TakeText(u, p);
    var d :- TakeDimensions(u, description.next);
    var image :- TakeBlob(u, d.next);
    Ok(Read(Assembled(name, mime, description.value, d.value, image.value), image.next))
  }

  /** `read_uint(32)` then `read_bytes(n).decode('utf-8')`. */
  method ReadText(s: BitStream) returns (r: Result<seq<Byte>>)
    requires s.Valid()
    modifies s
    ensures s.Yields(r, TakeText(s.bits, old(s.Consumed())))
  {
    ghost var c := s.Consumed();
    var n :- s.ReadUint(32);
    ghost var m := TakeBytes(s.bits, s.Consumed(), n);
    var t := s.ReadBytes(n);
    assert t == m.value && s.Consumed() == m.next;
    TextAt(s.bits, c, m);
    if !ValidUtf8(t) {
      return Err(BadUtf8);
    }
    r := Ok(t);
  }

  /** `read_uint(32)` then `read_bytes(n)`. */
  method ReadBlob(s: BitStream) returns (r: Result<seq<Byte>>)
    requires s.Valid()
    modifies s
    ensures s.Yields(r, TakeBlob(s.bits, old(s.Consumed())))
  {
    var n :- s.ReadUint(32);
    ghost var m := TakeBytes(s.bits, s.Consumed(), n);
    var t := s.ReadBytes(n);
    assert t == m.value && s.Consumed() == m.next;
    r := Ok(t);
  }

  method ReadDimensions(s: BitStream) returns (r: Result<Dimensions>)
    requires s.Valid()
    modifies s
    ensures s.Yields(r, TakeDimensions(s.bits, old(s.Consumed())))
  {
    var width :- s.ReadUint(32);
    var height :- s.ReadUint(32);
    var colorDepth :- s.ReadUint(32);
    var usedColors :- s.ReadUint(32);
    r := Ok(Dimensions(width, height, colorDepth, usedColors));
  }

  /** `Picture.parse_picture`. */
  method ReadPicture(s: BitStream) returns (r: Result<Picture>)
    requires s.Valid()
    modifies s
    ensures s.Yields(r, TakePicture(s.bits, old(s.Consumed())))
  {
    ghost var c := s.Consumed();
    var t :- s.ReadUint(32);
    PictureAt(s.bits, c);
    var name :- PictureTypeName(t);
    var mime :- ReadText(s);
    r := ReadPictureRest(s, name, mime);
  }

  method ReadPictureRest(s: BitStream, name: string, mime: seq<Byte>) returns (r: Result<Picture>)
    requires s.Valid()
    modifies s
    ensures s.Yields(r, TakePictureRest(s.bits, old(s.Consumed()), name, mime))
  {
    var description :- ReadText(s);
    var d :- ReadDimensions(s);
    var image :- ReadBlob(s);
    r := Ok(Assembled(name, mime, description, d, image));
  }

  /** On a block that starts on a byte boundary, the picture takes its eight
      32-bit numbers and the bytes of the two texts and of the image. */
  lemma PictureLength(u: BitString, p: nat)
    requires p <= |u| && (|u| - p) % 8 == 0 && TakePicture(u, p).Ok?
    ensures var r := TakePicture(u, p).value;
      r.next == p + 8 * (32 + |r.value.mimeType| + |r.value.description| + |r.value.imageData|)
  {
    var n := (|u| - p) / 8;
    PictureAt(u, p);
    var code := BitsValue(u[p..p + 32]);
    var m := TakeText(u, p + 32);
    assert code < 21 && m.Ok?;
    var name, mime := PictureTypes[code], m.value;
    assert TakePicture(u, p) == TakePictureRest(u, mime.next, name, mime.value);
    PrefixedLength(u, p + 32, n - 4);
    PictureRestLength(u, mime.next, n - 8 - |mime.value|, name, mime.value);
  }

  lemma PictureRestLength(u: BitString, p: nat, n: nat, name: string, mime: seq<Byte>)
    requires |u| == p + 8 * n && TakePictureRest(u, p, name, mime).Ok?
    ensures var r := TakePictureRest(u, p, name, mime).value;
      r.next == p + 8 * (24 + |r.value.description| + |r.value.imageData|)
  {
    PrefixedLength(u, p, n);
    var description := TakeText(u, p).value;
    PrefixedLength(u, description.next + 128, n - 20 - |description.value|);
  }

  /** A length-prefixed byte string read on a byte boundary, with `n` bytes
      left, takes its 32-bit length and its bytes. */
  lemma PrefixedLength(u: BitString, p: nat, n: nat)
    requires |u| == p + 8 * n && 4 <= n
    ensures var b := TakeBlob(u, p).value;
      && b.next == p + 32 + 8 * |b.value| && |b.value| <= n - 4
      && (TakeText(u, p).Ok? ==> TakeText(u, p).value == b)
  {
    DivModUnique(|u| - (p + 32), 8, n - 4, 0);
    assert Align(u, p + 32) == p + 32;
  }

  /** A length-prefixed byte string as `parse_picture` reads it: a 32-bit
      big-endian length, then the bytes. */
  function Prefixed(t: seq<Byte>): (b: seq<Byte>)
    ensures |b| == 4 + |t|
  {
    BigEndianBytes(|t|, 4) + t
  }

  /** The four numbers describing the image, each 32-bit big-endian. */
  function DimensionsBytes(x: Dimensions): (b: seq<Byte>)
    ensures |b| == 16
  {
    BigEndianBytes(x.width, 4) + BigEndianBytes(x.height, 4)
    + BigEndianBytes(x.colorDepth, 4) + BigEndianBytes(x.usedColors, 4)
  }

  function DimensionsOf(v: Picture): Dimensions
  {
    Dimensions(v.width, v.height, v.colorDepth, v.usedColors)
  }

  /** What follows the MIME type: the description, the dimensions, the image. */
  function PictureRestBytes(v: Picture): seq<Byte>
  {
    Prefixed(v.description) + DimensionsBytes(DimensionsOf(v)) + Prefixed(v.imageData)
  }

  /** The bytes of a PICTURE block whose type has code `code`. */
  function PictureBytes(code: nat, v: Picture): seq<Byte>
  {
    BigEndianBytes(code, 4) + Prefixed(v.mimeType) + PictureRestBytes(v)
  }

  /** The picture after its MIME type can be written: a valid description,
      and lengths and numbers that fit 32 bits. */
  predicate RestStorable(v: Picture)
  {
    && ValidUtf8(v.description) && |v.description| < Pow2(32) && |v.imageData| < Pow2(32)
    && v.width < Pow2(32) && v.height < Pow2(32) && v.colorDepth < Pow2(32) && v.usedColors < Pow2(32)
  }

  /** A picture the block can hold under type code `code`. */
  predicate Storable(code: nat, v: Picture)
  {
    && code < |PictureTypes| && v.pictureType == PictureTypes[code]
    && ValidUtf8(v.mimeType) && |v.mimeType| < Pow2(32) && RestStorable(v)
  }

  /** `read_uint(32)` reads back a number stored big-endian from byte `i` to byte `j`. */
  lemma Uint32Held(u: BitString, d: seq<Byte>, i: nat, j: nat, v: nat)
    requires WordView(u, d) && v < Pow2(32) && j == i + 4 && j <= |d| && d[i..j] == BigEndianBytes(v, 4)
    ensures TakeUint(u, 8 * i, 32) == Ok(Read(v, 8 * j))
  {
    assert WordFrom(u, i) == Ok(Read(BigEndian(d[i..i + 4]), 8 * (i + 4)));
    BigEndianRoundTrip(v, 4);
  }

  /** A length-prefixed byte string held from byte `i` to byte `k` reads back as itself. */
  lemma BlobHeld(u: BitString, d: seq<Byte>, i: nat, k: nat, t: seq<Byte>)
    requires ByteView(u, d) && WordView(u, d) && |t| < Pow2(32)
    requires k == i + 4 + |t| && k <= |d| && d[i..k] == Prefixed(t)
    ensures TakeBlob(u, 8 * i) == Ok(Read(t, 8 * k))
  {
    SplitStretch(d, i, i + 4, k, BigEndianBytes(|t|, 4), t);
    Uint32Held(u, d, i, i + 4, |t|);
    StoredBytesAt(u, d, i + 4, k, t);
  }

  /** A length-prefixed valid text reads back as itself. */
  lemma TextHeld(u: BitString, d: seq<Byte>, i: nat, k: nat, t: seq<Byte>)
    requires ByteView(u, d) && WordView(u, d) && |t| < Pow2(32) && ValidUtf8(t)
    requires k == i + 4 + |t| && k <= |d| && d[i..k] == Prefixed(t)
    ensures TakeText(u, 8 * i) == Ok(Read(t, 8 * k))
  {
    BlobHeld(u, d, i, k, t);
  }

  /** Four 32-bit reads in a row give the dimensions they spell. */
  lemma DimensionsFrom(u: BitString, i: nat, x: Dimensions)
    requires TakeUint(u, 8 * i, 32) == Ok(Read(x.width, 8 * (i + 4)))
    requires TakeUint(u, 8 * (i + 4), 32) == Ok(Read(x.height, 8 * (i + 8)))
    requires TakeUint(u, 8 * (i + 8), 32) == Ok(Read(x.colorDepth, 8 * (i + 12)))
    requires TakeUint(u, 8 * (i + 12), 32) == Ok(Read(x.usedColors, 8 * (i + 16)))
    ensures TakeDimensions(u, 8 * i) == Ok(Read(x, 8 * (i + 16)))
  {
    var p := 8 * i;
    assert Field(u, p, 32, 32) == x.height by { assert 8 * (i + 4) == p + 32; }
    assert Field(u, p, 64, 32) == x.colorDepth by { assert 8 * (i + 8) == p + 64; }
    assert Field(u, p, 96, 32) == x.usedColors by { assert 8 * (i + 12) == p + 96; }
  }

  /** The four numbers held from byte `i` to byte `k` read back as themselves. */
  lemma DimensionsHeld(u: BitString, d: seq<Byte>, i: nat, k: nat, x: Dimensions)
    requires WordView(u, d)
    requires x.width < Pow2(32) && x.height < Pow2(32) && x.colorDepth < Pow2(32) && x.usedColors < Pow2(32)
    requires k == i + 16 && k <= |d| && d[i..k] == DimensionsBytes(x)
    ensures TakeDimensions(u, 8 * i) == Ok(Read(x, 8 * k))
  {
    var w, h := BigEndianBytes(x.width, 4), BigEndianBytes(x.height, 4);
    var c, n := BigEndianBytes(x.colorDepth, 4), BigEndianBytes(x.usedColors, 4);
    SplitStretch(d, i, i + 12, k, w + h + c, n);
    SplitStretch(d, i, i + 8, i + 12, w + h, c);
    SplitStretch(d, i, i + 4, i + 8, w, h);
    Uint32Held(u, d, i, i + 4, x.width);
    Uint32Held(u, d, i + 4, i + 8, x.height);
    Uint32Held(u, d, i + 8, i + 12, x.colorDepth);
    Uint32Held(u, d, i + 12, k, x.usedColors);
    DimensionsFrom(u, i, x);
  }

  /** A description, the dimensions and an image read in a row assemble the picture. */
  lemma RestFrom(u: BitString, i: nat, j: nat, k: nat, e: nat, v: Picture)
    requires i <= j <= k <= e && 8 * e <= |u|
    requires TakeText(u, 8 * i) == Ok(Read(v.description, 8 * j))
    requires TakeDimensions(u, 8 * j) == Ok(Read(DimensionsOf(v), 8 * k))
    requires TakeBlob(u, 8 * k) == Ok(Read(v.imageData, 8 * e))
    ensures TakePictureRest(u, 8 * i, v.pictureType, v.mimeType) == Ok(Read(v, 8 * e))
  {
  }

  /** The rest of a picture, held from byte `i` to byte `e`, reads back as itself. */
  lemma RestHeld(u: BitString, d: seq<Byte>, i: nat, e: nat, v: Picture)
    requires ByteView(u, d) && WordView(u, d) && RestStorable(v)
    requires e == i + |PictureRestBytes(v)| && e <= |d| && d[i..e] == PictureRestBytes(v)
    ensures TakePictureRest(u, 8 * i, v.pictureType, v.mimeType) == Ok(Read(v, 8 * e))
  {
    var a, x, b := Prefixed(v.description), DimensionsBytes(DimensionsOf(v)), Prefixed(v.imageData);
    var j := i + |a|;
    var k := j + 16;
    SplitStretch(d, i, k, e, a + x, b);
    SplitStretch(d, i, j, k, a, x);
    TextHeld(u, d, i, j, v.description);
    DimensionsHeld(u, d, j, k, DimensionsOf(v));
    BlobHeld(u, d, k, e, v.imageData);
    RestFrom(u, i, j, k, e, v);
  }

  /** A type code, a MIME type and the rest read in a row give the picture. */
  lemma PictureFrom(u: BitString, i: nat, j: nat, k: nat, e: nat, code: nat, v: Picture)
    requires code < |PictureTypes| && v.pictureType == PictureTypes[code]
    requires i <= j <= k <= e && 8 * e <= |u|
    requires TakeUint(u, 8 * i, 32) == Ok(Read(code, 8 * j))
    requires TakeText(u, 8 * j) == Ok(Read(v.mimeType, 8 * k))
    requires TakePictureRest(u, 8 * k, v.pictureType, v.mimeType) == Ok(Read(v, 8 * e))
    ensures TakePicture(u, 8 * i) == Ok(Read(v, 8 * e))
  {
  }

  /** A picture held from byte `i` to byte `e` reads back as itself. */
  lemma PictureHeld(u: BitString, d: seq<Byte>, i: nat, e: nat, code: nat, v: Picture)
    requires ByteView(u, d) && WordView(u, d) && Storable(code, v)
    requires e == i + |PictureBytes(code, v)| && e <= |d| && d[i..e] == PictureBytes(code, v)
    ensures TakePicture(u, 8 * i) == Ok(Read(v, 8 * e))
  {
    var t, m := BigEndianBytes(code, 4), Prefixed(v.mimeType);
    var k := i + 8 + |v.mimeType|;
    SplitStretch(d, i, k, e, t + m, PictureRestBytes(v));
    SplitStretch(d, i, i + 4, k, t, m);
    assert code < Pow2(32) by { assert Pow2(5) == 32; Pow2Monotone(5, 32); }
    Uint32Held(u, d, i, i + 4, code);
    TextHeld(u, d, i + 4, k, v.mimeType);
    RestHeld(u, d, k, e, v);
    PictureFrom(u, i, i + 4, k, e, code, v);
  }

  /** `parse_picture` reads back any picture the block can hold, wherever its
      bytes sit in the input: its type name, the two texts, the four numbers
      and the image, ending right after the image. */
  lemma PictureRoundTrip(d: seq<Byte>, i: nat, e: nat, code: nat, v: Picture)
    requires Storable(code, v)
    requires e == i + |PictureBytes(code, v)| && e <= |d| && d[i..e] == PictureBytes(code, v)
    ensures TakePicture(BytesBits(d), 8 * i) == Ok(Read(v, 8 * e))
  {
    BytesView(d);
    WordsView(d);
    PictureHeld(BytesBits(d), d, i, e, code, v);
  }
}
