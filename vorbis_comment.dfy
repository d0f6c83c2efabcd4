/** The VORBIS_COMMENT block (RFC 9639, section 8.6): a vendor string and a
    list of `NAME=value` comments, every length a 32-bit little-endian number.
    The comments are gathered into a map from each name to its values. */
module VorbisCommentBlock {
  import opened Bits
  import opened Reader
  import opened Utf8
  import opened BitStreams

  /** The byte of `=` in UTF-8 (and ASCII). */
  const EqualsSign: Byte := 0x3D

  /** A comment split at its `=`. Texts are kept as their UTF-8 bytes. */
  datatype Comment = Comment(tag: seq<Byte>, value: seq<Byte>)

  /** `tags` maps each name to its values in the order they were read. */
  datatype VorbisComment = VorbisComment(vendor: seq<Byte>, tags: map<seq<Byte>, seq<seq<Byte>>>)

  /** The number of times `b` occurs in `s`. */
  function Occurrences(s: seq<Byte>, b: Byte): (k: nat)
    ensures k <= |s|
    ensures k == 0 <==> b !in s
  {
    if |s| == 0 then 0 else (if s[0] == b then 1 else 0) + Occurrences(s[1..], b)
  }

  /** The position of the first `b` in `s`. */
  function IndexOf(s: seq<Byte>, b: Byte): (i: nat)
    requires b in s
    ensures i < |s| && s[i] == b && b !in s[..i]
  {
    if s[0] == b then 0 else 1 + IndexOf(s[1..], b)
  }

  /** `tag, value = comment.split('=')`: the unpack into two names needs
      exactly two parts, so exactly one `=`. */
  function SplitComment(text: seq<Byte>): (r: Result<Comment>)
    ensures r.Ok? <==> Occurrences(text, EqualsSign) == 1
    ensures r.Err? ==> r.error == BadComment
  {
    if Occurrences(text, EqualsSign) != 1 then Err(BadComment)
    else
      var i := IndexOf(text, EqualsSign);
      Ok(Comment(text[..i], text[i + 1..]))
  }

  /** Occurrences add up over a concatenation. */
  lemma {:induction false} OccurrencesConcat(a: seq<Byte>, b: seq<Byte>, x: Byte)
    ensures Occurrences(a + b, x) == Occurrences(a, x) + Occurrences(b, x)
  {
    if |a| > 0 {
      assert (a + b)[1..] == a[1..] + b;
      OccurrencesConcat(a[1..], b, x);
    } else {
      assert a + b == b;
    }
  }

  /** The split undoes joining with `=`: name and value come back apart, and
      neither contains `=`. */
  lemma SplitCommentParts(text: seq<Byte>)
    requires SplitComment(text).Ok?
    ensures var c := SplitComment(text).value;
      c.tag + [EqualsSign] + c.value == text && EqualsSign !in c.tag && EqualsSign !in c.value
  {
    var i := IndexOf(text, EqualsSign);
    assert text == text[..i] + [EqualsSign] + text[i + 1..];
    OccurrencesConcat(text[..i] + [EqualsSign], text[i + 1..], EqualsSign);
    OccurrencesConcat(text[..i], [EqualsSign], EqualsSign);
  }

  /** Joining a name and a value without `=` by one `=` splits back into them. */
  lemma SplitJoined(tag: seq<Byte>, value: seq<Byte>)
    requires EqualsSign !in tag && EqualsSign !in value
    ensures SplitComment(tag + [EqualsSign] + value) == Ok(Comment(tag, value))
  {
    var text := tag + [EqualsSign] + value;
    OccurrencesConcat(tag + [EqualsSign], value, EqualsSign);
    OccurrencesConcat(tag, [EqualsSign], EqualsSign);
    var i := IndexOf(text, EqualsSign);
    assert text[..|tag|] == tag;
    assert text[|tag|] == EqualsSign;
    assert text[i + 1..] == value;
  }

  /** The name and the value of a valid text are valid text: `=` is a
      character of its own in UTF-8. */
  lemma SplitCommentValid(text: seq<Byte>)
    requires ValidUtf8(text) && SplitComment(text).Ok?
    ensures ValidUtf8(SplitComment(text).value.tag) && ValidUtf8(SplitComment(text).value.value)
  {
    AsciiSplits(text, IndexOf(text, EqualsSign));
  }

  /** `read_bytes(n).decode('utf-8')` after `n = unpack('<I', read_bytes(4))[0]`. */
  function TakeText(u: BitString, p: nat): (r: Result<Read<seq<Byte>>>)
    requires p <= |u|
    ensures r.Ok? ==> ValidUtf8(r.value.value) && p + 32 <= r.value.next <= |u|
    ensures r.Err? ==> r.error == ShortField || r.error == BadUtf8
  {
    var n :- TakeLittleEndian32(u, p);
    var t := TakeBytes(u, n.next, n.value);
    if !ValidUtf8(t.value) then Err(BadUtf8) else Ok(t)
  }

  /** One comment: a text, then its split. */
  function TakeComment(u: BitString, p: nat): (r: Result<Read<Comment>>)
    requires p <= |u|
    ensures r.Ok? ==> p + 32 <= r.value.next <= |u|
  {
    var t :- TakeText(u, p);
    var c :- SplitComment(t.value);
    Ok(Read(c, t.next))
  }

  /** `count` comments one after the other. */
  function TakeComments(u: BitString, p: nat, count: nat): (r: Result<Read<seq<Comment>>>)
    requires p <= |u|
    ensures r.Ok? ==> |r.value.value| == count && p <= r.value.next <= |u|
    decreases count
  {
    if count == 0 then Ok(Read([], p))
    else
      match TakeComment(u, p)
      case Err(e) => Err(e)
      case Ok(c) => Prepend([c.value], TakeComments(u, c.next, count - 1))
  }

  /** What one pass of the loop body does to the map: append the value to the
      list of its name, starting a new list for a new name. */
  function AddTag(tags: map<seq<Byte>, seq<seq<Byte>>>, c: Comment): (m: map<seq<Byte>, seq<seq<Byte>>>)
    ensures m.Keys == tags.Keys + {c.tag}
  {
    tags[c.tag := (if c.tag in tags then tags[c.tag] else []) + [c.value]]
  }

  /** The map built from the comments in order. */
  function Tags(cs: seq<Comment>): map<seq<Byte>, seq<seq<Byte>>>
  {
    if |cs| == 0 then map[] else AddTag(Tags(cs[..|cs| - 1]), cs[|cs| - 1])
  }

  /** The map of `count` comments read in order. */
  function TakeTags(u: BitString, p: nat, count: nat): (r: Result<Read<map<seq<Byte>, seq<seq<Byte>>>>>)
    requires p <= |u|
    ensures r.Ok? ==> p <= r.value.next <= |u|
  {
    match TakeComments(u, p, count)
    case Err(e) => Err(e)
    case Ok(cs) => Ok(Read(Tags(cs.value), cs.next))
  }

  /** `VorbisComment.parse_comments`. */
  function TakeVorbisComment(u: BitString, p: nat): (r: Result<Read<VorbisComment>>)
    requires p <= |u|
    ensures r.Ok? ==> p + 64 <= r.value.next <= |u| && ValidUtf8(r.value.value.vendor)
  {
    var vendor :- TakeText(u, p);
    var count :- TakeLittleEndian32(u, vendor.next);
    var tags :- TakeTags(u, count.next, count.value);
    Ok(Read(VorbisComment(vendor.value, tags.value), tags.next))
  }

  /** The block once the vendor string and the comment count are known. */
  lemma VorbisCommentAt(u: BitString, p: nat, vendor: Read<seq<Byte>>, count: Read<nat>)
    requires p <= |u| && TakeText(u, p) == Ok(vendor) && TakeLittleEndian32(u, vendor.next) == Ok(count)
    ensures TakeVorbisComment(u, p)
         == match TakeTags(u, count.next, count.value)
            case Err(e) => Err(e)
            case Ok(tags) => Ok(Read(VorbisComment(vendor.value, tags.value), tags.next))
  {
  }

  lemma PrependAll(done: seq<Comment>, u: BitString, p: nat)
    requires p <= |u|
    ensures Prepend(done, TakeComments(u, p, 0)) == Ok(Read(done, p))
  {
    assert done + [] == done;
  }

  /** A text as the block stores it: its length in four little-endian
      bytes, then its bytes. */
  function TextBytes(t: seq<Byte>): (b: seq<Byte>)
    ensures |b| == 4 + |t|
  {
    LittleEndianBytes(|t|, 4) + t
  }

  /** A comment joined back into its `NAME=value` text. */
  function Joined(c: Comment): (t: seq<Byte>)
    ensures |t| == |c.tag| + 1 + |c.value|
  {
    c.tag + [EqualsSign] + c.value
  }

  /** The comments stored one after the other. */
  function CommentsBytes(cs: seq<Comment>): seq<Byte>
  {
    if |cs| == 0 then [] else TextBytes(Joined(cs[0])) + CommentsBytes(cs[1..])
  }

  /** One more comment stores one more text after the others. */
  lemma {:induction false} CommentsBytesSnoc(cs: seq<Comment>, c: Comment)
    ensures CommentsBytes(cs + [c]) == CommentsBytes(cs) + TextBytes(Joined(c))
  {
    if |cs| > 0 {
      assert (cs + [c])[1..] == cs[1..] + [c];
      CommentsBytesSnoc(cs[1..], c);
    } else {
      assert cs + [c] == [c];
    }
  }

  /** The block as a writer lays it out: the vendor text, the number of
      comments, then the comments. */
  function VorbisBytes(vendor: seq<Byte>, cs: seq<Comment>): seq<Byte>
  {
    TextBytes(vendor) + LittleEndianBytes(|cs|, 4) + CommentsBytes(cs)
  }

  /** A text the block can hold: valid UTF-8 whose length fits 32 bits. */
  predicate Storable(t: seq<Byte>)
  {
    ValidUtf8(t) && |t| < Pow2(32)
  }

  /** A comment that reads back as itself: no `=` in its name or its value. */
  predicate StorableComment(c: Comment)
  {
    EqualsSign !in c.tag && EqualsSign !in c.value && Storable(Joined(c))
  }

  /** `unpack('<I', read_bytes(4))[0]` reads back a number packed in four
      little-endian bytes, from byte `i` to byte `j`. */
  lemma LittleEndian32At(u: BitString, d: seq<Byte>, i: nat, j: nat, v: nat)
    requires ByteView(u, d) && v < Pow2(32) && j == i + 4 && j <= |d| && d[i..j] == LittleEndianBytes(v, 4)
    ensures TakeLittleEndian32(u, 8 * i) == Ok(Read(v, 8 * j))
  {
    assert BytesFrom(u, i, 4) == Read(d[i..i + 4], 8 * (i + 4));
    LittleEndianRoundTrip(v, 4);
  }

  /** A text whose length and bytes are known. */
  lemma TextOfParts(u: BitString, p: nat, n: nat, t: seq<Byte>, e: nat)
    requires p <= n <= |u| && TakeLittleEndian32(u, p) == Ok(Read(|t|, n))
    requires TakeBytes(u, n, |t|) == Read(t, e) && ValidUtf8(t)
    ensures TakeText(u, p) == Ok(Read(t, e))
  {
  }

  /** The two reads of a text stored from byte `i` to byte `k`: its length,
      then its bytes. */
  lemma TextFields(u: BitString, d: seq<Byte>, i: nat, k: nat, t: seq<Byte>)
    requires ByteView(u, d) && |t| < Pow2(32)
    requires k == i + |TextBytes(t)| && k <= |d| && d[i..k] == TextBytes(t)
    ensures TakeLittleEndian32(u, 8 * i) == Ok(Read(|t|, 8 * (i + 4)))
    ensures TakeBytes(u, 8 * (i + 4), |t|) == Read(t, 8 * k)
  {
    SplitStretch(d, i, i + 4, k, LittleEndianBytes(|t|, 4), t);
    LittleEndian32At(u, d, i, i + 4, |t|);
    StoredBytesAt(u, d, i + 4, k, t);
  }

  /** A text stored from byte `i` to byte `k` reads back as itself. */
  lemma TextAt(u: BitString, d: seq<Byte>, i: nat, k: nat, t: seq<Byte>)
    requires ByteView(u, d) && Storable(t)
    requires k == i + |TextBytes(t)| && k <= |d| && d[i..k] == TextBytes(t)
    ensures TakeText(u, 8 * i) == Ok(Read(t, 8 * k))
  {
    TextFields(u, d, i, k, t);
    TextOfParts(u, 8 * i, 8 * (i + 4), t, 8 * k);
  }

  /** One stored comment, read from its length and its bytes, then the rest
      of the comments. */
  lemma CommentsStep(u: BitString, p: nat, q: nat, r: nat, cs: seq<Comment>, e: nat)
    requires |cs| > 0 && StorableComment(cs[0]) && p <= q <= r <= |u|
    requires TakeLittleEndian32(u, p) == Ok(Read(|Joined(cs[0])|, q))
    requires TakeBytes(u, q, |Joined(cs[0])|) == Read(Joined(cs[0]), r)
    requires TakeComments(u, r, |cs[1..]|) == Ok(Read(cs[1..], e))
    ensures TakeComments(u, p, |cs|) == Ok(Read(cs, e))
  {
    CommentThenRest(u, p, q, r, cs[0], cs[1..], e);
    assert [cs[0]] + cs[1..] == cs;
  }

  /** A comment read from its length and its bytes, put in front of the
      comments that follow it. */
  lemma CommentThenRest(u: BitString, p: nat, q: nat, r: nat, c: Comment, cs: seq<Comment>, e: nat)
    requires StorableComment(c) && p <= q <= r <= |u|
    requires TakeLittleEndian32(u, p) == Ok(Read(|Joined(c)|, q))
    requires TakeBytes(u, q, |Joined(c)|) == Read(Joined(c), r)
    requires TakeComments(u, r, |cs|) == Ok(Read(cs, e))
    ensures TakeComments(u, p, |cs| + 1) == Ok(Read([c] + cs, e))
  {
    TextOfParts(u, p, q, Joined(c), r);
    SplitJoined(c.tag, c.value);
  }

  /** The first comment stored from byte `i` to byte `j`, then the rest of
      the comments from byte `j` to byte `k`. */
  lemma CommentsStepAt(u: BitString, d: seq<Byte>, i: nat, j: nat, k: nat, cs: seq<Comment>)
    requires ByteView(u, d) && |cs| > 0 && StorableComment(cs[0])
    requires j == i + |TextBytes(Joined(cs[0]))| && j <= |d| && d[i..j] == TextBytes(Joined(cs[0]))
    requires j <= k && 8 * k <= |u| && TakeComments(u, 8 * j, |cs[1..]|) == Ok(Read(cs[1..], 8 * k))
    ensures TakeComments(u, 8 * i, |cs|) == Ok(Read(cs, 8 * k))
  {
    TextFields(u, d, i, j, Joined(cs[0]));
    CommentsStep(u, 8 * i, 8 * (i + 4), 8 * j, cs, 8 * k);
  }

  /** Comments stored from byte `i` to byte `k` read back as themselves, in
      order. */
  lemma {:induction false} CommentsAt(u: BitString, d: seq<Byte>, i: nat, k: nat, cs: seq<Comment>)
    requires ByteView(u, d) && forall n :: 0 <= n < |cs| ==> StorableComment(cs[n])
    requires k == i + |CommentsBytes(cs)| && k <= |d| && d[i..k] == CommentsBytes(cs)
    ensures TakeComments(u, 8 * i, |cs|) == Ok(Read(cs, 8 * k))
    decreases |cs|
  {
    if |cs| > 0 {
      var head, tail := TextBytes(Joined(cs[0])), CommentsBytes(cs[1..]);
      var j := i + |head|;
      SplitStretch(d, i, j, k, head, tail);
      CommentsAt(u, d, j, k, cs[1..]);
      CommentsStepAt(u, d, i, j, k, cs);
    }
  }

  /** A block laid out by `VorbisBytes` from the start of `d` to byte `n`
      reads back. */
  lemma VorbisAt(u: BitString, d: seq<Byte>, n: nat, vendor: seq<Byte>, cs: seq<Comment>)
    requires ByteView(u, d) && Storable(vendor) && |cs| < Pow2(32)
    requires forall i :: 0 <= i < |cs| ==> StorableComment(cs[i])
    requires n == |VorbisBytes(vendor, cs)| && n <= |d| && d[0..n] == VorbisBytes(vendor, cs)
    ensures TakeVorbisComment(u, 0) == Ok(Read(VorbisComment(vendor, Tags(cs)), 8 * n))
  {
    var text, count, comments := TextBytes(vendor), LittleEndianBytes(|cs|, 4), CommentsBytes(cs);
    var a := |text|;
    SplitStretch(d, 0, a + 4, n, text + count, comments);
    SplitStretch(d, 0, a, a + 4, text, count);
    TextAt(u, d, 0, a, vendor);
    LittleEndian32At(u, d, a, a + 4, |cs|);
    CommentsAt(u, d, a + 4, n, cs);
    VorbisCommentAt(u, 0, Read(vendor, 8 * a), Read(|cs|, 8 * (a + 4)));
  }

  /** `parse_comments` reads back a block laid out by `VorbisBytes`: the
      vendor, and the map of the comments, whatever follows the block. */
  lemma VorbisRoundTrip(vendor: seq<Byte>, cs: seq<Comment>, rest: seq<Byte>)
    requires Storable(vendor) && |cs| < Pow2(32)
    requires forall i :: 0 <= i < |cs| ==> StorableComment(cs[i])
    ensures TakeVorbisComment(BytesBits(VorbisBytes(vendor, cs) + rest), 0)
         == Ok(Read(VorbisComment(vendor, Tags(cs)), 8 * |VorbisBytes(vendor, cs)|))
  {
    var d := VorbisBytes(vendor, cs) + rest;
    BytesView(d);
    assert d[0..|VorbisBytes(vendor, cs)|] == VorbisBytes(vendor, cs);
    VorbisAt(BytesBits(d), d, |VorbisBytes(vendor, cs)|, vendor, cs);
  }

  /** `unpack('<I', read_bytes(4))[0]`. */
  method ReadLittleEndian32(s: BitStream) returns (r: Result<nat>)
    requires s.Valid()
    modifies s
    ensures s.Yields(r, TakeLittleEndian32(s.bits, old(s.Consumed())))
  {
    var b := s.ReadBytes(4);
    if |b| < 4 {
      return Err(ShortField);
    }
    r := Ok(LittleEndian(b));
  }

  method ReadText(s: BitStream) returns (r: Result<seq<Byte>>)
    requires s.Valid()
    modifies s
    ensures s.Yields(r, TakeText(s.bits, old(s.Consumed())))
  {
    var n :- ReadLittleEndian32(s);
    ghost var m := TakeBytes(s.bits, s.Consumed(), n);
    var t := s.ReadBytes(n);
    assert t == m.value && s.Consumed() == m.next;
    if !ValidUtf8(t) {
      return Err(BadUtf8);
    }
    r := Ok(t);
  }

  method ReadComment(s: BitStream) returns (r: Result<Comment>)
    requires s.Valid()
    modifies s
    ensures s.Yields(r, TakeComment(s.bits, old(s.Consumed())))
  {
    var t :- ReadText(s);
    var c :- SplitComment(t);
    r := Ok(c);
  }

  /** `VorbisComment.parse_comments`. */
  method ReadVorbisComment(s: BitStream) returns (r: Result<VorbisComment>)
    requires s.Valid()
    modifies s
    ensures s.Yields(r, TakeVorbisComment(s.bits, old(s.Consumed())))
  {
    ghost var c0 := s.Consumed();
    var vendor :- ReadText(s);
    ghost var v := Read(vendor, s.Consumed());
    var count :- ReadLittleEndian32(s);
    VorbisCommentAt(s.bits, c0, v, Read(count, s.Consumed()));
    var tags :- ReadTags(s, count);
    r := Ok(VorbisComment(vendor, tags));
  }

  /** The `for` loop of `parse_comments`: read `count` comments, filling the
      map in place. */
  method ReadTags(s: BitStream, count: nat) returns (r: Result<map<seq<Byte>, seq<seq<Byte>>>>)
    requires s.Valid()
    modifies s
    ensures s.Yields(r, TakeTags(s.bits, old(s.Consumed()), count))
  {
    ghost var start := s.Consumed();
    ghost var at := start;
    var tags: map<seq<Byte>, seq<seq<Byte>>> := map[];
    ghost var done: seq<Comment> := [];
    PrependNothing(TakeComments(s.bits, start, count));
    var left := count;
    while left > 0
      invariant s.Valid() && at == s.Consumed() && |done| + left == count && tags == Tags(done)
      invariant TakeComments(s.bits, start, count) == Prepend(done, TakeComments(s.bits, at, left))
    {
      var c :- ReadComment(s);
      PrependPrepend(done, [c], TakeComments(s.bits, s.Consumed(), left - 1));
      assert done + [c] == (done + [c])[..|done|] + [c];
      tags := AddTag(tags, c);
      done := done + [c];
      at := s.Consumed();
      left := left - 1;
    }
    PrependAll(done, s.bits, s.Consumed());
    r := Ok(tags);
  }

  /** The values of name `t`, in the order the comments were read. */
  function ValuesOf(cs: seq<Comment>, t: seq<Byte>): seq<seq<Byte>>
  {
    if |cs| == 0 then []
    else ValuesOf(cs[..|cs| - 1], t) + (if cs[|cs| - 1].tag == t then [cs[|cs| - 1].value] else [])
  }

  /** A name is in the map exactly when some comment has it, spelled exactly
      as read, and its list is every value given for it, in reading order and
      with repeats kept. */
  lemma {:induction false} TagsHoldValues(cs: seq<Comment>, t: seq<Byte>)
    ensures t in Tags(cs) <==> exists i :: 0 <= i < |cs| && cs[i].tag == t
    ensures t in Tags(cs) ==> Tags(cs)[t] == ValuesOf(cs, t) && |Tags(cs)[t]| > 0
    ensures t !in Tags(cs) ==> ValuesOf(cs, t) == []
  {
    if |cs| > 0 {
      var init := cs[..|cs| - 1];
      TagsHoldValues(init, t);
      if exists i :: 0 <= i < |init| && init[i].tag == t {
        var i :| 0 <= i < |init| && init[i].tag == t;
        assert cs[i].tag == t;
      }
      if exists i :: 0 <= i < |cs| && cs[i].tag == t {
        var i :| 0 <= i < |cs| && cs[i].tag == t;
        if i < |init| {
          assert init[i].tag == t;
        }
      }
    }
  }

  /** The number of values over the names in `keys`. */
  ghost function ValueCount(m: map<seq<Byte>, seq<seq<Byte>>>, keys: set<seq<Byte>>): nat
    requires keys <= m.Keys
    decreases |keys|
  {
    if keys == {} then 0
    else
      var k :| k in keys;
      |m[k]| + ValueCount(m, keys - {k})
  }

  /** The count does not depend on the order the names are taken in. */
  lemma {:induction false} ValueCountRemove(m: map<seq<Byte>, seq<seq<Byte>>>, keys: set<seq<Byte>>, k: seq<Byte>)
    requires keys <= m.Keys && k in keys
    ensures ValueCount(m, keys) == |m[k]| + ValueCount(m, keys - {k})
    decreases |keys|
  {
    var j :| j in keys && ValueCount(m, keys) == |m[j]| + ValueCount(m, keys - {j});
    if j != k {
      ValueCountRemove(m, keys - {j}, k);
      ValueCountRemove(m, keys - {k}, j);
      assert keys - {j} - {k} == keys - {k} - {j};
    }
  }

  /** Two maps whose lists have the same lengths on `keys` count alike. */
  lemma {:induction false} ValueCountAgree(m: map<seq<Byte>, seq<seq<Byte>>>, n: map<seq<Byte>, seq<seq<Byte>>>,
                                           keys: set<seq<Byte>>)
    requires keys <= m.Keys && keys <= n.Keys
    requires forall k :: k in keys ==> |m[k]| == |n[k]|
    ensures ValueCount(m, keys) == ValueCount(n, keys)
    decreases |keys|
  {
    if keys != {} {
      var k :| k in keys && ValueCount(m, keys) == |m[k]| + ValueCount(m, keys - {k});
      ValueCountRemove(n, keys, k);
      ValueCountAgree(m, n, keys - {k});
    }
  }

  /** Every comment read adds exactly one value to the map. */
  lemma {:induction false} TagsCount(cs: seq<Comment>)
    ensures ValueCount(Tags(cs), Tags(cs).Keys) == |cs|
  {
    if |cs| > 0 {
      var init, c := cs[..|cs| - 1], cs[|cs| - 1];
      var m := Tags(init);
      var n := AddTag(m, c);
      TagsCount(init);
      ValueCountRemove(n, n.Keys, c.tag);
      ValueCountAgree(m, n, m.Keys - {c.tag});
      if c.tag in m {
        ValueCountRemove(m, m.Keys, c.tag);
        assert n.Keys - {c.tag} == m.Keys - {c.tag};
      } else {
        assert n.Keys - {c.tag} == m.Keys;
        assert m.Keys - {c.tag} == m.Keys;
      }
    }
  }
}
