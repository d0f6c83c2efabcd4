/** The APPLICATION block (RFC 9639, section 8.4): a four-byte application
    identifier, then data whose meaning is up to that application. */
module ApplicationBlock {
  import opened Bits
  import opened Reader
  import opened Utf8

  /** `id` is kept as its UTF-8 bytes; `payload` is the rest of the body. */
  datatype Application = Application(id: seq<Byte>, payload: seq<Byte>)

  /** `Application.__init__(length, is_last, data)`: the declared length must
      be the length of `data` and not negative; `data[:4]` must decode as
      UTF-8 (it is shorter than four bytes when `data` is). */
  function ParseApplication(length: int, data: seq<Byte>): (r: Result<Application>)
    ensures r.Err? <==> length < 0 || |data| != length || !ValidUtf8(data[..Min(4, |data|)])
    ensures r.Err? ==> r.error == if length < 0 || |data| != length then LengthMismatch else BadUtf8
    ensures r.Ok? ==> |r.value.id| == Min(4, |data|) && r.value.id + r.value.payload == data
  {
    if |data| != length || length < 0 then Err(LengthMismatch)
    else
      var k := Min(4, |data|);
      if !ValidUtf8(data[..k]) then Err(BadUtf8)
      else
        assert data[..k] + data[k..] == data;
        Ok(Application(data[..k], data[k..]))
  }

  /** The inverse direction: a valid four-byte identifier followed by any payload
      parses back into exactly that identifier and payload. */
  lemma ApplicationOfParts(id: seq<Byte>, payload: seq<Byte>)
    requires |id| == 4 && ValidUtf8(id)
    ensures ParseApplication(|id + payload|, id + payload) == Ok(Application(id, payload))
  {
    var data := id + payload;
    assert data[..4] == id;
    assert data[4..] == payload;
  }

  /** The identifier `SONY` and the payload `applicationdata`. */
  lemma SonyApplication()
    ensures var id: seq<Byte> := [0x53, 0x4F, 0x4E, 0x59];
            var payload: seq<Byte> := [0x61, 0x70, 0x70, 0x6C, 0x69, 0x63, 0x61, 0x74, 0x69, 0x6F, 0x6E,
                                       0x64, 0x61, 0x74, 0x61];
      ParseApplication(19, id + payload) == Ok(Application(id, payload))
  {
    var id: seq<Byte> := [0x53, 0x4F, 0x4E, 0x59];
    var payload: seq<Byte> := [0x61, 0x70, 0x70, 0x6C, 0x69, 0x63, 0x61, 0x74, 0x69, 0x6F, 0x6E,
                               0x64, 0x61, 0x74, 0x61];
    AsciiValid(id);
    ApplicationOfParts(id, payload);
  }
}
