/** What `bytes.decode('utf-8')` accepts. Decoded text is kept as its UTF-8
    bytes: a strict decoder is injective on the sequences it accepts, so two
    texts are equal exactly when their bytes are. */
module Utf8 {
  import opened Bits

  predicate IsContinuation(b: Byte)
  {
    0x80 <= b <= 0xBF
  }

  /** The range allowed for the second byte of a sequence that starts with
      `lead`: the bounds that rule out overlong forms, surrogates and code
      points above U+10FFFF (Unicode Standard, table 3-7). */
  function SecondLow(lead: Byte): Byte
  {
    if lead == 0xE0 then 0xA0 else if lead == 0xF0 then 0x90 else 0x80
  }

  function SecondHigh(lead: Byte): Byte
  {
    if lead == 0xED then 0x9F else if lead == 0xF4 then 0x8F else 0xBF
  }

  /** The length of the well-formed character that starts `s`, or 0 when `s`
      does not start with one. */
  function CharLength(s: seq<Byte>): (n: nat)
    ensures n <= 4 && n <= |s|
    ensures n > 0 ==> (n == 1 <==> s[0] < 0x80)
    ensures forall i :: 1 <= i < n ==> s[i] >= 0x80
  {
    if |s| == 0 then 0
    else if s[0] < 0x80 then 1
    else if |s| < 2 || !(SecondLow(s[0]) <= s[1] <= SecondHigh(s[0])) then 0
    else if 0xC2 <= s[0] <= 0xDF then 2
    else if 0xE0 <= s[0] <= 0xEF then (if |s| >= 3 && IsContinuation(s[2]) then 3 else 0)
    else if 0xF0 <= s[0] <= 0xF4 then
      (if |s| >= 4 && IsContinuation(s[2]) && IsContinuation(s[3]) then 4 else 0)
    else 0
  }

  /** `s` is a sequence of well-formed characters. */
  predicate ValidUtf8(s: seq<Byte>)
    decreases |s|
  {
    |s| == 0 || (CharLength(s) > 0 && ValidUtf8(s[CharLength(s)..]))
  }

  /** A character is recognised from its own bytes, whatever follows it. */
  lemma CharLengthPrefix(s: seq<Byte>, m: nat)
    requires 0 < CharLength(s) <= m <= |s|
    ensures CharLength(s[..m]) == CharLength(s)
  {
    var t := s[..m];
    assert t[0] == s[0];
    assert 2 <= m ==> t[1] == s[1];
    assert 3 <= m ==> t[2] == s[2];
    assert 4 <= m ==> t[3] == s[3];
  }

  lemma CharLengthExtend(a: seq<Byte>, b: seq<Byte>)
    requires CharLength(a) > 0
    ensures CharLength(a + b) == CharLength(a)
  {
    CharLengthPrefix(a + b, |a|);
    assert (a + b)[..|a|] == a;
  }

  /** Text made of ASCII bytes only is valid. */
  lemma {:induction false} AsciiValid(s: seq<Byte>)
    requires forall i :: 0 <= i < |s| ==> s[i] < 0x80
    ensures ValidUtf8(s)
  {
    if |s| > 0 {
      AsciiValid(s[1..]);
    }
  }

  /** Concatenating valid text gives valid text. */
  lemma {:induction false} ConcatValid(a: seq<Byte>, b: seq<Byte>)
    requires ValidUtf8(a) && ValidUtf8(b)
    ensures ValidUtf8(a + b)
  {
    if |a| == 0 {
      assert a + b == b;
    } else {
      var n := CharLength(a);
      assert ValidUtf8(a[n..]);
      assert (a + b)[n..] == a[n..] + b;
      ConcatValid(a[n..], b);
      assert CharLength(a + b) == n by {
        CharLengthExtend(a, b);
      }
    }
  }

  /** An ASCII byte inside valid text is a whole character: the text before
      it and the text after it are valid on their own. Multi-byte characters
      consist of bytes from 0x80 up only. */
  lemma {:induction false} AsciiSplits(s: seq<Byte>, i: nat)
    requires ValidUtf8(s) && i < |s| && s[i] < 0x80
    ensures ValidUtf8(s[..i]) && ValidUtf8(s[i + 1..])
    decreases |s|
  {
    var n := CharLength(s);
    if i < n {
      assert i == 0 && n == 1;
      assert s[..0] == [];
    } else {
      var t := s[n..];
      AsciiSplits(t, i - n);
      assert t[i - n + 1..] == s[i + 1..];
      CharLengthPrefix(s, i);
      assert s[..i][n..] == t[..i - n];
    }
  }
}
