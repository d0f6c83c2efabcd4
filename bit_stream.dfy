/** The bit reader: a byte source with a position, plus an accumulator of the
    bits already pulled from the source but not yet handed out. */
module BitStreams {
  import opened Bits
  import opened Reader

  class BitStream {
    /** The whole byte source; reads never go back, so it is fixed. */
    const data: seq<Byte>
    /** The bits of the whole source, the `u` of the reader functions. */
    ghost const bits: BitString
    /** The number of bytes pulled from the source so far. */
    var pos: nat
    /** `_bitbuffer`: the buffered bits not yet handed out. */
    var buf: nat
    /** `_bitbufferlen`: how many bits `buf` holds. */
    var bufLen: nat

    /** The accumulator holds the last `bufLen` bits of the bytes pulled so far. */
    ghost predicate Consistent()
      reads this
    {
      && pos <= |data| && bufLen <= 8 * pos && bits == BytesBits(data)
      && buf == BitsValue(bits[8 * pos - bufLen..8 * pos])
    }

    /** Between reads the accumulator holds less than one byte. */
    ghost predicate Valid()
      reads this
    {
      Consistent() && bufLen < 8
    }

    /** The position of the first bit not yet handed out. */
    ghost function Consumed(): (c: nat)
      reads this
      requires Consistent()
      ensures c <= |bits|
    {
      8 * pos - bufLen
    }

    /** The method's result and new position are what the reader function `spec` gives. */
    ghost predicate Yields<T>(r: Result<T>, spec: Result<Read<T>>)
      reads this
    {
      match spec
      case Ok(p) => r == Ok(p.value) && Valid() && Consumed() == p.next
      case Err(e) => r == Err(e) && Consistent()
    }

    constructor (source: seq<Byte>)
      ensures data == source && bits == BytesBits(source)
      ensures Valid() && Consumed() == 0 && pos == 0 && buf == 0 && bufLen == 0
    {
      data := source;
      bits := BytesBits(source);
      pos, buf, bufLen := 0, 0, 0;
    }

    /** `read_uint(n)`: pull bytes until `n` bits are buffered, then hand out the
        top `n` of them. This is `TakeUint(bits, old(Consumed()), n)`, written out. */
    method ReadUint(n: nat) returns (r: Result<nat>)
      requires Valid()
      modifies this
      ensures Consistent()
      ensures old(Consumed()) + n <= |bits| ==>
        r == Ok(BitsValue(bits[old(Consumed())..old(Consumed()) + n])) && Valid() && Consumed() == old(Consumed()) + n
      ensures old(Consumed()) + n > |bits| ==> r == Err(EndOfInput)
    {
      var filled := Fill(n);
      if !filled {
        return Err(EndOfInput);
      }
      var v := Drain(n);
      r := Ok(v);
    }

    /** The `while` loop of `read_uint`: pull bytes until `n` bits are buffered. */
    method Fill(n: nat) returns (filled: bool)
      requires Valid()
      modifies this
      ensures Consistent() && Consumed() == old(Consumed())
      ensures filled <==> old(Consumed()) + n <= |bits|
      ensures filled ==> n <= bufLen < n + 8
    {
      filled := true;
      while bufLen < n
        invariant Consistent() && Consumed() == old(Consumed())
        invariant bufLen < n + 8
        decreases |data| - pos
      {
        if pos == |data| {
          filled := false;
          break;
        }
        ghost var c := 8 * pos - bufLen;
        PullByte(bits, data, pos, c);
        buf, bufLen, pos := buf * 256 + data[pos], bufLen + 8, pos + 1;
        assert 8 * pos - bufLen == c;
      }
    }

    /** The tail of `read_uint`: hand out the top `n` of the buffered bits. */
    method Drain(n: nat) returns (v: nat)
      requires Consistent() && n <= bufLen < n + 8
      modifies this
      ensures Valid() && pos == old(pos)
      ensures v == BitsValue(bits[old(Consumed())..old(Consumed()) + n])
      ensures Consumed() == old(Consumed()) + n
    {
      ghost var c := 8 * pos - bufLen;
      var below := Pow2(bufLen - n);
      TakeBuffered(bits, c, 8 * pos, n, buf, below);
      v := (buf / below) % Pow2(n);
      buf, bufLen := buf % below, bufLen - n;
      assert 8 * pos - bufLen == c + n;
    }

    /** `read_sint(n)`: two's complement of the next `n` bits. */
    method ReadSint(n: int) returns (r: Result<int>)
      requires Valid()
      modifies this
      ensures Yields(r, TakeSint(bits, old(Consumed()), n))
    {
      if n <= 0 {
        // read_uint(n) consumes nothing here; the shift by n - 1 < 0 then raises
        return Err(NegativeShift);
      }
      ghost var c := Consumed();
      var v :- ReadUint(n);
      TakeUintBound(bits, c, n);
      SintRange(v, n);
      r := Ok(v - (v / Pow2(n - 1)) * Pow2(n));
    }

    /** `_clear_buffer()`: forget the buffered bits. */
    method ClearBuffer()
      requires Valid()
      modifies this
      ensures Valid() && buf == 0 && bufLen == 0 && pos == old(pos)
      ensures Consumed() == Align(bits, old(Consumed()))
    {
      DivModUnique(|bits| - (8 * pos - bufLen), 8, |data| - pos, bufLen);
      buf, bufLen := 0, 0;
    }

    /** `read_bytes(n)`: align, then up to `n` bytes straight from the source. */
    method ReadBytes(n: nat) returns (b: seq<Byte>)
      requires Valid()
      modifies this
      ensures Valid() && bufLen == 0
      ensures b == TakeBytes(bits, old(Consumed()), n).value
      ensures Consumed() == TakeBytes(bits, old(Consumed()), n).next
    {
      ClearBuffer();
      var k := Min(n, |data| - pos);
      BytesAt(data, pos, pos + k);
      b := data[pos..pos + k];
      pos := pos + k;
    }

    /** `read_byte()`: the next whole byte, or -1 at the end of the input. The
        source's branch for a buffer holding eight or more bits cannot be taken,
        since `Valid()` keeps fewer than eight bits buffered. */
    method ReadByte() returns (b: int)
      requires Valid()
      modifies this
      ensures Valid() && buf == 0 && bufLen == 0
      ensures b == TakeByteOrEnd(bits, old(Consumed())).value
      ensures Consumed() == TakeByteOrEnd(bits, old(Consumed())).next
    {
      ClearBuffer();
      if pos == |data| {
        b := -1;
      } else {
        ByteAt(data, pos);
        b := data[pos];
        pos := pos + 1;
      }
    }

    /** `read_rice_int(k)`: count zero bits up to a one bit, read `k` remainder
        bits, fold and zigzag decode. */
    method ReadRiceInt(k: nat) returns (r: Result<int>)
      requires Valid()
      modifies this
      ensures Yields(r, TakeRice(bits, old(Consumed()), k))
    {
      ghost var c := Consumed();
      var q :- ReadUnary();
      RiceAt(bits, c, q, k);
      var rem :- ReadUint(k);
      r := Ok(ZigZag(Fold(q, k, rem)));
    }

    /** The unary quotient of a Rice code: zero bits read one at a time up to
        and including the first one bit. */
    method ReadUnary() returns (r: Result<nat>)
      requires Valid()
      modifies this
      ensures r.Ok? <==> old(Consumed()) + LeadingZeros(bits, old(Consumed())) < |bits|
      ensures r.Ok? ==> Valid() && r.value == LeadingZeros(bits, old(Consumed()))
                        && Consumed() == old(Consumed()) + r.value + 1
      ensures r.Err? ==> r.error == EndOfInput && Consistent()
    {
      ghost var c := Consumed();
      var q: nat := 0;
      while true
        invariant Valid() && c + q <= |bits| && Consumed() == c + q
        invariant forall i :: c <= i < c + q ==> !bits[i]
        decreases |bits| - Consumed()
      {
        var bit := ReadUint(1);
        if bit.Err? {
          LeadingZerosAt(bits, c, q);
          return Err(EndOfInput);
        }
        if bit.value == 1 {
          assert bits[c + q] by { assert BitsValue(bits[c + q..c + q + 1]) == 1; }
          break;
        }
        assert !bits[c + q] by { assert BitsValue(bits[c + q..c + q + 1]) == 0; }
        q := q + 1;
      }
      LeadingZerosAt(bits, c, q);
      r := Ok(q);
    }
  }

  /** Pulling byte `pos` into the accumulator appends its eight bits to the
      buffered ones. */
  lemma PullByte(bits: BitString, data: seq<Byte>, pos: nat, c: nat)
    requires bits == BytesBits(data) && pos < |data| && c <= 8 * pos
    ensures BitsValue(bits[c..8 * (pos + 1)]) == BitsValue(bits[c..8 * pos]) * 256 + data[pos]
  {
    ByteAt(data, pos);
    AppendEight(bits, c, 8 * pos, data[pos]);
  }

  /** Eight more bits of value `b` after the bits `c .. e` multiply their value
      by 256 and add `b`. */
  lemma AppendEight(bits: BitString, c: nat, e: nat, b: nat)
    requires c <= e && e + 8 <= |bits| && BitsValue(bits[e..e + 8]) == b
    ensures BitsValue(bits[c..e + 8]) == BitsValue(bits[c..e]) * 256 + b
  {
    var hi, lo := bits[c..e], bits[e..e + 8];
    assert bits[c..e + 8] == hi + lo;
    BitsValueConcat(hi, lo);
    assert Pow2(8) == 256;
  }

  /** Handing out the top `n` of the buffered bits `c .. e`: `read_uint`'s shift
      and mask give their value, and the remainder is the value of the low ones. */
  lemma TakeBuffered(bits: BitString, c: nat, e: nat, n: nat, x: nat, below: nat)
    requires c + n <= e <= |bits| && x == BitsValue(bits[c..e]) && below == Pow2(e - c - n)
    ensures (x / below) % Pow2(n) == BitsValue(bits[c..c + n])
    ensures x % below == BitsValue(bits[c + n..e])
  {
    var hi, lo := bits[c..c + n], bits[c + n..e];
    assert bits[c..e] == hi + lo;
    SplitValue(hi, lo);
    BitsValueBound(hi);
    DivModUnique(BitsValue(hi), Pow2(n), 0, BitsValue(hi));
  }

  /** A Rice code whose unary quotient `q` ends before the end of the input. */
  lemma RiceAt(bits: BitString, c: nat, q: nat, k: nat)
    requires c + q < |bits| && q == LeadingZeros(bits, c)
    ensures TakeRice(bits, c, k)
         == if c + q + 1 + k <= |bits| then Ok(Read(ZigZag(Fold(q, k, BitsValue(bits[c + q + 1..c + q + 1 + k]))), c + q + 1 + k))
            else Err(EndOfInput)
  {
  }
}
