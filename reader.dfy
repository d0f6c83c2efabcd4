/** What each read of the bit reader means, stated over the bits of the whole
    input `u` and the position `p` of the first bit not yet read. Every
    stateful reader method of `BitStreams.BitStream` is proved to behave as the
    function of the same name here, so properties of whole parsers can be
    proved about these functions alone. */
module Reader {
  import opened Bits

  /** The failures the decoder can raise; each names the Python exception it models. */
  datatype Error =
    | EndOfInput               // EOFError in read_uint
    | NegativeShift            // ValueError: a shift by a negative count
    | ShortField               // struct.error: too few bytes for a fixed-size unpack
    | NotFlac                  // ValueError('Bad flac file')
    | BadUtf8                  // UnicodeDecodeError from bytes.decode('utf-8')
    | BadComment               // ValueError: a comment that does not split into exactly two parts
    | UnknownPictureType       // KeyError in the picture_types lookup
    | LengthMismatch           // ValueError: payload length differs from the declared length
    | MissingField             // AttributeError: the first block is not a StreamInfo block
    | InvalidSync              // ValueError('Invalid sync code')
    | UnboundBlockSize         // UnboundLocalError: block size code 0
    | InvalidChannelAssignment // ValueError('Invalid chanel assigment')
    | UnsupportedSubframe      // ValueError('This subframe type not implemented yet')
    | InvalidCodingMethod      // ValueError('Invalid coding method')
    | PartitionMismatch        // ValueError: block size not divisible by the partition count
    | BlockLength              // AssertionError: a channel's length differs from the block size
    | PackOverflow             // struct.error: a value does not fit its packed width

  datatype Result<+T> = Ok(value: T) | Err(error: Error) {
    predicate IsFailure() {
      Err?
    }

    function PropagateFailure<U>(): Result<U>
      requires Err?
    {
      Err(error)
    }

    function Extract(): T
      requires Ok?
    {
      value
    }
  }

  /** A value read and the position right after it. */
  datatype Read<+T> = Read(value: T, next: nat)

  /** `read_uint(n)`: the next `n` bits, most significant first. */
  function TakeUint(u: BitString, p: nat, n: nat): (r: Result<Read<nat>>)
    ensures r.Ok? <==> p + n <= |u|
    ensures r.Err? ==> r.error == EndOfInput
    ensures r.Ok? ==> r.value.next == p + n
  {
    if p + n <= |u| then Ok(Read(BitsValue(u[p..p + n]), p + n)) else Err(EndOfInput)
  }

  /** The `n`-bit field at offset `a` from position `p`, as a fixed layout
      states it; for `a == 0` it is the value `TakeUint(u, p, n)` reads. */
  function Field(u: BitString, p: nat, a: nat, n: nat): (v: nat)
    requires p + a + n <= |u|
  {
    BitsValue(u[p + a..p + a + n])
  }

  /** An `n`-bit read is below `2^n`. */
  lemma TakeUintBound(u: BitString, p: nat, n: nat)
    requires p + n <= |u|
    ensures TakeUint(u, p, n).value.value < Pow2(n)
  {
    BitsValueBound(u[p..p + n]);
  }

  /** Reading `a` bits and then `b` bits gives the high and the low part of a
      single read of `a + b` bits, and stops at the same place. */
  lemma SplitRead(u: BitString, p: nat, a: nat, b: nat)
    requires p + a + b <= |u|
    ensures TakeUint(u, p + a, b).Ok?
    ensures TakeUint(u, p, a + b).value.value
         == TakeUint(u, p, a).value.value * Pow2(b) + TakeUint(u, p + a, b).value.value
    ensures TakeUint(u, p, a + b).value.next == TakeUint(u, p + a, b).value.next
  {
    assert u[p..p + a + b] == u[p..p + a] + u[p + a..p + a + b];
    BitsValueConcat(u[p..p + a], u[p + a..p + a + b]);
  }

  /** `read_sint(n)`: the unsigned value minus `(v >> (n - 1)) << n`. A width of zero
      or less makes Python shift by a negative count. */
  function TakeSint(u: BitString, p: nat, n: int): (r: Result<Read<int>>)
    ensures r.Err? <==> n <= 0 || p + n > |u|
    ensures r.Err? ==> r.error == (if n <= 0 then NegativeShift else EndOfInput)
    ensures r.Ok? ==> r.value.next == p + n
  {
    if n <= 0 then Err(NegativeShift)
    else
      var x :- TakeUint(u, p, n);
      Ok(Read(Signed(x.value, n), x.next))
  }

  /** Two's complement of an `n`-bit value: less `2^n` when the top bit is set. */
  function Signed(v: nat, n: nat): (x: int)
    requires n >= 1
  {
    if v < Pow2(n - 1) then v else v - Pow2(n)
  }

  /** The signed value lies in `-2^(n-1) .. 2^(n-1) - 1`, and on an `n`-bit
      value it is `res - (res >> (n - 1) << n)`, the expression `read_sint`
      computes. */
  lemma SintRange(v: nat, n: nat)
    requires n >= 1 && v < Pow2(n)
    ensures -(Pow2(n - 1) as int) <= Signed(v, n) < Pow2(n - 1)
    ensures Signed(v, n) == v - (v / Pow2(n - 1)) * Pow2(n)
  {
    var h := Pow2(n - 1);
    assert Pow2(n) == 2 * h;
    if v < h {
      DivModUnique(v, h, 0, v);
    } else {
      DivModUnique(v, h, 1, v - h);
    }
  }

  /** `_clear_buffer()`: drop the bits left over from a partly read byte. The
      input ends on a byte boundary, so these are the `(|u| - p) % 8` bits
      that keep the bits after them a whole number of bytes. */
  function Align(u: BitString, p: nat): (a: nat)
    requires p <= |u|
    ensures p <= a <= |u| && a - p < 8 && (|u| - a) % 8 == 0
  {
    p + (|u| - p) % 8
  }

  /** On an input of whole bytes, aligning moves to the next byte boundary. */
  lemma AlignBytes(u: BitString, p: nat)
    requires p <= |u| && |u| % 8 == 0
    ensures Align(u, p) % 8 == 0
    ensures p % 8 == 0 ==> Align(u, p) == p
  {
  }

  /** Aligning twice is aligning once. */
  lemma AlignIdempotent(u: BitString, p: nat)
    requires p <= |u|
    ensures Align(u, Align(u, p)) == Align(u, p)
  {
  }

  /** `read_bytes(n)`: align, then take up to `n` whole bytes; at the end of the
      input fewer bytes come back, as a Python file's `read(n)` does. */
  function TakeBytes(u: BitString, p: nat, n: nat): (r: Read<seq<Byte>>)
    requires p <= |u|
    ensures |r.value| == Min(n, (|u| - Align(u, p)) / 8)
    ensures r.next == Align(u, p) + 8 * |r.value| <= |u|
  {
    var a := Align(u, p);
    var k := Min(n, (|u| - a) / 8);
    Read(BitsToBytes(u[a..a + 8 * k]), a + 8 * k)
  }

  /** Reading `n` bytes at a position `p` that is already aligned ends at `e`. */
  lemma TakeBytesAt(u: BitString, p: nat, n: nat, e: nat)
    requires p <= e <= |u| && (|u| - p) % 8 == 0 && e - p == 8 * Min(n, (|u| - p) / 8)
    ensures TakeBytes(u, p, n) == Read(BitsToBytes(u[p..e]), e)
  {
    assert Align(u, p) == p;
  }

  /** Reading `n` bytes at byte `i` of an input of whole bytes gives bytes `i`
      up to `j`: the next `n`, or what is left if that is less. */
  lemma TakeBytesOfBytes(d: seq<Byte>, i: nat, n: nat, j: nat)
    requires i <= j <= |d| && j - i == Min(n, |d| - i)
    ensures TakeBytes(BytesBits(d), 8 * i, n) == Read(d[i..j], 8 * j)
  {
    TakeWholeBytes(BytesBits(d), |d|, i, n, j);
    BytesAt(d, i, j);
  }

  /** On an input of `m` whole bytes, reading `n` bytes at byte `i` takes the
      bits of bytes `i` up to `j`. */
  lemma TakeWholeBytes(u: BitString, m: nat, i: nat, n: nat, j: nat)
    requires |u| == 8 * m && i <= j <= m && j - i == Min(n, m - i)
    ensures TakeBytes(u, 8 * i, n) == Read(BitsToBytes(u[8 * i..8 * j]), 8 * j)
  {
    DivModUnique(|u| - 8 * i, 8, m - i, 0);
    TakeBytesAt(u, 8 * i, n, 8 * j);
  }

  /** A stretch of `d` that holds `a` then `b` holds each of them in turn. */
  lemma SplitStretch(d: seq<Byte>, i: nat, j: nat, k: nat, a: seq<Byte>, b: seq<Byte>)
    requires j == i + |a| && k == j + |b| && k <= |d| && d[i..k] == a + b
    ensures d[i..j] == a && d[j..k] == b
  {
    assert d[i..j] == d[i..k][..|a|];
    assert d[j..k] == d[i..k][|a|..];
  }

  /** `read_bytes(n)` from byte `j`, on input that is already byte aligned. */
  function BytesFrom(u: BitString, j: nat, n: nat): Read<seq<Byte>>
    requires 8 * j <= |u|
  {
    TakeBytes(u, 8 * j, n)
  }

  /** `u` is the bits of the bytes `d`, as far as reading whole bytes can
      tell: every run of bytes of `d` is what `read_bytes` gives there. */
  ghost predicate ByteView(u: BitString, d: seq<Byte>)
  {
    |u| == 8 * |d|
    && forall j: nat, n: nat {:trigger BytesFrom(u, j, n)} :: j + n <= |d| ==> BytesFrom(u, j, n) == Read(d[j..j + n], 8 * (j + n))
  }

  /** The bits of a byte sequence are a view of it. */
  lemma BytesView(d: seq<Byte>)
    ensures ByteView(BytesBits(d), d)
  {
    forall j: nat, n: nat | j + n <= |d|
      ensures BytesFrom(BytesBits(d), j, n) == Read(d[j..j + n], 8 * (j + n))
    {
      TakeBytesOfBytes(d, j, n, j + n);
    }
  }

  /** `read_bytes(n)` reads back the `n` bytes held from byte `j` to byte `k`. */
  lemma StoredBytesAt(u: BitString, d: seq<Byte>, j: nat, k: nat, t: seq<Byte>)
    requires ByteView(u, d) && k == j + |t| && k <= |d| && d[j..k] == t
    ensures TakeBytes(u, 8 * j, |t|) == Read(t, 8 * k)
  {
    assert BytesFrom(u, j, |t|) == Read(d[j..j + |t|], 8 * (j + |t|));
  }

  /** `read_uint(32)` from byte `j`, on input that is already byte aligned. */
  function WordFrom(u: BitString, j: nat): Result<Read<nat>>
  {
    TakeUint(u, 8 * j, 32)
  }

  /** `u` is the bits of the bytes `d` as far as 32-bit reads at whole bytes
      can tell: each is the big-endian value of the four bytes there. */
  ghost predicate WordView(u: BitString, d: seq<Byte>)
  {
    forall j: nat {:trigger WordFrom(u, j)} :: j + 4 <= |d| ==> WordFrom(u, j) == Ok(Read(BigEndian(d[j..j + 4]), 8 * (j + 4)))
  }

  /** The bits of a byte sequence are a word view of it. */
  lemma WordsView(d: seq<Byte>)
    ensures WordView(BytesBits(d), d)
  {
    forall j: nat | j + 4 <= |d|
      ensures WordFrom(BytesBits(d), j) == Ok(Read(BigEndian(d[j..j + 4]), 8 * (j + 4)))
    {
      BytesBitsSlice(d, j, j + 4);
      BitsValueOfBytes(d[j..j + 4]);
    }
  }

  /** `read_byte()`: align, then one byte, or -1 at the end of the input. */
  function TakeByteOrEnd(u: BitString, p: nat): (r: Read<int>)
    requires p <= |u|
    ensures -1 <= r.value < 256
    ensures r.value == -1 <==> Align(u, p) == |u|
    ensures r.next == if r.value == -1 then Align(u, p) else Align(u, p) + 8
  {
    var a := Align(u, p);
    if a == |u| then Read(-1, a)
    else
      BitsValueBound(u[a..a + 8]);
      assert Pow2(8) == 256;
      Read(BitsValue(u[a..a + 8]) as int, a + 8)
  }

  /** A byte read ignores a partly read byte, so reading at an aligned position
      is the same read. */
  lemma AlignedReads(u: BitString, p: nat, n: nat)
    requires p <= |u|
    ensures TakeBytes(u, Align(u, p), n) == TakeBytes(u, p, n)
    ensures TakeByteOrEnd(u, Align(u, p)) == TakeByteOrEnd(u, p)
  {
    AlignIdempotent(u, p);
  }

  /** Zigzag decoding of a folded Rice value: even values are non-negative. */
  function ZigZag(v: nat): (x: int)
    ensures v % 2 == 0 ==> x >= 0 && v == 2 * x
    ensures v % 2 == 1 ==> x < 0 && v == -2 * x - 1
  {
    if v % 2 == 0 then v / 2 else -(v / 2) - 1
  }

  /** `read_rice_int(k)`: a unary quotient (zero bits ended by a one bit), `k`
      remainder bits, folded as `(q << k) | r` and zigzag decoded. */
  function TakeRice(u: BitString, p: nat, k: nat): (r: Result<Read<int>>)
    requires p <= |u|
    ensures r.Err? ==> r.error == EndOfInput
    ensures r.Ok? <==> p + LeadingZeros(u, p) + 1 + k <= |u|
    ensures r.Ok? ==> r.value.next == p + LeadingZeros(u, p) + 1 + k
  {
    var q := LeadingZeros(u, p);
    if p + q == |u| then Err(EndOfInput)
    else
      var rem :- TakeUint(u, p + q + 1, k);
      Ok(Read(ZigZag(Fold(q, k, rem.value)), rem.next))
  }

  /** `(q << k) | rem`: the remainder is below 2^k, so the `|` is a sum. */
  function Fold(q: nat, k: nat, rem: nat): (v: nat)
  {
    ShiftLeft(q, k) + rem
  }

  /** With the remainder below `2^k`, the quotient and the remainder come back
      out of the folded value. */
  lemma FoldParts(q: nat, k: nat, rem: nat)
    requires rem < Pow2(k)
    ensures Fold(q, k, rem) / Pow2(k) == q && Fold(q, k, rem) % Pow2(k) == rem
  {
    ShiftLeftMul(q, k);
    DivModUnique(Fold(q, k, rem), Pow2(k), q, rem);
  }

  /** Zigzag encoding, the inverse of `ZigZag`: `x >= 0` becomes `2x` and a
      negative `x` becomes `-2x - 1`. */
  function UnZigZag(x: int): (v: nat)
    ensures ZigZag(v) == x
  {
    if x >= 0 then 2 * x else -2 * x - 1
  }

  /** Zigzag decoding and encoding undo each other both ways. */
  lemma ZigZagBijection(x: int, v: nat)
    ensures ZigZag(UnZigZag(x)) == x
    ensures UnZigZag(ZigZag(v)) == v
  {
  }

  /** `n` zero bits. */
  function Zeros(n: nat): (b: BitString)
    ensures |b| == n && forall i :: 0 <= i < n ==> !b[i]
  {
    if n == 0 then [] else [false] + Zeros(n - 1)
  }

  /** The Rice code of `x` with parameter `k` (RFC 9639, section 9.2.7.1):
      the zigzag value's quotient by 2^k in unary (that many zero bits, then a
      one bit), then its remainder in `k` bits. */
  function RiceCode(x: int, k: nat): (b: BitString)
    ensures |b| == UnZigZag(x) / Pow2(k) + 1 + k
  {
    var v := UnZigZag(x);
    Zeros(v / Pow2(k)) + [true] + NatToBits(v % Pow2(k), k)
  }

  /** `read_uint(|t|)` just after `a` reads the value of the bits `t`. */
  lemma TakeUintOfMiddle(a: BitString, t: BitString, rest: BitString)
    ensures TakeUint(a + t + rest, |a|, |t|) == Ok(Read(BitsValue(t), |a| + |t|))
  {
    assert (a + t + rest)[|a|..|a| + |t|] == t;
  }

  /** `q` zero bits and a one bit, after any bits and before any bits, are
      a leading run of exactly `q` zeros. */
  lemma OneAfterZeros(pre: BitString, q: nat, t: BitString, rest: BitString)
    ensures LeadingZeros(pre + Zeros(q) + [true] + t + rest, |pre|) == q
  {
    var z := pre + Zeros(q);
    var u, p := z + [true] + t + rest, |pre|;
    forall i | p <= i < p + q
      ensures !u[i]
    {
      assert u[i] == z[i] == Zeros(q)[i - p];
    }
    assert u[p + q] == (z + [true])[p + q];
    LeadingZerosAt(u, p, q);
  }

  /** `read_rice_int(k)` in terms of the quotient it counts and the
      remainder it reads. */
  lemma RiceFromFields(u: BitString, p: nat, k: nat, q: nat, rem: nat)
    requires p + q < |u| && LeadingZeros(u, p) == q
    requires TakeUint(u, p + q + 1, k) == Ok(Read(rem, p + q + 1 + k))
    ensures TakeRice(u, p, k) == Ok(Read(ZigZag(Fold(q, k, rem)), p + q + 1 + k))
  {
  }

  /** The fields of a Rice code `q` zeros, a one bit and the bits `t`,
      between any bits before and after. */
  lemma RiceFieldsOfParts(pre: BitString, q: nat, t: BitString, rest: BitString)
    ensures var u := pre + Zeros(q) + [true] + t + rest;
      |pre| + q < |u| && LeadingZeros(u, |pre|) == q
      && TakeUint(u, |pre| + q + 1, |t|) == Ok(Read(BitsValue(t), |pre| + q + 1 + |t|))
  {
    OneAfterZeros(pre, q, t, rest);
    TakeUintOfMiddle(pre + Zeros(q) + [true], t, rest);
  }

  /** The quotient and the remainder by `2^k` fold back into the value. */
  lemma FoldDivMod(v: nat, k: nat, q: nat, rem: nat)
    requires q == v / Pow2(k) && rem == v % Pow2(k)
    ensures Fold(q, k, rem) == v
  {
    ShiftLeftMul(q, k);
  }

  /** The Rice code of `x` is its quotient run, a one bit and its remainder bits. */
  lemma RiceCodeParts(pre: BitString, x: int, k: nat, rest: BitString)
    ensures var v := UnZigZag(x);
      pre + RiceCode(x, k) + rest
      == pre + Zeros(v / Pow2(k)) + [true] + NatToBits(v % Pow2(k), k) + rest
  {
  }

  /** `read_rice_int(k)` decodes the Rice code of any integer back to it,
      whatever comes before and after, and stops right after the code. */
  lemma RiceRoundTrip(pre: BitString, x: int, k: nat, rest: BitString)
    ensures TakeRice(pre + RiceCode(x, k) + rest, |pre|, k) == Ok(Read(x, |pre| + |RiceCode(x, k)|))
  {
    var v := UnZigZag(x);
    var q, rem := v / Pow2(k), v % Pow2(k);
    var t := NatToBits(rem, k);
    RiceCodeParts(pre, x, k, rest);
    RiceFieldsOfParts(pre, q, t, rest);
    NatToBitsValue(rem, k);
    RiceFromFields(pre + Zeros(q) + [true] + t + rest, |pre|, k, q, rem);
    FoldDivMod(v, k, q, rem);
  }

  /** Conversely, every Rice code `read_rice_int(k)` accepts is exactly the
      code of the integer it returns. */
  lemma RiceCodeOfDecode(u: BitString, p: nat, k: nat)
    requires p <= |u| && TakeRice(u, p, k).Ok?
    ensures var r := TakeRice(u, p, k).value; u[p..r.next] == RiceCode(r.value, k)
  {
    var q := LeadingZeros(u, p);
    var bits := u[p + q + 1..p + q + 1 + k];
    BitsValueBound(bits);
    RiceCodeOfFold(q, k, BitsValue(bits));
    BitsValueNatToBits(bits);
    LeadingZerosMeaning(u, p);
    RunOfZeros(u, p, q, k);
  }

  /** The value folded from a quotient and a remainder has as its Rice code
      that quotient in unary and that remainder in `k` bits. */
  lemma RiceCodeOfFold(q: nat, k: nat, rem: nat)
    requires rem < Pow2(k)
    ensures RiceCode(ZigZag(Fold(q, k, rem)), k) == Zeros(q) + [true] + NatToBits(rem, k)
  {
    FoldParts(q, k, rem);
    assert UnZigZag(ZigZag(Fold(q, k, rem))) == Fold(q, k, rem);
  }

  /** `q` zero bits from `p`, then a one bit, then `k` more bits. */
  lemma RunOfZeros(u: BitString, p: nat, q: nat, k: nat)
    requires p + q + 1 + k <= |u| && u[p + q]
    requires forall i :: p <= i < p + q ==> !u[i]
    ensures u[p..p + q + 1 + k] == Zeros(q) + [true] + u[p + q + 1..p + q + 1 + k]
  {
    var c := Zeros(q) + [true] + u[p + q + 1..p + q + 1 + k];
    forall i | 0 <= i < q + 1 + k
      ensures u[p + i] == c[i]
    {
      if i < q {
        assert c[i] == Zeros(q)[i];
      }
    }
  }

  /** `[read_sint(width) for _ in range(count)]` */
  function TakeSints(u: BitString, p: nat, count: nat, width: int): (r: Result<Read<seq<int>>>)
    ensures r.Ok? ==> |r.value.value| == count && p <= r.value.next
    ensures r.Ok? && count > 0 ==> r.value.next <= |u|
    decreases count
  {
    if count == 0 then Ok(Read([], p))
    else
      match TakeSint(u, p, width)
      case Err(e) => Err(e)
      case Ok(x) => Prepend([x.value], TakeSints(u, x.next, count - 1, width))
  }

  /** `[read_rice_int(k) for _ in range(count)]` */
  function TakeRices(u: BitString, p: nat, count: nat, k: nat): (r: Result<Read<seq<int>>>)
    requires p <= |u|
    ensures r.Ok? ==> |r.value.value| == count && p <= r.value.next <= |u|
    decreases count
  {
    if count == 0 then Ok(Read([], p))
    else
      match TakeRice(u, p, k)
      case Err(e) => Err(e)
      case Ok(x) => Prepend([x.value], TakeRices(u, x.next, count - 1, k))
  }

  /** `unpack('<I', read_bytes(4))[0]`: fails when fewer than four bytes remain. */
  function TakeLittleEndian32(u: BitString, p: nat): (r: Result<Read<nat>>)
    requires p <= |u|
    ensures r.Ok? <==> Align(u, p) + 32 <= |u|
    ensures r.Err? ==> r.error == ShortField
    ensures r.Ok? ==> r.value.next == Align(u, p) + 32
  {
    var b := TakeBytes(u, p, 4);
    if |b.value| < 4 then Err(ShortField) else Ok(Read(LittleEndian(b.value), b.next))
  }

  /** The items read so far, put in front of what the remaining reads give. */
  function Prepend<T>(done: seq<T>, r: Result<Read<seq<T>>>): Result<Read<seq<T>>>
  {
    match r
    case Ok(t) => Ok(Read(done + t.value, t.next))
    case Err(e) => Err(e)
  }

  /** Putting nothing in front changes nothing. */
  lemma PrependNothing<T>(r: Result<Read<seq<T>>>)
    ensures Prepend([], r) == r
  {
    if r.Ok? {
      assert [] + r.value.value == r.value.value;
    }
  }

  /** Putting `b` in front, then `a`, is putting `a + b` in front. */
  lemma PrependPrepend<T>(a: seq<T>, b: seq<T>, r: Result<Read<seq<T>>>)
    ensures Prepend(a, Prepend(b, r)) == Prepend(a + b, r)
  {
    if r.Ok? {
      assert a + (b + r.value.value) == (a + b) + r.value.value;
    }
  }
}
