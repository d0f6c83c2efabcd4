/** Integer and bit-sequence arithmetic shared by every part of the decoder.
    A bit string is a `seq<bool>`, most significant bit first, which is the
    order in which FLAC stores every field (RFC 9639, section 5). */
module Bits {

  /** A byte as delivered by the byte source. */
  type Byte = b: int | 0 <= b < 256

  type BitString = seq<bool>

  function Pow2(n: nat): (r: nat)
    ensures r >= 1
  {
    if n == 0 then 1 else 2 * Pow2(n - 1)
  }

  lemma {:induction false} Pow2Add(a: nat, b: nat)
    ensures Pow2(a + b) == Pow2(a) * Pow2(b)
  {
    if b > 0 {
      Pow2Add(a, b - 1);
      assert Pow2(a + b) == 2 * Pow2(a + b - 1);
    }
  }

  lemma {:induction false} Pow2Monotone(a: nat, b: nat)
    requires a <= b
    ensures Pow2(a) <= Pow2(b)
  {
    if a < b {
      Pow2Monotone(a, b - 1);
    }
  }

  /** Division and remainder are determined by the quotient-remainder decomposition. */
  lemma DivModUnique(x: int, d: int, q: int, r: int)
    requires d > 0 && 0 <= r < d && x == q * d + r
    ensures x / d == q && x % d == r
  {
    var q', r' := x / d, x % d;
    assert x == q' * d + r';
    assert (q - q') * d == r' - r;
    if q' < q {
      MulAtLeast(q - q', d);
    } else if q' > q {
      MulAtLeast(q' - q, d);
    }
  }

  lemma MulAtLeast(a: int, d: int)
    requires a >= 1 && d > 0
    ensures a * d >= d
  {
    assert a * d == (a - 1) * d + d;
  }

  /** `x << n`: `x` doubled `n` times. */
  function ShiftLeft(x: int, n: nat): (r: int)
    ensures x >= 0 ==> r >= 0
    decreases n
  {
    if n == 0 then x else 2 * ShiftLeft(x, n - 1)
  }

  /** `x >> n` on any integer, as Python computes it: `x` halved `n` times,
      each time rounding toward minus infinity. */
  function ShiftRight(x: int, n: nat): int
    decreases n
  {
    if n == 0 then x else ShiftRight(x / 2, n - 1)
  }

  /** Shifting left by `n` multiplies by `2^n`. */
  lemma {:induction false} ShiftLeftMul(x: int, n: nat)
    ensures ShiftLeft(x, n) == x * Pow2(n)
    decreases n
  {
    if n > 0 {
      ShiftLeftMul(x, n - 1);
      assert x * Pow2(n) == 2 * (x * Pow2(n - 1));
    }
  }

  /** Shifting right by `n` is division by `2^n` rounded toward minus
      infinity, whatever the sign of `x`. */
  lemma {:induction false} ShiftRightDiv(x: int, n: nat)
    ensures ShiftRight(x, n) == x / Pow2(n)
    decreases n
  {
    if n > 0 {
      ShiftRightDiv(x / 2, n - 1);
      HalveThenDivide(x, Pow2(n - 1));
    }
  }

  /** Halving, then dividing by `d`, is dividing by `2 * d`. */
  lemma HalveThenDivide(x: int, d: int)
    requires d > 0
    ensures (x / 2) / d == x / (2 * d)
  {
    var h := x / 2;
    var q, m := h / d, h % d;
    assert h == q * d + m;
    assert x == 2 * h + x % 2;
    assert x == q * (2 * d) + (2 * m + x % 2);
    DivModUnique(x, 2 * d, q, 2 * m + x % 2);
  }

  /** The unsigned value of a bit string read most significant bit first. */
  function BitsValue(b: BitString): (v: nat)
  {
    if |b| == 0 then 0 else 2 * BitsValue(b[..|b| - 1]) + (if b[|b| - 1] then 1 else 0)
  }

  lemma {:induction false} BitsValueBound(b: BitString)
    ensures BitsValue(b) < Pow2(|b|)
  {
    if |b| > 0 {
      BitsValueBound(b[..|b| - 1]);
    }
  }

  /** Reading `a` then `b` gives the high and the low part of reading `a + b`. */
  lemma {:induction false} BitsValueConcat(a: BitString, b: BitString)
    ensures BitsValue(a + b) == BitsValue(a) * Pow2(|b|) + BitsValue(b)
  {
    if |b| > 0 {
      var b' := b[..|b| - 1];
      var last := if b[|b| - 1] then 1 else 0;
      assert (a + b)[..|a + b| - 1] == a + b';
      assert BitsValue(a + b) == 2 * BitsValue(a + b') + last;
      assert BitsValue(b) == 2 * BitsValue(b') + last;
      BitsValueConcat(a, b');
      assert Pow2(|b|) == 2 * Pow2(|b'|);
      ShiftOneMore(BitsValue(a), Pow2(|b'|), BitsValue(b'), last);
    } else {
      assert a + b == a;
    }
  }

  lemma ShiftOneMore(x: int, p: int, y: int, last: int)
    ensures 2 * (x * p + y) + last == x * (2 * p) + (2 * y + last)
  {
  }

  /** The value of `a + b` splits into `BitsValue(a)` and `BitsValue(b)` by division. */
  lemma SplitValue(a: BitString, b: BitString)
    ensures BitsValue(a + b) / Pow2(|b|) == BitsValue(a)
    ensures BitsValue(a + b) % Pow2(|b|) == BitsValue(b)
  {
    BitsValueConcat(a, b);
    BitsValueBound(b);
    DivModUnique(BitsValue(a + b), Pow2(|b|), BitsValue(a), BitsValue(b));
  }

  /** A slice of a slice is a slice of the whole. */
  lemma SliceOfSlice(u: BitString, a: nat, b: nat, i: nat, j: nat)
    requires a <= b <= |u| && i <= j <= b - a
    ensures u[a..b][i..j] == u[a + i..a + j]
  {
    forall t | 0 <= t < j - i
      ensures u[a..b][i..j][t] == u[a + i..a + j][t]
    {
      assert u[a..b][i..j][t] == u[a..b][i + t] == u[a + i + t];
    }
  }

  /** Bits `i` up to `j` of `w`, as a number: shift the value right past the
      bits after `j`, then keep the low `j - i` bits. */
  lemma FieldOfValue(w: BitString, i: nat, j: nat)
    requires i <= j <= |w|
    ensures (BitsValue(w) / Pow2(|w| - j)) % Pow2(j - i) == BitsValue(w[i..j])
  {
    assert w == w[..j] + w[j..];
    SplitValue(w[..j], w[j..]);
    assert w[..j] == w[..i] + w[i..j];
    SplitValue(w[..i], w[i..j]);
  }

  /** The low `n` bits of `v`, most significant first. */
  function NatToBits(v: nat, n: nat): (r: BitString)
    ensures |r| == n
  {
    if n == 0 then [] else NatToBits(v / 2, n - 1) + [v % 2 == 1]
  }

  lemma {:induction false} NatToBitsValue(v: nat, n: nat)
    requires v < Pow2(n)
    ensures BitsValue(NatToBits(v, n)) == v
  {
    if n > 0 {
      var r := NatToBits(v, n);
      assert r[..n - 1] == NatToBits(v / 2, n - 1);
      Halve(v, Pow2(n - 1));
      NatToBitsValue(v / 2, n - 1);
      assert BitsValue(r) == 2 * BitsValue(NatToBits(v / 2, n - 1)) + v % 2;
    }
  }

  lemma Halve(v: nat, p: nat)
    requires v < 2 * p
    ensures v / 2 < p && 2 * (v / 2) + v % 2 == v
  {
  }

  /** The bits of `x * 2^m + y`, with `y` below `2^m`, are those of `x` followed by those of `y`. */
  lemma {:induction false} NatToBitsConcat(x: nat, y: nat, n: nat, m: nat)
    requires y < Pow2(m)
    ensures NatToBits(x * Pow2(m) + y, n + m) == NatToBits(x, n) + NatToBits(y, m)
  {
    if m > 0 {
      var p := Pow2(m - 1);
      var v := x * Pow2(m) + y;
      Halve(y, p);
      assert v / 2 == x * p + y / 2 && v % 2 == y % 2 by {
        ShiftOneMore(x, p, y / 2, y % 2);
        DivModUnique(v, 2, x * p + y / 2, y % 2);
      }
      NatToBitsConcat(x, y / 2, n, m - 1);
    }
  }

  /** Splitting `v` below `2^(n + m)` at bit `m`: the high part is below `2^n`. */
  lemma SplitBound(v: nat, n: nat, m: nat)
    requires v < Pow2(n + m)
    ensures v / Pow2(m) < Pow2(n) && v == (v / Pow2(m)) * Pow2(m) + v % Pow2(m)
  {
    Pow2Add(n, m);
    var q := v / Pow2(m);
    if q >= Pow2(n) {
      MulMonotone(Pow2(n), q, Pow2(m));
    }
  }

  lemma MulMonotone(a: nat, b: nat, c: nat)
    requires a <= b
    ensures a * c <= b * c
  {
  }

  lemma {:induction false} BitsValueNatToBits(b: BitString)
    ensures NatToBits(BitsValue(b), |b|) == b
  {
    if |b| > 0 {
      var b' := b[..|b| - 1];
      var last := if b[|b| - 1] then 1 else 0;
      DivModUnique(BitsValue(b), 2, BitsValue(b'), last);
      BitsValueNatToBits(b');
      assert b == b' + [b[|b| - 1]];
    }
  }

  function ByteBits(b: Byte): (r: BitString)
    ensures |r| == 8
  {
    NatToBits(b, 8)
  }

  lemma ByteBitsValue(b: Byte)
    ensures BitsValue(ByteBits(b)) == b
  {
    NatToBitsValue(b, 8);
  }

  /** The bits of a byte sequence, each byte most significant bit first. */
  function BytesBits(s: seq<Byte>): (r: BitString)
    ensures |r| == 8 * |s|
  {
    if |s| == 0 then [] else ByteBits(s[0]) + BytesBits(s[1..])
  }

  lemma {:induction false} BytesBitsConcat(a: seq<Byte>, b: seq<Byte>)
    ensures BytesBits(a + b) == BytesBits(a) + BytesBits(b)
  {
    if |a| > 0 {
      assert (a + b)[1..] == a[1..] + b;
      BytesBitsConcat(a[1..], b);
    } else {
      assert a + b == b;
    }
  }

  /** The bits of bytes `i` up to `j` are bits `8i` up to `8j` of the whole sequence. */
  lemma BytesBitsSlice(s: seq<Byte>, i: nat, j: nat)
    requires i <= j <= |s|
    ensures BytesBits(s)[8 * i..8 * j] == BytesBits(s[i..j])
  {
    assert s == s[..i] + s[i..j] + s[j..];
    BytesBitsConcat(s[..i] + s[i..j], s[j..]);
    BytesBitsConcat(s[..i], s[i..j]);
  }

  /** The inverse of `BytesBits`: groups of eight bits read as bytes. */
  function BitsToBytes(b: BitString): (r: seq<Byte>)
    requires |b| % 8 == 0
    ensures |r| == |b| / 8
  {
    if |b| == 0 then []
    else
      BitsValueBound(b[..8]);
      [BitsValue(b[..8]) as Byte] + BitsToBytes(b[8..])
  }

  lemma {:induction false} BitsToBytesOfBytesBits(s: seq<Byte>)
    ensures BitsToBytes(BytesBits(s)) == s
  {
    if |s| > 0 {
      var bits := BytesBits(s);
      assert bits[..8] == ByteBits(s[0]);
      assert bits[8..] == BytesBits(s[1..]);
      ByteBitsValue(s[0]);
      BitsToBytesOfBytesBits(s[1..]);
    }
  }

  /** Byte `i` of `s` is bits `8i` up to `8i + 8` of the whole sequence. */
  lemma ByteAt(s: seq<Byte>, i: nat)
    requires i < |s|
    ensures BitsValue(BytesBits(s)[8 * i..8 * i + 8]) == s[i]
  {
    BytesBitsSlice(s, i, i + 1);
    assert s[i..i + 1] == [s[i]];
    assert BytesBits([s[i]]) == ByteBits(s[i]) + BytesBits([]);
    assert ByteBits(s[i]) + BytesBits([]) == ByteBits(s[i]);
    ByteBitsValue(s[i]);
  }

  /** Grouping bits `8i` up to `8j` into bytes gives bytes `i` up to `j` back. */
  lemma BytesAt(s: seq<Byte>, i: nat, j: nat)
    requires i <= j <= |s|
    ensures BitsToBytes(BytesBits(s)[8 * i..8 * j]) == s[i..j]
  {
    BytesBitsSlice(s, i, j);
    BitsToBytesOfBytesBits(s[i..j]);
  }

  /** Big-endian value of a byte sequence (what `struct.unpack('>…')` computes). */
  function BigEndian(s: seq<Byte>): (v: nat)
  {
    if |s| == 0 then 0 else BigEndian(s[..|s| - 1]) * 256 + s[|s| - 1]
  }

  /** Reading whole bytes as one bit field gives their big-endian value. */
  lemma {:induction false} BitsValueOfBytes(s: seq<Byte>)
    ensures BitsValue(BytesBits(s)) == BigEndian(s)
  {
    if |s| > 0 {
      var init := s[..|s| - 1];
      assert s == init + [s[|s| - 1]];
      BytesBitsConcat(init, [s[|s| - 1]]);
      assert BytesBits([s[|s| - 1]]) == ByteBits(s[|s| - 1]);
      BitsValueConcat(BytesBits(init), ByteBits(s[|s| - 1]));
      ByteBitsValue(s[|s| - 1]);
      BitsValueOfBytes(init);
    }
  }

  /** `n` bytes of `v`, most significant first (what `struct.pack('>…')` writes). */
  function BigEndianBytes(v: nat, n: nat): (r: seq<Byte>)
    ensures |r| == n
  {
    if n == 0 then [] else BigEndianBytes(v / 256, n - 1) + [(v % 256) as Byte]
  }

  /** Packing big-endian and unpacking again gives the value back when it fits. */
  lemma {:induction false} BigEndianRoundTrip(v: nat, n: nat)
    requires v < Pow2(8 * n)
    ensures BigEndian(BigEndianBytes(v, n)) == v
  {
    if n > 0 {
      Pow2Add(8, 8 * (n - 1));
      assert Pow2(8) == 256;
      DivModUnique(v, 256, v / 256, v % 256);
      assert v / 256 < Pow2(8 * (n - 1));
      BigEndianRoundTrip(v / 256, n - 1);
      var s := BigEndianBytes(v, n);
      assert s[..n - 1] == BigEndianBytes(v / 256, n - 1);
    }
  }

  /** Little-endian value of a byte sequence (what `struct.unpack('<…')` computes). */
  function LittleEndian(s: seq<Byte>): (v: nat)
  {
    if |s| == 0 then 0 else s[0] + 256 * LittleEndian(s[1..])
  }

  lemma {:induction false} LittleEndianBound(s: seq<Byte>)
    ensures LittleEndian(s) < Pow2(8 * |s|)
  {
    if |s| > 0 {
      LittleEndianBound(s[1..]);
      Pow2Add(8, 8 * (|s| - 1));
      assert Pow2(8) == 256;
      DigitBound(s[0], LittleEndian(s[1..]), Pow2(8 * (|s| - 1)));
    }
  }

  lemma DigitBound(low: nat, high: nat, p: nat)
    requires low < 256 && high < p
    ensures low + 256 * high < 256 * p
  {
  }

  /** `n` bytes of `v`, least significant first (what `struct.pack('<…')` writes). */
  function LittleEndianBytes(v: nat, n: nat): (r: seq<Byte>)
    ensures |r| == n
  {
    if n == 0 then [] else [(v % 256) as Byte] + LittleEndianBytes(v / 256, n - 1)
  }

  /** Packing little-endian and unpacking again gives the value back when it fits. */
  lemma {:induction false} LittleEndianRoundTrip(v: nat, n: nat)
    requires v < Pow2(8 * n)
    ensures LittleEndian(LittleEndianBytes(v, n)) == v
  {
    if n > 0 {
      Pow2Add(8, 8 * (n - 1));
      assert Pow2(8) == 256;
      DivModUnique(v, 256, v / 256, v % 256);
      assert v / 256 < Pow2(8 * (n - 1));
      LittleEndianRoundTrip(v / 256, n - 1);
    }
  }

  /** The number of zero bits from position `p` up to the first one bit or
      the end of `u`. */
  function LeadingZeros(u: BitString, p: nat): (k: nat)
    requires p <= |u|
    ensures p + k <= |u|
    decreases |u| - p
  {
    if p == |u| || u[p] then 0 else 1 + LeadingZeros(u, p + 1)
  }

  /** The run counted by `LeadingZeros` is all zeros, and it ends at a one bit
      unless it ends at the end of `u`. */
  lemma {:induction false} LeadingZerosMeaning(u: BitString, p: nat)
    requires p <= |u|
    ensures forall i :: p <= i < p + LeadingZeros(u, p) ==> !u[i]
    ensures p + LeadingZeros(u, p) < |u| ==> u[p + LeadingZeros(u, p)]
    decreases |u| - p
  {
    if p < |u| && !u[p] {
      LeadingZerosMeaning(u, p + 1);
    }
  }

  /** Conversely, `q` zero bits from `p` followed by a one bit or by the end
      of `u` are the leading run. */
  lemma {:induction false} LeadingZerosAt(u: BitString, p: nat, q: nat)
    requires p + q <= |u| && (p + q < |u| ==> u[p + q])
    requires forall i :: p <= i < p + q ==> !u[i]
    ensures LeadingZeros(u, p) == q
    decreases q
  {
    if q > 0 {
      LeadingZerosAt(u, p + 1, q - 1);
    }
  }

  function Min(a: int, b: int): int
  {
    if a <= b then a else b
  }
}
