/** The residual of a subframe (RFC 9639, section 9.2.7): a coding method, a
    partition order, then per partition a Rice parameter (or an escape code
    and a 5-bit parameter) and that partition's Rice codes. */
module Residuals {
  import opened Bits
  import opened Reader
  import opened BitStreams
  import opened SampleReads

  /** `rice_parameter_len`: 4 bits for coding method 0, 5 for method 1. */
  function ParamWidth(codingMethod: nat): nat
  {
    if codingMethod == 0 then 4 else 5
  }

  /** `rice_escape_code`: the all-ones parameter of that width. */
  function EscapeCode(codingMethod: nat): nat
  {
    if codingMethod == 0 then 0xF else 0x1F
  }

  /** `samples_in_partion`: `block_size >> partion_order` values in every
      partition, less the `order` warm-up samples in the first one; a negative
      count reads nothing, as `range` of it is empty. */
  function PartitionLength(i: nat, size: nat, order: nat): (n: nat)
    ensures i > 0 ==> n == size
    ensures i == 0 ==> n == size - Min(order, size)
  {
    if i > 0 then size else if size >= order then size - order else 0
  }

  /** `block_size >> partion_order`: the block size halved `partitionOrder` times. */
  function PartitionSize(blockSize: nat, partitionOrder: nat): nat
  {
    if partitionOrder == 0 then blockSize else PartitionSize(blockSize / 2, partitionOrder - 1)
  }

  /** `block_size % 2**partition_order == 0`, asked by halving: the block
      size is even, so is its half, and so on `partitionOrder` times. */
  predicate SplitsEvenly(blockSize: nat, partitionOrder: nat)
  {
    partitionOrder == 0 || (blockSize % 2 == 0 && SplitsEvenly(blockSize / 2, partitionOrder - 1))
  }

  /** Halving `partitionOrder` times without a remainder is divisibility by
      2^partitionOrder, both ways. */
  lemma {:induction false} SplitsEvenlyMod(blockSize: nat, partitionOrder: nat)
    ensures SplitsEvenly(blockSize, partitionOrder) <==> blockSize % Pow2(partitionOrder) == 0
  {
    if partitionOrder > 0 {
      var half := Pow2(partitionOrder - 1);
      SplitsEvenlyMod(blockSize / 2, partitionOrder - 1);
      var b, m := blockSize % 2, blockSize / 2;
      var q, r := m / half, m % half;
      assert blockSize == q * (2 * half) + (2 * r + b);
      DivModUnique(blockSize, 2 * half, q, 2 * r + b);
    }
  }

  /** When the block size splits evenly, the shift divides exactly: the
      2^order partitions of that size cover the block. */
  lemma {:induction false} PartitionSizeExact(blockSize: nat, partitionOrder: nat, count: nat)
    requires count == Pow2(partitionOrder) && SplitsEvenly(blockSize, partitionOrder)
    ensures count * PartitionSize(blockSize, partitionOrder) == blockSize
  {
    if partitionOrder > 0 {
      var half := Pow2(partitionOrder - 1);
      PartitionSizeExact(blockSize / 2, partitionOrder - 1, half);
      assert count * PartitionSize(blockSize, partitionOrder) == 2 * (half * PartitionSize(blockSize / 2, partitionOrder - 1));
    }
  }

  /** The Rice parameter of one partition. */
  function TakeParameter(u: BitString, p: nat, codingMethod: nat): (r: Result<Read<nat>>)
    ensures r.Err? ==> r.error == EndOfInput
    ensures r.Ok? ==> p + ParamWidth(codingMethod) <= r.value.next <= |u|
  {
    var k :- TakeUint(u, p, ParamWidth(codingMethod));
    if k.value == EscapeCode(codingMethod) then TakeUint(u, k.next, 5) else Ok(k)
  }

  /** The parameter is the field itself unless it is the escape code, in which
      case it is the next five bits; either way it is below 32. */
  lemma ParameterRange(u: BitString, p: nat, codingMethod: nat)
    requires codingMethod <= 1 && TakeParameter(u, p, codingMethod).Ok?
    ensures var w := ParamWidth(codingMethod); var k := TakeParameter(u, p, codingMethod).value;
      && (BitsValue(u[p..p + w]) != EscapeCode(codingMethod) ==> k == Read(BitsValue(u[p..p + w]), p + w))
      && (BitsValue(u[p..p + w]) == EscapeCode(codingMethod) ==> k == Read(BitsValue(u[p + w..p + w + 5]), p + w + 5))
      && k.value < 32
  {
    var w := ParamWidth(codingMethod);
    TakeUintBound(u, p, w);
    assert Pow2(4) == 16 && Pow2(5) == 32;
    if BitsValue(u[p..p + w]) == EscapeCode(codingMethod) {
      TakeUintBound(u, p + w, 5);
    }
  }

  /** One partition: its parameter, then `len` Rice codes. */
  function TakePartition(u: BitString, p: nat, len: nat, codingMethod: nat): (r: Result<Read<seq<int>>>)
    ensures r.Ok? ==> |r.value.value| == len && p <= r.value.next <= |u|
  {
    var k :- TakeParameter(u, p, codingMethod);
    TakeRices(u, k.next, len, k.value)
  }

  /** Partitions `i` up to `count`, concatenated. */
  function TakePartitions(u: BitString, p: nat, i: nat, count: nat, size: nat, order: nat,
                          codingMethod: nat): (r: Result<Read<seq<int>>>)
    requires p <= |u|
    ensures r.Ok? ==> p <= r.value.next <= |u|
    decreases count - i
  {
    if i >= count then Ok(Read([], p))
    else
      match TakePartition(u, p, PartitionLength(i, size, order), codingMethod)
      case Err(e) => Err(e)
      case Ok(part) => Prepend(part.value, TakePartitions(u, part.next, i + 1, count, size, order, codingMethod))
  }

  /** `decode_residuals`: the coding method (0 or 1), the partition order,
      the divisibility check, then the partitions. */
  function TakeResiduals(u: BitString, p: nat, blockSize: nat, order: nat): (r: Result<Read<seq<int>>>)
    ensures r.Ok? ==> p + 6 <= r.value.next <= |u|
  {
    var m :- TakeUint(u, p, 2);
    if m.value > 1 then Err(InvalidCodingMethod)
    else
      var po :- TakeUint(u, m.next, 4);
      if !SplitsEvenly(blockSize, po.value) then Err(PartitionMismatch)
      else TakePartitions(u, po.next, 0, Pow2(po.value), PartitionSize(blockSize, po.value), order, m.value)
  }

  /** The residual read at `p` once its two header fields are known: only
      coding methods 0 and 1 are accepted, and the block size must split evenly
      into the 2^order partitions. */
  lemma ResidualsAt(u: BitString, p: nat, blockSize: nat, order: nat)
    requires p + 6 <= |u|
    ensures var m, count := Field(u, p, 0, 2), Pow2(Field(u, p, 2, 4));
      TakeResiduals(u, p, blockSize, order)
        == if m > 1 then Err(InvalidCodingMethod)
           else if !SplitsEvenly(blockSize, Field(u, p, 2, 4)) then Err(PartitionMismatch)
           else TakePartitions(u, p + 6, 0, count, PartitionSize(blockSize, Field(u, p, 2, 4)), order, m)
  {
  }

  /** What the two header fields decide when the input ends early: the coding
      method is checked as soon as it is read. */
  lemma ResidualsShort(u: BitString, p: nat, blockSize: nat, order: nat)
    requires p + 6 > |u|
    ensures TakeResiduals(u, p, blockSize, order)
      == if p + 2 <= |u| && Field(u, p, 0, 2) > 1 then Err(InvalidCodingMethod) else Err(EndOfInput)
  {
  }

  /** How many values partitions `i` up to `count` hold together. */
  function PartitionsSpan(i: nat, count: nat, size: nat, order: nat): nat
    decreases count - i
  {
    if i >= count then 0 else PartitionLength(i, size, order) + PartitionsSpan(i + 1, count, size, order)
  }

  /** Partitions `i` up to `count` hold `size` values each, except that the
      first one holds `size - Min(order, size)`. */
  lemma {:induction false} SpanValue(i: nat, count: nat, size: nat, order: nat)
    requires i <= count
    ensures PartitionsSpan(i, count, size, order)
      == (count - i) * size - (if i == 0 < count then Min(order, size) else 0)
    decreases count - i
  {
    if i < count {
      SpanValue(i + 1, count, size, order);
      assert (count - i) * size == size + (count - (i + 1)) * size;
    }
  }

  /** The values read by partitions `i` up to `count` are as many as those
      partitions hold. */
  lemma {:induction false} PartitionsLength(u: BitString, p: nat, i: nat, count: nat, size: nat, order: nat,
                                            codingMethod: nat)
    requires p <= |u| && i <= count
    requires TakePartitions(u, p, i, count, size, order, codingMethod).Ok?
    ensures |TakePartitions(u, p, i, count, size, order, codingMethod).value.value|
      == PartitionsSpan(i, count, size, order)
    decreases count - i
  {
    if i < count {
      var part := TakePartition(u, p, PartitionLength(i, size, order), codingMethod).value;
      PartitionsLength(u, part.next, i + 1, count, size, order, codingMethod);
    }
  }

  /** The residual holds `blockSize` values less the warm-up samples: exactly
      `blockSize - order` when the first partition is at least `order` long, and
      never fewer than the other partitions together. */
  lemma ResidualsLength(u: BitString, p: nat, blockSize: nat, order: nat)
    requires TakeResiduals(u, p, blockSize, order).Ok?
    ensures |TakeResiduals(u, p, blockSize, order).value.value|
      == blockSize - Min(order, PartitionSize(blockSize, Field(u, p, 2, 4)))
  {
    ResidualsAt(u, p, blockSize, order);
    var m, f := Field(u, p, 0, 2), Field(u, p, 2, 4);
    var count, size := Pow2(f), PartitionSize(blockSize, f);
    assert m <= 1;
    assert SplitsEvenly(blockSize, f);
    PartitionsLength(u, p + 6, 0, count, size, order, m);
    BlockCovered(blockSize, f, count, order);
  }

  /** The partitions of a block that splits evenly hold the whole block less
      the warm-up samples of the first one. */
  lemma BlockCovered(blockSize: nat, partitionOrder: nat, count: nat, order: nat)
    requires count == Pow2(partitionOrder) && SplitsEvenly(blockSize, partitionOrder)
    ensures var size := PartitionSize(blockSize, partitionOrder);
      PartitionsSpan(0, count, size, order) == blockSize - Min(order, size)
  {
    var size := PartitionSize(blockSize, partitionOrder);
    SpanValue(0, count, size, order);
    PartitionSizeExact(blockSize, partitionOrder, count);
  }

  /** `rice_parameter = read_uint(len)`, replaced by `read_uint(5)` on the escape code. */
  method ReadParameter(s: BitStream, codingMethod: nat) returns (r: Result<nat>)
    requires s.Valid()
    modifies s
    ensures s.Yields(r, TakeParameter(s.bits, old(s.Consumed()), codingMethod))
  {
    var k :- s.ReadUint(ParamWidth(codingMethod));
    if k == EscapeCode(codingMethod) {
      r := s.ReadUint(5);
    } else {
      r := Ok(k);
    }
  }

  /** One pass of the partition loop: the parameter, then the Rice codes. */
  method ReadPartition(s: BitStream, len: nat, codingMethod: nat) returns (r: Result<seq<int>>)
    requires s.Valid()
    modifies s
    ensures s.Yields(r, TakePartition(s.bits, old(s.Consumed()), len, codingMethod))
  {
    var k :- ReadParameter(s, codingMethod);
    r := ReadRices(s, len, k);
  }

  /** `decode_residuals`: `result +=` each partition in turn. */
  method ReadResiduals(s: BitStream, blockSize: nat, order: nat) returns (r: Result<seq<int>>)
    requires s.Valid()
    modifies s
    ensures s.Yields(r, TakeResiduals(s.bits, old(s.Consumed()), blockSize, order))
  {
    ghost var c := s.Consumed();
    if c + 6 <= |s.bits| {
      ResidualsAt(s.bits, c, blockSize, order);
    } else {
      ResidualsShort(s.bits, c, blockSize, order);
    }
    var m :- s.ReadUint(2);
    if m > 1 {
      return Err(InvalidCodingMethod);
    }
    var po :- s.ReadUint(4);
    var count := Pow2(po);
    SplitsEvenlyMod(blockSize, po);
    if blockSize % count != 0 {
      return Err(PartitionMismatch);
    }
    r := ReadPartitions(s, count, PartitionSize(blockSize, po), order, m);
  }

  /** The loop `for i in range(partions_count)`. */
  method ReadPartitions(s: BitStream, count: nat, size: nat, order: nat, codingMethod: nat)
    returns (r: Result<seq<int>>)
    requires s.Valid()
    modifies s
    ensures s.Yields(r, TakePartitions(s.bits, old(s.Consumed()), 0, count, size, order, codingMethod))
  {
    ghost var u := s.bits;
    ghost var start := s.Consumed();
    ghost var at := start;
    var result: seq<int> := [];
    PrependNothing(TakePartitions(u, start, 0, count, size, order, codingMethod));
    var i := 0;
    while i < count
      invariant s.Valid() && at == s.Consumed() && i <= count
      invariant PartitionsPending(u, start, count, size, order, codingMethod, result, at, i)
      decreases count - i
    {
      var part :- ReadPartition(s, PartitionLength(i, size, order), codingMethod);
      PartitionsStep(u, start, count, size, order, codingMethod, result, at, i, part, s.Consumed(), i + 1, result + part);
      result, at, i := result + part, s.Consumed(), i + 1;
    }
    assert result + [] == result;
    r := Ok(result);
  }

  /** The loop invariant of `ReadPartitions`: the values read so far, then
      what the remaining partitions give, are what all of them give. */
  ghost predicate PartitionsPending(u: BitString, start: nat, count: nat, size: nat, order: nat, codingMethod: nat,
                                    done: seq<int>, p: nat, i: nat)
    requires start <= |u| && p <= |u|
  {
    TakePartitions(u, start, 0, count, size, order, codingMethod)
      == Prepend(done, TakePartitions(u, p, i, count, size, order, codingMethod))
  }

  /** One more partition read keeps the loop invariant of `ReadPartitions`. */
  lemma PartitionsStep(u: BitString, start: nat, count: nat, size: nat, order: nat, codingMethod: nat,
                       done: seq<int>, p: nat, i: nat, part: seq<int>, next: nat, j: nat, after: seq<int>)
    requires start <= |u| && p <= |u| && i < count && j == i + 1
    requires TakePartition(u, p, PartitionLength(i, size, order), codingMethod) == Ok(Read(part, next))
    requires PartitionsPending(u, start, count, size, order, codingMethod, done, p, i)
    requires after == done + part
    ensures next <= |u| && PartitionsPending(u, start, count, size, order, codingMethod, after, next, j)
  {
    PrependPrepend(done, part, TakePartitions(u, next, j, count, size, order, codingMethod));
  }
}
