/** One subframe (RFC 9639, section 9.2): a header with the subframe type and
    the wasted-bits count, then, for the linear-predictor type, which is the
    only one decoded here, the warm-up samples, the quantized coefficients and
    the residual. */
module Subframes {
  import opened Bits
  import opened Reader
  import opened BitStreams
  import opened SampleReads
  import opened Residuals
  import opened Lpc

  /** The wasted-bits count (RFC 9639, section 9.2.2): none when the flag is
      clear; otherwise one more than the number of zero bits before the next
      one bit, which is read too. */
  function TakeWasted(u: BitString, p: nat, flag: nat): (r: Result<Read<nat>>)
    requires p <= |u|
    ensures r.Err? ==> r.error == EndOfInput && flag == 1
    ensures r.Ok? ==> r.value.next == p + r.value.value <= |u|
  {
    if flag != 1 then Ok(Read(0, p))
    else
      var q := LeadingZeros(u, p);
      if p + q == |u| then Err(EndOfInput) else Ok(Read(1 + q, p + q + 1))
  }

  /** With the flag set, the count is there exactly when a one bit follows,
      and it is one more than the zero bits before that one bit; with the flag
      clear it is zero and nothing is read. */
  lemma WastedMeaning(u: BitString, p: nat, flag: nat)
    requires p <= |u|
    ensures flag != 1 ==> TakeWasted(u, p, flag) == Ok(Read(0, p))
    ensures flag == 1 ==> (TakeWasted(u, p, flag).Ok? <==> exists i :: p <= i < |u| && u[i])
    ensures flag == 1 && TakeWasted(u, p, flag).Ok? ==> var w := TakeWasted(u, p, flag).value.value;
      && w >= 1 && u[p + w - 1]
      && forall i :: p <= i < p + w - 1 ==> !u[i]
  {
    LeadingZerosMeaning(u, p);
  }

  /** `[(s << wasted) for s in result]`. */
  function Shifted(samples: seq<int>, wasted: nat): (r: seq<int>)
    ensures |r| == |samples|
  {
    seq(|samples|, i requires 0 <= i < |samples| => ShiftLeft(samples[i], wasted))
  }

  /** The shift puts `wasted` zero bits below every sample and loses nothing:
      shifting back gives the samples again, and no shift changes nothing. */
  lemma ShiftedUndo(samples: seq<int>, wasted: nat, i: nat)
    requires i < |samples|
    ensures Shifted(samples, wasted)[i] % Pow2(wasted) == 0
    ensures Shifted(samples, wasted)[i] / Pow2(wasted) == samples[i]
    ensures Shifted(samples, 0) == samples
  {
    ShiftLeftMul(samples[i], wasted);
    DivModUnique(samples[i] * Pow2(wasted), Pow2(wasted), samples[i], 0);
  }

  /** `decode_lpc_subframe`'s reads: `order` warm-up samples of `bps` bits,
      the coefficient precision (4 bits, plus one) and the 5-bit signed shift. */
  function TakeLpc(u: BitString, p: nat, order: nat, blockSize: nat, bps: int): (r: Result<Read<seq<int>>>)
    requires p <= |u|
    ensures r.Ok? ==> p <= r.value.next <= |u|
  {
    var warm :- TakeSints(u, p, order, bps);
    TakeQuantization(u, warm.next, warm.value, blockSize)
  }

  /** The coefficient precision and the shift, then the rest. */
  function TakeQuantization(u: BitString, p: nat, warm: seq<int>, blockSize: nat): (r: Result<Read<seq<int>>>)
    ensures r.Ok? ==> p <= r.value.next <= |u|
  {
    var precision :- TakeUint(u, p, 4);
    var shift :- TakeSint(u, precision.next, 5);
    TakeLpcRest(u, shift.next, warm, precision.value + 1, shift.value, blockSize)
  }

  /** The coefficients and the residual, then the prediction. A negative shift
      fails only when there is a residual to shift a prediction for. */
  function TakeLpcRest(u: BitString, p: nat, warm: seq<int>, precision: nat, shift: int,
                       blockSize: nat): (r: Result<Read<seq<int>>>)
    requires p <= |u|
    ensures r.Ok? ==> p <= r.value.next <= |u|
  {
    var coefs :- TakeSints(u, p, |warm|, precision);
    var residuals :- TakeResiduals(u, coefs.next, blockSize, |warm|);
    if shift < 0 && |residuals.value| > 0 then Err(NegativeShift)
    else Ok(Read(Restore(coefs.value, if shift < 0 then 0 else shift, warm, residuals.value), residuals.next))
  }

  /** The quantization fields read at `p`: the precision is one more than
      its 4-bit field, and the shift is a 5-bit two's-complement number. */
  lemma QuantizationAt(u: BitString, p: nat, warm: seq<int>, blockSize: nat, precision: nat, shift: int, q: nat)
    requires q == p + 9 <= |u|
    requires precision == BitsValue(u[p..p + 4]) && shift == Signed(BitsValue(u[p + 4..p + 4 + 5]), 5)
    ensures TakeQuantization(u, p, warm, blockSize) == TakeLpcRest(u, q, warm, precision + 1, shift, blockSize)
  {
    assert TakeUint(u, p, 4) == Ok(Read(precision, p + 4));
    assert TakeSint(u, p + 4, 5) == Ok(Read(shift, q));
  }

  /** Fewer than nine bits left: the quantization fields are cut short. */
  lemma QuantizationShort(u: BitString, p: nat, warm: seq<int>, blockSize: nat)
    requires p + 9 > |u|
    ensures TakeQuantization(u, p, warm, blockSize) == Err(EndOfInput)
  {
  }

  /** `decode_subframe`: the reserved bit, the 6-bit type and the wasted-bits
      flag, then the wasted-bits count and the body. */
  function TakeSubframe(u: BitString, p: nat, blockSize: nat, bps: int): (r: Result<Read<seq<int>>>)
    requires p <= |u|
    ensures r.Ok? ==> p + 8 <= r.value.next <= |u|
    ensures r.Ok? ==> Field(u, p, 1, 6) >= 32
  {
    if p + 8 > |u| then Err(EndOfInput)
    else
      var w :- TakeWasted(u, p + 8, Field(u, p, 7, 1));
      TakeSubframeBody(u, w.next, Field(u, p, 1, 6), w.value, blockSize, bps)
  }

  /** Only types from 32 up, linear prediction of order `type - 31`, are
      decoded, on `bps` less the wasted bits, and every sample is shifted back
      up by them. */
  function TakeSubframeBody(u: BitString, p: nat, kind: nat, wasted: nat, blockSize: nat, bps: int)
    : (r: Result<Read<seq<int>>>)
    requires p <= |u|
    ensures r.Ok? ==> kind >= 32 && p <= r.value.next <= |u|
    ensures kind < 32 ==> r == Err(UnsupportedSubframe)
  {
    if kind < 32 then Err(UnsupportedSubframe)
    else
      var samples :- TakeLpc(u, p, kind - 31, blockSize, bps - wasted);
      Ok(Read(Shifted(samples.value, wasted), samples.next))
  }

  /** The subframe read at `p` once its header byte is known; a type from 32
      up is a predictor of order 1 to 32. */
  lemma SubframeAt(u: BitString, p: nat, blockSize: nat, bps: int)
    requires p + 8 <= |u|
    ensures TakeSubframe(u, p, blockSize, bps)
      == match TakeWasted(u, p + 8, Field(u, p, 7, 1))
         case Err(e) => Err(e)
         case Ok(w) => TakeSubframeBody(u, w.next, Field(u, p, 1, 6), w.value, blockSize, bps)
    ensures Field(u, p, 1, 6) >= 32 ==> 1 <= Field(u, p, 1, 6) - 31 <= 32
  {
    TakeUintBound(u, p + 1, 6);
    assert Pow2(6) == 64 by { assert Pow2(4) == 16; }
  }

  /** The prediction restores a whole block: the warm-up samples and the
      residual after them are never fewer than `blockSize`. */
  lemma LpcRestLength(u: BitString, p: nat, warm: seq<int>, precision: nat, shift: int, blockSize: nat)
    requires p <= |u| && TakeLpcRest(u, p, warm, precision, shift, blockSize).Ok?
    ensures |TakeLpcRest(u, p, warm, precision, shift, blockSize).value.value| >= blockSize
  {
    var coefs := TakeSints(u, p, |warm|, precision).value;
    ResidualsLength(u, coefs.next, blockSize, |warm|);
  }

  lemma QuantizationLength(u: BitString, p: nat, warm: seq<int>, blockSize: nat)
    requires p <= |u| && TakeQuantization(u, p, warm, blockSize).Ok?
    ensures |TakeQuantization(u, p, warm, blockSize).value.value| >= blockSize
  {
    var precision := TakeUint(u, p, 4).value;
    var shift := TakeSint(u, precision.next, 5).value;
    LpcRestLength(u, shift.next, warm, precision.value + 1, shift.value, blockSize);
  }

  lemma SubframeBodyLength(u: BitString, p: nat, kind: nat, wasted: nat, blockSize: nat, bps: int)
    requires p <= |u| && TakeSubframeBody(u, p, kind, wasted, blockSize, bps).Ok?
    ensures |TakeSubframeBody(u, p, kind, wasted, blockSize, bps).value.value| >= blockSize
  {
    var warm := TakeSints(u, p, kind - 31, bps - wasted).value;
    QuantizationLength(u, warm.next, warm.value, blockSize);
  }

  /** A decoded subframe holds at least a block of samples, so the left/side
      and right/side loops never index past the end of a channel. */
  lemma SubframeLength(u: BitString, p: nat, blockSize: nat, bps: int)
    requires p <= |u| && TakeSubframe(u, p, blockSize, bps).Ok?
    ensures |TakeSubframe(u, p, blockSize, bps).value.value| >= blockSize
  {
    SubframeAt(u, p, blockSize, bps);
    var w := TakeWasted(u, p + 8, Field(u, p, 7, 1)).value;
    SubframeBodyLength(u, w.next, Field(u, p, 1, 6), w.value, blockSize, bps);
  }

  /** `decode_lpc_subframe`. */
  method ReadLpc(s: BitStream, order: nat, blockSize: nat, bps: int) returns (r: Result<seq<int>>)
    requires s.Valid()
    modifies s
    ensures s.Yields(r, TakeLpc(s.bits, old(s.Consumed()), order, blockSize, bps))
  {
    var warm :- ReadSints(s, order, bps);
    r := ReadQuantization(s, warm, blockSize);
  }

  method ReadQuantization(s: BitStream, warm: seq<int>, blockSize: nat) returns (r: Result<seq<int>>)
    requires s.Valid()
    modifies s
    ensures s.Yields(r, TakeQuantization(s.bits, old(s.Consumed()), warm, blockSize))
  {
    ghost var c := s.Consumed();
    var precision := s.ReadUint(4);
    if precision.Err? {
      QuantizationShort(s.bits, c, warm, blockSize);
      return Err(precision.error);
    }
    var shift := s.ReadSint(5);
    if shift.Err? {
      QuantizationShort(s.bits, c, warm, blockSize);
      return Err(shift.error);
    }
    QuantizationAt(s.bits, c, warm, blockSize, precision.value, shift.value, s.Consumed());
    r := ReadLpcRest(s, warm, precision.value + 1, shift.value, blockSize);
  }

  method ReadLpcRest(s: BitStream, warm: seq<int>, precision: nat, shift: int, blockSize: nat)
    returns (r: Result<seq<int>>)
    requires s.Valid()
    modifies s
    ensures s.Yields(r, TakeLpcRest(s.bits, old(s.Consumed()), warm, precision, shift, blockSize))
  {
    var coefs :- ReadSints(s, |warm|, precision);
    var residuals :- ReadResiduals(s, blockSize, |warm|);
    if shift < 0 && |residuals| > 0 {
      return Err(NegativeShift);
    }
    var samples := RestoreSamples(coefs, if shift < 0 then 0 else shift, warm, residuals);
    r := Ok(samples);
  }

  /** The wasted-bits count: the loop `while read_uint(1) == 0` is the unary
      read of a Rice quotient. */
  method ReadWasted(s: BitStream, flag: nat) returns (r: Result<nat>)
    requires s.Valid()
    modifies s
    ensures s.Yields(r, TakeWasted(s.bits, old(s.Consumed()), flag))
  {
    if flag != 1 {
      return Ok(0);
    }
    var zeros :- s.ReadUnary();
    r := Ok(1 + zeros);
  }

  /** `decode_subframe`. */
  method ReadSubframe(s: BitStream, blockSize: nat, bps: int) returns (r: Result<seq<int>>)
    requires s.Valid()
    modifies s
    ensures s.Yields(r, TakeSubframe(s.bits, old(s.Consumed()), blockSize, bps))
  {
    ghost var c := s.Consumed();
    var _ :- s.ReadUint(1);
    var kind :- s.ReadUint(6);
    var flag :- s.ReadUint(1);
    SubframeAt(s.bits, c, blockSize, bps);
    var wasted :- ReadWasted(s, flag);
    r := ReadSubframeBody(s, kind, wasted, blockSize, bps);
  }

  method ReadSubframeBody(s: BitStream, kind: nat, wasted: nat, blockSize: nat, bps: int)
    returns (r: Result<seq<int>>)
    requires s.Valid()
    modifies s
    ensures s.Yields(r, TakeSubframeBody(s.bits, old(s.Consumed()), kind, wasted, blockSize, bps))
  {
    if kind < 32 {
      return Err(UnsupportedSubframe);
    }
    var samples :- ReadLpc(s, kind - 31, blockSize, bps - wasted);
    r := Ok(Shifted(samples, wasted));
  }
}
