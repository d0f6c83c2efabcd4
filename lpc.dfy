/** Linear prediction (RFC 9639, section 9.2.6): every sample after the
    warm-up samples is the quantized prediction from the samples before it,
    shifted right, plus a residual. */
module Lpc {
  import opened Bits

  /** `sum(coef * result[i - j - 1] for (j, coef) in enumerate(coefs))` with
      `i == |past|`: coefficient `j` weighs the sample `j + 1` places back. */
  function Predict(coefs: seq<int>, past: seq<int>): int
    requires |coefs| <= |past|
  {
    if |coefs| == 0 then 0
    else Predict(coefs[..|coefs| - 1], past) + coefs[|coefs| - 1] * past[|past| - |coefs|]
  }

  /** The next sample: the prediction shifted right by `shift`, rounding
      toward minus infinity as Python's `>>` does, plus the residual. */
  function NextSample(coefs: seq<int>, shift: nat, past: seq<int>, residual: int): int
    requires |coefs| <= |past|
  {
    ShiftRight(Predict(coefs, past), shift) + residual
  }

  /** The samples the subframe decodes to: the warm-up samples, then one
      sample per residual. */
  function Restore(coefs: seq<int>, shift: nat, warm: seq<int>, residuals: seq<int>): (out: seq<int>)
    requires |coefs| <= |warm|
    ensures |out| == |warm| + |residuals|
    decreases |residuals|
  {
    if |residuals| == 0 then warm
    else
      var prev := Restore(coefs, shift, warm, residuals[..|residuals| - 1]);
      prev + [NextSample(coefs, shift, prev, residuals[|residuals| - 1])]
  }

  /** Decoding the first `k` residuals gives the first samples of decoding them all. */
  lemma {:induction false} RestorePrefix(coefs: seq<int>, shift: nat, warm: seq<int>, residuals: seq<int>, k: nat)
    requires |coefs| <= |warm| && k <= |residuals|
    ensures Restore(coefs, shift, warm, residuals[..k]) == Restore(coefs, shift, warm, residuals)[..|warm| + k]
    decreases |residuals|
  {
    if k < |residuals| {
      var init := residuals[..|residuals| - 1];
      RestorePrefix(coefs, shift, warm, init, k);
      assert init[..k] == residuals[..k];
      var prev := Restore(coefs, shift, warm, init);
      assert Restore(coefs, shift, warm, residuals)[..|warm| + k] == prev[..|warm| + k];
    } else {
      assert residuals[..k] == residuals;
    }
  }

  /** The output starts with the warm-up samples, and each later sample `i` is
      the prediction from the `i` samples before it plus residual `i - order`. */
  lemma RestoreRecurrence(coefs: seq<int>, shift: nat, warm: seq<int>, residuals: seq<int>, i: nat)
    requires |coefs| <= |warm|
    requires var out := Restore(coefs, shift, warm, residuals); i < |out|
    ensures var out := Restore(coefs, shift, warm, residuals);
      out[..|warm|] == warm
      && (i >= |warm| ==> out[i] == NextSample(coefs, shift, out[..i], residuals[i - |warm|]))
  {
    var out := Restore(coefs, shift, warm, residuals);
    RestorePrefix(coefs, shift, warm, residuals, 0);
    assert residuals[..0] == [];
    if i >= |warm| {
      var k := i - |warm|;
      RestorePrefix(coefs, shift, warm, residuals, k + 1);
      RestorePrefix(coefs, shift, warm, residuals, k);
      var r := residuals[..k + 1];
      assert r[..|r| - 1] == residuals[..k];
      assert out[..i + 1] == Restore(coefs, shift, warm, r);
      assert out[i] == out[..i + 1][i];
      assert out[..i] == out[..i + 1][..i];
    }
  }

  /** What an encoder computes: each sample after the first `order` minus its
      prediction from the samples before it. */
  function Residuals(coefs: seq<int>, shift: nat, samples: seq<int>, order: nat): (r: seq<int>)
    requires |coefs| <= order <= |samples|
    ensures |r| == |samples| - order
    decreases |samples|
  {
    if |samples| == order then []
    else
      var prev := samples[..|samples| - 1];
      Residuals(coefs, shift, prev, order) + [samples[|samples| - 1] - NextSample(coefs, shift, prev, 0)]
  }

  /** Decoding undoes encoding: the warm-up samples and the residuals of any
      samples restore exactly those samples. */
  lemma {:induction false} RestoreResiduals(coefs: seq<int>, shift: nat, samples: seq<int>, order: nat)
    requires |coefs| <= order <= |samples|
    ensures Restore(coefs, shift, samples[..order], Residuals(coefs, shift, samples, order)) == samples
    decreases |samples|
  {
    if |samples| > order {
      var prev := samples[..|samples| - 1];
      var res := Residuals(coefs, shift, samples, order);
      assert res[..|res| - 1] == Residuals(coefs, shift, prev, order);
      assert prev[..order] == samples[..order];
      RestoreResiduals(coefs, shift, prev, order);
      assert samples == prev + [samples[|samples| - 1]];
    } else {
      assert samples[..order] == samples;
    }
  }

  /** `decode_lpc_subframe`'s loop: `result` starts as the warm-up samples
      followed by placeholders, and sample `i` is written in place from the
      samples before it. */
  method RestoreSamples(coefs: seq<int>, shift: nat, warm: seq<int>, residuals: seq<int>) returns (out: seq<int>)
    requires |coefs| == |warm|
    ensures out == Restore(coefs, shift, warm, residuals)
  {
    var order := |warm|;
    var result := new int[order + |residuals|](i requires 0 <= i => if i < order then warm[i] else -1);
    assert result[..order] == warm;
    assert residuals[..0] == [];
    var i := order;
    while i < result.Length
      invariant order <= i <= result.Length
      invariant result[..i] == Restore(coefs, shift, warm, residuals[..i - order])
    {
      var s := Sum(coefs, result, i);
      RestoreStep(coefs, shift, warm, residuals, i - order, result[..i]);
      result[i] := ShiftRight(s, shift) + residuals[i - order];
      assert result[..i + 1] == result[..i] + [result[i]];
      i := i + 1;
    }
    assert residuals[..i - order] == residuals;
    out := result[..];
  }

  /** One more residual appends one more sample. */
  lemma RestoreStep(coefs: seq<int>, shift: nat, warm: seq<int>, residuals: seq<int>, k: nat, prev: seq<int>)
    requires |coefs| <= |warm| && k < |residuals|
    requires prev == Restore(coefs, shift, warm, residuals[..k])
    ensures Restore(coefs, shift, warm, residuals[..k + 1])
      == prev + [NextSample(coefs, shift, prev, residuals[k])]
  {
    var r := residuals[..k + 1];
    assert r[..|r| - 1] == residuals[..k];
  }

  /** The generator sum over the coefficients, one term at a time. */
  method Sum(coefs: seq<int>, result: array<int>, i: nat) returns (s: int)
    requires |coefs| <= i <= result.Length
    ensures s == Predict(coefs, result[..i])
  {
    s := 0;
    var j := 0;
    while j < |coefs|
      invariant 0 <= j <= |coefs|
      invariant s == Predict(coefs[..j], result[..i])
    {
      assert coefs[..j + 1][..j] == coefs[..j];
      s := s + coefs[j] * result[i - j - 1];
      j := j + 1;
    }
    assert coefs[..j] == coefs;
  }
}
