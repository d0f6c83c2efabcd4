/** A metadata block of a type the decoder does not interpret: its body is
    skipped and nothing of it is kept. */
module UnknownBlock {
  import opened Bits
  import opened Reader
  import opened BitStreams

  /** Where skipping `size` bytes from `p` ends: a byte read that keeps nothing. */
  function SkipEnd(u: BitString, p: nat, size: nat): (e: nat)
    requires p <= |u|
    ensures p <= e <= |u|
  {
    TakeBytes(u, p, size).next
  }

  /** `Unknown.__init__`: `read_bytes(size)`, result dropped. */
  method SkipUnknown(s: BitStream, size: nat)
    requires s.Valid()
    modifies s
    ensures s.Valid() && s.Consumed() == SkipEnd(s.bits, old(s.Consumed()), size)
  {
    var _ := s.ReadBytes(size);
  }

  /** On a block that starts on a byte boundary of an input of whole bytes,
      skipping moves on by exactly `size` bytes, or to the end of the input
      when fewer are left. */
  lemma SkipMovesBytes(d: seq<Byte>, i: nat, size: nat)
    requires i <= |d|
    ensures SkipEnd(BytesBits(d), 8 * i, size) == 8 * Min(i + size, |d|)
  {
    TakeBytesOfBytes(d, i, size, Min(i + size, |d|));
  }
}
