/** The list comprehensions of the frame decoder that read a run of equal-width
    numbers, one stream read per element. */
module SampleReads {
  import opened Reader
  import opened BitStreams

  /** `[stream.read_sint(width) for _ in range(count)]`. */
  method ReadSints(s: BitStream, count: nat, width: int) returns (r: Result<seq<int>>)
    requires s.Valid()
    modifies s
    ensures s.Yields(r, TakeSints(s.bits, old(s.Consumed()), count, width))
  {
    ghost var u := s.bits;
    ghost var start := s.Consumed();
    ghost var at := start;
    var done: seq<int> := [];
    PrependNothing(TakeSints(u, start, count, width));
    var left := count;
    while left > 0
      invariant s.Valid() && at == s.Consumed() && |done| + left == count
      invariant SintsPending(u, start, count, width, done, at, left)
    {
      var x :- s.ReadSint(width);
      SintsStep(u, start, count, width, done, at, left, x, s.Consumed(), left - 1, done + [x]);
      done, at, left := done + [x], s.Consumed(), left - 1;
    }
    assert done + [] == done;
    r := Ok(done);
  }

  /** `[stream.read_rice_int(k) for _ in range(count)]`. */
  method ReadRices(s: BitStream, count: nat, k: nat) returns (r: Result<seq<int>>)
    requires s.Valid()
    modifies s
    ensures s.Yields(r, TakeRices(s.bits, old(s.Consumed()), count, k))
  {
    ghost var u := s.bits;
    ghost var start := s.Consumed();
    ghost var at := start;
    var done: seq<int> := [];
    PrependNothing(TakeRices(u, start, count, k));
    var left := count;
    while left > 0
      invariant s.Valid() && at == s.Consumed()
      invariant RicesPending(u, start, count, k, done, at, left)
    {
      var x :- s.ReadRiceInt(k);
      RicesStep(u, start, count, k, done, at, left, x, s.Consumed(), left - 1, done + [x]);
      done, at, left := done + [x], s.Consumed(), left - 1;
    }
    assert done + [] == done;
    r := Ok(done);
  }

  /** The loop invariant of `ReadSints`: the numbers read so far, then what
      the remaining reads give, are what all `count` reads give. */
  ghost predicate SintsPending(u: seq<bool>, start: nat, count: nat, width: int, done: seq<int>, p: nat, left: nat)
  {
    TakeSints(u, start, count, width) == Prepend(done, TakeSints(u, p, left, width))
  }

  /** The loop invariant of `ReadRices`. */
  ghost predicate RicesPending(u: seq<bool>, start: nat, count: nat, k: nat, done: seq<int>, p: nat, left: nat)
    requires start <= |u| && p <= |u|
  {
    TakeRices(u, start, count, k) == Prepend(done, TakeRices(u, p, left, k))
  }

  /** One more rice code read keeps the loop invariant of `ReadRices`. */
  lemma RicesStep(u: seq<bool>, start: nat, count: nat, k: nat, done: seq<int>, p: nat, left: nat,
                  x: int, next: nat, rest: nat, after: seq<int>)
    requires start <= |u| && p <= |u| && left > 0 && TakeRice(u, p, k) == Ok(Read(x, next))
    requires RicesPending(u, start, count, k, done, p, left)
    requires after == done + [x] && rest == left - 1
    ensures next <= |u| && RicesPending(u, start, count, k, after, next, rest)
  {
    PrependPrepend(done, [x], TakeRices(u, next, rest, k));
  }

  /** One more number read keeps the loop invariant of `ReadSints`. */
  lemma SintsStep(u: seq<bool>, start: nat, count: nat, width: int, done: seq<int>, p: nat, left: nat,
                  x: int, next: nat, rest: nat, after: seq<int>)
    requires left > 0 && TakeSint(u, p, width) == Ok(Read(x, next))
    requires SintsPending(u, start, count, width, done, p, left)
    requires after == done + [x] && rest == left - 1
    ensures SintsPending(u, start, count, width, after, next, rest)
  {
    PrependPrepend(done, [x], TakeSints(u, next, rest, width));
  }
}
