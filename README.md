# FLAC decoding core of hexlify/flac, modelled in Dafny

This project models the decoding core of the `flac` package:

- the bit reader `BitStream`, including `read_bytes` and `read_rice_int`;
- the metadata parser `Metadata`: the `fLaC` marker, block headers, the
  dispatch on the block type, and the STREAMINFO, APPLICATION, VORBIS_COMMENT,
  PICTURE and unknown block readers;
- the older bytes-based STREAMINFO reader;
- the frame decoder of `flac/main.py`: the frame header, the subframes, linear
  prediction, Rice-coded residuals, left/side and right/side decorrelation;
- the WAV header arithmetic of `convert_to_wav`.

## How the model is built

- **A class and a function for each read.** `BitStreams.BitStream` is a class
  with the source's fields: the byte source, its position, `_bitbuffer` and
  `_bitbufferlen`. Each Python read becomes a method that updates these fields.
  For each such read there is also a pure reader function, `TakeX(u, p, ...)`.
  Its input `u` is the bits of the whole input and `p` is the position of the
  first unread bit. It gives `Ok(Read(value, next))` or the error the Python
  code raises.
- **How they are tied.** Every read method is tied to its `TakeX` function,
  through `s.Yields(r, TakeX(...))` or a direct equation on its result and the
  new position. `ReadUint` is tied directly to `BitsValue` and `EndOfInput`.
  `Yields` says that the method's result is the function's value and that the
  stream has moved to the function's `next`. The helper methods of the reads,
  such as `Fill`, `Drain` and `ClearBuffer`, and the methods that rework
  samples state their own new state outright. Properties of whole parsers are
  proved as lemmas about the `Take` functions.
- **Loops.** The loops of the source stay loops, proved against these
  functions with invariants. Examples: the buffer fill of `read_uint`, the
  unary count, the warm-up, coefficient and Rice comprehensions, the partition
  loop, the channel loops, the LPC restore loop and the metadata block loop.
- **Exceptions.** Every Python exception on the modelled paths is an `Error`
  value:
  - `EOFError`;
  - `ValueError` for a bad marker, sync code, channel assignment, coding
    method or partition count;
  - `ValueError` for a negative shift count, in `read_sint` with a width of 0
    or less (`NegativeShift`);
  - `ValueError` for a subframe type other than LPC (`UnsupportedSubframe`);
  - `ValueError` when the APPLICATION or legacy STREAMINFO constructor gets a
    payload whose length differs from the declared one (`LengthMismatch`);
  - `KeyError` for a picture type;
  - `UnicodeDecodeError`;
  - the two-way unpack of `split('=')`;
  - `struct.error`;
  - the `UnboundLocalError` of block size code 0;
  - the length `assert`.
- **Integers.** Integers are unbounded as in Python. `<<` and `>>` are written
  as repeated doubling and floor-halving, and are proved equal to `* 2^n` and
  floor division. Python's `>>` rounds toward minus infinity, which is what
  Dafny's `/` does for a positive divisor.

Where the code departs from the FLAC format (RFC 9639), the model follows the
code:

- **Mid/side.** RFC 9639, section 9.1.3, puts mid/side at channel assignment
  10. The code tests for assignment `1`, which the `0 <= x <= 7` branch has
  already taken, so assignment 10 raises.
- **Other subframe types.** Constant, verbatim and fixed-predictor subframes
  (RFC 9639, section 9.2.1) raise in the code. Only LPC subframes (types 32
  and up) are decoded.
- **First block.** The format requires STREAMINFO first. The code takes
  whatever block comes first. The accessors then fail with `MissingField`,
  the model of the resulting `AttributeError`.

`read_bytes` and `read_rice_int` are called by the code but not defined in
`bit_stream.py`:

- **`read_bytes(n)`** is modelled as aligning to a byte, then taking up to
  `n` bytes. At the end of the input it returns the bytes that are left, as a
  Python file's `read(n)` does. The picture test vector depends on this: its
  image length field asks for 0x000A2243 bytes and two are present.
- **`read_rice_int(k)`** is modelled as the Rice code of RFC 9639, section
  9.2.7, that the tests expect: zero bits up to a one bit, `k` remainder
  bits, then zigzag decoding.

The wasted-bits count follows the code: it starts at 1 and adds one for each
zero bit before the next one bit. This is the unary code of RFC 9639,
section 9.2.2.

## Model

A row that begins "defines" names a function that only computes. The lemma named in that row states its property.

| member | source | states |
|---|---|---|
| `BitStreams.BitStream.constructor` | flac/meta/bit_stream.py:6-9 | a new reader has read nothing; its buffer is empty |
| `BitStreams.BitStream.ReadUint` | flac/meta/bit_stream.py:11-24 | with `n` bits left, gives the next `n` bits most significant first and advances by `n`; otherwise fails with EOFError |
| `BitStreams.BitStream.Fill` | flac/meta/bit_stream.py:14-20 | pulls whole bytes without consuming bits; succeeds exactly when `n` bits remain, leaving between `n` and `n + 7` buffered |
| `BitStreams.BitStream.Drain` | flac/meta/bit_stream.py:21-24 | hands out the top `n` buffered bits, keeps the rest, and leaves fewer than 8 buffered |
| `BitStreams.BitStream.ReadSint` | flac/meta/bit_stream.py:39-44 | behaves as `TakeSint`: two's complement of `n` bits; a width of 0 or less raises |
| `BitStreams.BitStream.ClearBuffer` | flac/meta/bit_stream.py:46-48 | empties the buffer and moves the position to the next byte boundary |
| `BitStreams.BitStream.ReadBytes` | flac/meta/metadata.py:29 | aligns, then gives what `TakeBytes` gives: up to `n` whole bytes |
| `BitStreams.BitStream.ReadByte` | flac/meta/bit_stream.py:26-36 | aligns, then gives the next byte, or -1 at the end of the input |
| `BitStreams.BitStream.ReadRiceInt` | flac/main.py:158-159 | behaves as `TakeRice` |
| `BitStreams.BitStream.ReadUnary` | flac/main.py:158-159 | counts exactly the zero bits before the next one bit and consumes that one bit too; fails when no one bit follows |
| `BitStreams.PullByte` | flac/meta/bit_stream.py:19-20 | shifting the buffer up eight bits and or-ing in the next byte appends that byte's bits to the buffered ones |
| `BitStreams.TakeBuffered` | flac/meta/bit_stream.py:22-23 | the shift-and-mask gives the top `n` buffered bits, and the second mask keeps exactly the bits after them |
| `Bits.ShiftLeftMul` | flac/main.py:109 | `x << n` is `x * 2^n` |
| `Bits.ShiftRightDiv` | flac/main.py:126 | `x >> n` is `x` divided by `2^n`, rounded toward minus infinity |
| `Bits.LeadingZerosMeaning` | flac/main.py:94-96 | the counted run is all zero bits, and it stops at a one bit or at the end |
| `Bits.LeadingZerosAt` | flac/main.py:94-96 | a run of `q` zero bits ended by a one bit or the end is counted as exactly `q` |
| `Bits.BitsValueOfBytes` | flac/blocks/streaminfo.py:14-16 | the bits of whole bytes read as one number are their big-endian value (`struct` `>H`, `>I`) |
| `Bits.LittleEndianRoundTrip` | main.py:24 | `pack('<I', v)` followed by unpacking gives back every `v` below 2^32 |
| `Reader.TakeUint` | flac/meta/bit_stream.py:11-24 | succeeds exactly when `n` bits remain and moves on by `n`; otherwise EOFError |
| `Reader.TakeUintBound` | flac/meta/bit_stream.py:22 | an `n`-bit read is below `2^n` |
| `Reader.SplitRead` | flac/meta/bit_stream.py:11-24 | reading `a` bits then `b` bits gives the high and low parts of one `a + b` bit read and stops at the same place |
| `Reader.TakeSint` | flac/meta/bit_stream.py:39-44 | fails exactly for a width of 0 or less (negative shift) or too few bits; otherwise moves on by the width |
| `Reader.Signed` | flac/meta/bit_stream.py:43 | defines the two's complement value of an `n`-bit field; `Reader.SintRange` states its range and that it equals the shift-and-subtract formula of `read_sint` |
| `Reader.SintRange` | flac/meta/bit_stream.py:43 | `res - (res >> (n - 1) << n)` is the two's complement value and lies in `-2^(n-1) .. 2^(n-1) - 1` |
| `Reader.Align` | flac/meta/bit_stream.py:46-48 | dropping the buffered bits moves fewer than 8 bits forward, to where a whole number of bytes is left |
| `Reader.AlignBytes` | flac/meta/bit_stream.py:46-48 | on whole-byte input the aligned position is a byte boundary, and an aligned position stays put |
| `Reader.AlignIdempotent` | flac/meta/bit_stream.py:46-48 | clearing the buffer twice is clearing it once |
| `Reader.TakeBytes` | flac/meta/blocks/picture.py:52-53 | after aligning, gives `min(n, bytes left)` bytes and ends after them |
| `Reader.TakeByteOrEnd` | flac/meta/bit_stream.py:26-36 | a value in -1..255; -1 exactly at the end of the aligned input; moves on one byte otherwise |
| `Reader.AlignedReads` | flac/meta/bit_stream.py:32 | byte reads ignore a partly read byte: reading at the aligned position is the same read |
| `Reader.ZigZag` | flac/main.py:158-159 | even folded values decode to `v / 2 >= 0` and odd ones to `-(v + 1) / 2 < 0` |
| `Reader.TakeRice` | flac/main.py:158-159 | succeeds exactly when a one bit and `k` more bits follow the zero run; ends right after them |
| `Reader.FoldParts` | flac/main.py:158-159 | folding `q` shifted up by `k` with a remainder below `2^k` loses nothing: both come back out |
| `Reader.TakeSints` | flac/main.py:115-116 | a successful run gives exactly `count` numbers |
| `Reader.TakeRices` | flac/main.py:158-159 | a successful run gives exactly `count` numbers and stays inside the input |
| `Reader.UnZigZag` | flac/main.py:158-159 | the folding of a signed residual: zigzag decoding its result gives the integer back |
| `Reader.ZigZagBijection` | flac/main.py:158-159 | zigzag decoding and folding undo each other both ways, so every integer has exactly one folded value |
| `Reader.RiceRoundTrip` | flac/main.py:158-159 | the Rice code of any integer with any `k`, read wherever it sits, gives that integer back and ends right after the code |
| `Reader.RiceCodeOfDecode` | flac/main.py:158-159 | the bits a successful Rice read consumes are exactly the Rice code of the value it returns |
| `Reader.TakeLittleEndian32` | flac/meta/blocks/vorbis_comment.py:14 | `unpack('<I', read_bytes(4))` succeeds exactly when four whole bytes remain after aligning; otherwise `struct.error` |
| `Residuals.PartitionLength` | flac/main.py:149-151 | every partition after the first has the partition size; the first has that size less the predictor order, or none when the order is larger |
| `Residuals.SplitsEvenlyMod` | flac/main.py:141-143 | halving the block size `order` times without a remainder is the same as `block_size % (1 << order) == 0`, both ways |
| `Residuals.PartitionSizeExact` | flac/main.py:141-149 | when the block size divides evenly, `2^order` partitions of `block_size >> order` samples make up the block exactly |
| `Residuals.TakeParameter` | flac/main.py:153-156 | reads the parameter field, plus five more bits on the escape code |
| `Residuals.ParameterRange` | flac/main.py:153-156 | the parameter is the field unless that is the escape code, in which case it is the next five bits; always below 32 |
| `Residuals.TakePartition` | flac/main.py:153-159 | a partition gives exactly `len` residuals |
| `Residuals.TakePartitions` | flac/main.py:148-159 | the partitions are read in order and stay inside the input |
| `Residuals.TakeResiduals` | flac/main.py:132-161 | a successful residual read covers at least its 6 header bits |
| `Residuals.SpanValue` | flac/main.py:148-151 | the partitions together hold `count * size` values less the first partition's warm-up part |
| `Residuals.PartitionsLength` | flac/main.py:148-159 | the values read are exactly as many as the partitions hold |
| `Residuals.ResidualsLength` | flac/main.py:141-159 | the residual has `block_size - min(order, partition size)` values |
| `Residuals.BlockCovered` | flac/main.py:141-151 | on an evenly split block, the partitions hold the block less the first partition's warm-up part |
| `Residuals.ReadParameter` | flac/main.py:153-156 | behaves as `TakeParameter` |
| `Residuals.ReadPartition` | flac/main.py:153-159 | behaves as `TakePartition` |
| `Residuals.ReadResiduals` | flac/main.py:132-161 | behaves as `TakeResiduals` |
| `Residuals.ReadPartitions` | flac/main.py:148-159 | the partition loop behaves as `TakePartitions` |
| `SampleReads.ReadSints` | flac/main.py:115-116 | the comprehension of `read_sint` calls behaves as `TakeSints` |
| `SampleReads.ReadRices` | flac/main.py:158-159 | the comprehension of `read_rice_int` calls behaves as `TakeRices` |
| `Lpc.Restore` | flac/main.py:122-127 | the decoded samples are the warm-up samples followed by one sample per residual |
| `Lpc.RestorePrefix` | flac/main.py:122-127 | sample `i` depends only on the residuals before it: decoding a prefix of the residuals gives a prefix of the samples |
| `Lpc.Predict` | flac/main.py:125-126 | defines the prediction sum `coef[0] * sample[i - 1] + coef[1] * sample[i - 2] + ...`; its property is stated by `Lpc.RestoreRecurrence` |
| `Lpc.NextSample` | flac/main.py:125-127 | defines one restored sample: the prediction shifted right by `shift`, plus the residual; its property is stated by `Lpc.RestoreRecurrence` |
| `Lpc.RestoreRecurrence` | flac/main.py:123-127 | the output starts with the warm-up samples, and sample `i` is `(sum of coef[j] * sample[i - j - 1]) >> shift` plus residual `i - order` |
| `Lpc.RestoreResiduals` | flac/main.py:122-127 | decoding inverts encoding: the warm-up samples and the residuals of any samples give back exactly those samples |
| `Lpc.RestoreSamples` | flac/main.py:122-127 | the in-place loop over `result` computes `Restore` |
| `Lpc.Sum` | flac/main.py:125 | the generator sum over the coefficients is the prediction from the samples before `i` |
| `Subframes.TakeWasted` | flac/main.py:93-97 | with the flag clear, the count is 0 and nothing is read; it fails only at the end of input; it moves on by the count |
| `Subframes.WastedMeaning` | flac/main.py:93-97 | with the flag set, the count exists exactly when a one bit follows, and it is one more than the zero bits before that bit |
| `Subframes.Shifted` | flac/main.py:108-109 | defines each sample shifted left by the wasted bits and keeps the length; `Subframes.ShiftedUndo` states what the shift preserves |
| `Subframes.ShiftedUndo` | flac/main.py:108-110 | shifting left by the wasted bits puts that many zero bits below each sample and loses nothing; no shift changes nothing |
| `Subframes.TakeLpc` | flac/main.py:113-129 | a decoded LPC subframe stays inside the input |
| `Subframes.TakeQuantization` | flac/main.py:117-118 | precision and shift, then the rest, inside the input |
| `Subframes.TakeLpcRest` | flac/main.py:119-129 | coefficients and residual, then prediction; a negative shift raises once there is a residual to shift for |
| `Subframes.TakeSubframe` | flac/main.py:88-110 | a decoded subframe has type 32 or more and covers its 8 header bits |
| `Subframes.TakeSubframeBody` | flac/main.py:97-110 | types below 32 raise; otherwise LPC of order `type - 31` at `bps - wasted`, shifted back by the wasted bits |
| `Subframes.SubframeAt` | flac/main.py:90-104 | after the header byte come the wasted bits and the body; the LPC order is 1..32 |
| `Subframes.LpcRestLength` | flac/main.py:119-129 | the warm-up samples and the residual after them make at least a block of samples |
| `Subframes.QuantizationLength` | flac/main.py:117-129 | a decoded LPC body after its quantization fields has at least a block of samples |
| `Subframes.SubframeBodyLength` | flac/main.py:97-110 | a decoded subframe body has at least a block of samples |
| `Subframes.SubframeLength` | flac/main.py:88-110 | a decoded subframe has at least a block of samples, so the left/side and right/side loops stay inside both channels |
| `Subframes.ReadLpc` | flac/main.py:113-129 | behaves as `TakeLpc` |
| `Subframes.ReadQuantization` | flac/main.py:117-118 | behaves as `TakeQuantization` |
| `Subframes.ReadLpcRest` | flac/main.py:119-129 | behaves as `TakeLpcRest` |
| `Subframes.ReadWasted` | flac/main.py:93-97 | the `while read_uint(1) == 0` loop behaves as `TakeWasted` |
| `Subframes.ReadSubframe` | flac/main.py:88-110 | behaves as `TakeSubframe` |
| `Subframes.ReadSubframeBody` | flac/main.py:97-110 | behaves as `TakeSubframeBody` |
| `Frames.LeadingOnesDouble` | flac/main.py:27 | `(temp << 1) & 0xFF` drops exactly one leading one bit |
| `Frames.TwoLeadingOnes` | flac/main.py:25 | `temp >= 0b11000000` holds exactly when the byte starts with two one bits |
| `Frames.SkipStep` | flac/main.py:25-27 | each pass of the skip loop leaves one extra byte fewer, so the loop ends |
| `Frames.CodedNumberLengths` | flac/main.py:24-27 | the first byte decides how many bytes are skipped: none below 0xC0, 1 to 7 for 110xxxxx to 0xFF |
| `Frames.TakeCodedNumber` | flac/main.py:24-27 | the coded number takes its first byte and the bytes the loop skips; it fails only at the end of input |
| `Frames.BlockSizeOf` | flac/main.py:29-38 | defines the block size of a code and the field read for codes 6 and 7; `Frames.BlockSizeTable` states it code by code |
| `Frames.BlockSizeTable` | flac/main.py:29-38 | each block size code's value: 192, 576 doubled, the 8- or 16-bit field plus one, 256 doubled; code 0 leaves the block size unbound |
| `Frames.TakeFrameHeader` | flac/main.py:10-45 | a header is read only behind the sync code 0x3FFE; it spans at least 48 bits; the channel assignment is bits 24-27 |
| `Frames.TakeHeaderRest` | flac/main.py:29-45 | reads the optional block size and sample rate fields and the CRC-8; fails only at the end of input |
| `Frames.LeftSide` | flac/main.py:65-66 | defines the left/side loop that replaces the side sample with `left - side`; `Frames.LeftSideRoundTrip` states that it restores the right channel |
| `Frames.LeftSideRoundTrip` | flac/main.py:62-67 | left/side decoding gets the right channel back from the left channel and `left - right` |
| `Frames.RightSide` | flac/main.py:72-73 | defines the right/side loop that adds the right sample to the side sample; `Frames.RightSideRoundTrip` states that it restores the left channel |
| `Frames.RightSideRoundTrip` | flac/main.py:69-74 | right/side decoding gets the left channel back from `left - right` and the right channel |
| `Frames.MidSideLeft` | flac/main.py:81 | defines the left sample from mid and side; `Frames.MidSideRoundTrip` states that it inverts the encoder |
| `Frames.MidSideRight` | flac/main.py:82 | defines the right sample from mid and side; `Frames.MidSideRoundTrip` states that it inverts the encoder |
| `Frames.MidSideRoundTrip` | flac/main.py:76-83 | the mid/side formulas invert `mid = (left + right) >> 1`, `side = left - right` |
| `Frames.TakeSubframes` | flac/main.py:58-60 | a successful run gives exactly `count` subframes |
| `Frames.SubframesFail` | flac/main.py:58-60 | once a subframe fails, decoding more subframes fails with that same error |
| `Frames.TakeChannels` | flac/main.py:56-85 | assignments 0-7 give that many channels plus one, and 8 and 9 give two; anything above 9 raises before reading |
| `Frames.TakeLeftSide` | flac/main.py:62-67 | left, then the side channel one bit wider; two channels |
| `Frames.TakeRightSide` | flac/main.py:69-74 | the side channel one bit wider, then right; two channels |
| `Frames.TakeFrame` | flac/main.py:10-53 | a decoded frame spans at least its 48 header bits |
| `Frames.TakeFrameBody` | flac/main.py:47-53 | a decoded frame has one channel per assigned channel and every channel exactly `block_size` samples |
| `Frames.FrameShape` | flac/main.py:47-53 | a decoded frame has a bound block size, an assignment of at most 9, and that many channels of that many samples |
| `Frames.SkipCodedNumber` | flac/main.py:24-27 | the skip loop behaves as `TakeCodedNumber` |
| `Frames.ReadFrameHeader` | flac/main.py:11-45 | behaves as `TakeFrameHeader` |
| `Frames.ReadHeaderCodes` | flac/main.py:15-21 | reads 18 bits and gives the block size, sample rate and channel assignment codes |
| `Frames.ReadHeaderRest` | flac/main.py:29-45 | behaves as `TakeHeaderRest` |
| `Frames.ReadBlockSizeField` | flac/main.py:33-36 | reads 8 bits for code 6, 16 for code 7, none otherwise |
| `Frames.ReadRateField` | flac/main.py:40-43 | reads 8 bits for code 12, 16 for codes 13 and 14, none otherwise |
| `Frames.ReadSubframes` | flac/main.py:58-60 | the comprehension of subframe decodes behaves as `TakeSubframes` |
| `Frames.UndoLeftSide` | flac/main.py:65-66 | the in-place loop computes `left - side` on the first `block_size` samples |
| `Frames.UndoRightSide` | flac/main.py:72-73 | the in-place loop computes `side + right` on the first `block_size` samples |
| `Frames.ReadChannels` | flac/main.py:56-85 | behaves as `TakeChannels` |
| `Frames.ReadLeftSide` | flac/main.py:62-67 | behaves as `TakeLeftSide` |
| `Frames.ReadRightSide` | flac/main.py:69-74 | behaves as `TakeRightSide` |
| `Frames.CheckLengths` | flac/main.py:52-53 | the loop of asserts passes exactly when every channel has `block_size` samples |
| `Frames.DecodeFrame` | flac/main.py:10-53 | behaves as `TakeFrame` |
| `Frames.ReadFrameBody` | flac/main.py:47-53 | behaves as `TakeFrameBody` |
| `Metadata.TakeHeader` | flac/meta/metadata.py:49-52 | a header needs 32 bits; its type is below 128 and its size below 2^24 |
| `Metadata.TakeBody` | flac/meta/metadata.py:54-56 | types 0, 2, 4 and 6 and only they give their block kinds; every other type is skipped by `size` bytes |
| `Metadata.TakeBlock` | flac/meta/metadata.py:49-56 | a block covers at least its 32-bit header |
| `Metadata.TakeBlocks` | flac/meta/metadata.py:39-47 | the block list is never empty and every block moves the position forward |
| `Metadata.OnlyLastIsLast` | flac/meta/metadata.py:39-47 | the last block read has the last-block flag and no block before it has |
| `Metadata.ParseMetadata` | flac/meta/metadata.py:22-34 | defines parsing a file's bytes: the `fLaC` marker, then the blocks, the first as STREAMINFO; `Metadata.MarkerRequired` and `Metadata.MetadataLastFlag` state its properties |
| `Metadata.MarkerRequired` | flac/meta/metadata.py:29-30 | parsing succeeds only after the four bytes `fLaC`; anything else fails with `NotFlac` |
| `Metadata.MetadataLastFlag` | flac/meta/metadata.py:32-34 | the first block is flagged last exactly when there are no other blocks; otherwise only the last of `_blocks` is |
| `Metadata.StreamInfoIgnoresSize` | flac/meta/blocks/streaminfo.py:8-19 | a STREAMINFO body does not depend on the size its header declares |
| `Metadata.SampleWidth` | flac/meta/metadata.py:70-72 | the first block's bits per sample; fails exactly when the first block is not STREAMINFO |
| `Metadata.FrameRate` | flac/meta/metadata.py:74-76 | the first block's sample rate; fails exactly when the first block is not STREAMINFO |
| `Metadata.Channels` | flac/meta/metadata.py:78-80 | the first block's channel count; fails exactly when the first block is not STREAMINFO |
| `Metadata.AccessorRanges` | flac/meta/metadata.py:70-80 | the channel count is in 1..8 and the sample width in 1..32 |
| `Metadata.Pictures` | flac/meta/metadata.py:82-84 | the filter keeps only picture blocks |
| `Metadata.PicturesMembers` | flac/meta/metadata.py:82-84 | a block is among the pictures exactly when it is a picture block of `_blocks` |
| `Metadata.PicturesConcat` | flac/meta/metadata.py:82-84 | the filter keeps the order of the blocks |
| `Metadata.ReadMetadata` | flac/meta/metadata.py:22-34 | reading a file's bytes gives `ParseMetadata` of them |
| `Metadata.ReadBlocks` | flac/meta/metadata.py:39-47 | the `while True` loop behaves as `TakeBlocks` |
| `Metadata.ReadBlock` | flac/meta/metadata.py:49-56 | behaves as `TakeBlock` |
| `Metadata.ReadHeader` | flac/meta/metadata.py:49-52 | behaves as `TakeHeader` |
| `Metadata.ReadBody` | flac/meta/metadata.py:54-56 | the dispatch behaves as `TakeBody` |
| `StreamInfoBlock.Decoded` | flac/meta/blocks/streaminfo.py:16-17 | the channel count and the sample width are their stored codes plus one |
| `StreamInfoBlock.TakeStreamInfo` | flac/meta/blocks/streaminfo.py:11-19 | the body fails exactly when fewer than 144 bits remain, with EOFError |
| `StreamInfoBlock.StreamInfoRanges` | flac/meta/blocks/streaminfo.py:16-19 | the channel count is in 1..8, the sample width in 1..32, and the signature at most 16 bytes |
| `StreamInfoBlock.ReadStreamInfo` | flac/meta/blocks/streaminfo.py:8-19 | behaves as `TakeStreamInfo` |
| `StreamInfoBlock.StreamInfoOfBytes` | flac/meta/blocks/streaminfo.py:11-19 | over bytes, the sizes are big-endian byte groups, the other fields bit fields of bytes 10-17, and the signature is bytes 18-34 |
| `LegacyStreamInfo.ParseLegacyStreamInfo` | flac/blocks/streaminfo.py:9-19 | fails exactly on a length mismatch or fewer than 18 bytes; keeps the length and the flag; the signature is everything after byte 18 |
| `LegacyStreamInfo.BigEndianLeadingZero` | flac/blocks/streaminfo.py:15-16 | unpacking `b'\x00' + three bytes` as `>I` is the three bytes' big-endian value |
| `LegacyStreamInfo.LegacyAgrees` | flac/blocks/streaminfo.py:14-19 | on the same 34 bytes both readers agree, except that the older one keeps the channel count and the sample width minus one |
| `ApplicationBlock.ParseApplication` | flac/meta/blocks/application.py:5-11 | fails exactly on a length mismatch or an identifier that is not UTF-8; the identifier and the payload split the data |
| `ApplicationBlock.ApplicationOfParts` | flac/meta/blocks/application.py:5-11 | any valid 4-byte identifier and any payload parse back into themselves |
| `ApplicationBlock.SonyApplication` | tests/test_metadata.py:91-97 | `SONYapplicationdata` gives identifier `SONY` and payload `applicationdata` |
| `UnknownBlock.SkipEnd` | flac/meta/blocks/unknown.py:6-9 | skipping stays inside the input |
| `UnknownBlock.SkipUnknown` | flac/meta/blocks/unknown.py:6-9 | the reader moves to where skipping `size` bytes ends |
| `UnknownBlock.SkipMovesBytes` | flac/meta/blocks/unknown.py:6-9 | on a byte boundary, skipping moves exactly `size` bytes, or to the end of the input |
| `PictureBlock.PictureTypeName` | flac/meta/blocks/picture.py:7-39 | the lookup succeeds exactly for codes 0 to 20 |
| `PictureBlock.PictureTypeNamesDistinct` | flac/meta/blocks/picture.py:7-29 | distinct codes have distinct names |
| `PictureBlock.TakeText` | flac/meta/blocks/picture.py:41-45 | a text read gives valid UTF-8 after its 32-bit length, or fails at the end of input or on bad UTF-8 |
| `PictureBlock.TakeBlob` | flac/meta/blocks/picture.py:52-53 | the image read fails exactly when the 32-bit length is cut short |
| `PictureBlock.TakeDimensions` | flac/meta/blocks/picture.py:47-50 | four 32-bit fields; fails exactly when fewer than 128 bits remain |
| `PictureBlock.TakePicture` | flac/meta/blocks/picture.py:38-53 | a picture spans at least its eight 32-bit numbers; MIME type and description are valid UTF-8 |
| `PictureBlock.TakePictureRest` | flac/meta/blocks/picture.py:44-53 | keeps the type and the MIME type read before it; the description is valid UTF-8 |
| `PictureBlock.ReadText` | flac/meta/blocks/picture.py:41-45 | behaves as `TakeText` |
| `PictureBlock.ReadBlob` | flac/meta/blocks/picture.py:52-53 | behaves as `TakeBlob` |
| `PictureBlock.ReadDimensions` | flac/meta/blocks/picture.py:47-50 | behaves as `TakeDimensions` |
| `PictureBlock.ReadPicture` | flac/meta/blocks/picture.py:38-53 | behaves as `TakePicture` |
| `PictureBlock.ReadPictureRest` | flac/meta/blocks/picture.py:44-53 | behaves as `TakePictureRest` |
| `PictureBlock.PictureLength` | flac/meta/blocks/picture.py:38-53 | on a byte boundary, a picture takes 32 bytes of numbers plus its two texts and its image |
| `PictureBlock.PictureRestLength` | flac/meta/blocks/picture.py:44-53 | the part after the MIME type takes 24 bytes of numbers plus the description and the image |
| `PictureBlock.PrefixedLength` | flac/meta/blocks/picture.py:41-42 | a length-prefixed string takes 4 bytes plus its bytes |
| `PictureBlock.PictureRoundTrip` | flac/meta/blocks/picture.py:38-53 | for any type code 0 to 20, valid UTF-8 MIME type and description, and numbers and lengths below 2^32, the big-endian bytes `PictureBytes(code, v)` found anywhere in the input read back as exactly `v`, its type being the code's name, ending right after the image |
| `VorbisCommentBlock.SplitComment` | flac/meta/blocks/vorbis_comment.py:23 | the split succeeds exactly when the comment holds exactly one `=` |
| `VorbisCommentBlock.SplitCommentParts` | flac/meta/blocks/vorbis_comment.py:23 | name, `=` and value rebuild the comment, and neither part holds `=` |
| `VorbisCommentBlock.SplitJoined` | flac/meta/blocks/vorbis_comment.py:23 | a name and a value without `=`, joined by `=`, split back into them |
| `VorbisCommentBlock.SplitCommentValid` | flac/meta/blocks/vorbis_comment.py:22-23 | the parts of a valid UTF-8 comment are valid UTF-8 |
| `VorbisCommentBlock.TakeText` | flac/meta/blocks/vorbis_comment.py:14-15 | a text read gives valid UTF-8 after its 4-byte length, or fails on a short length or bad UTF-8 |
| `VorbisCommentBlock.TakeComment` | flac/meta/blocks/vorbis_comment.py:21-23 | a comment takes at least its 4-byte length |
| `VorbisCommentBlock.TakeComments` | flac/meta/blocks/vorbis_comment.py:20-23 | a successful run gives exactly `count` comments |
| `VorbisCommentBlock.AddTag` | flac/meta/blocks/vorbis_comment.py:25-27 | one pass of the loop adds the comment's name to the names and keeps the others |
| `VorbisCommentBlock.TakeTags` | flac/meta/blocks/vorbis_comment.py:18-27 | the map of the comments read stays inside the input |
| `VorbisCommentBlock.TakeVorbisComment` | flac/meta/blocks/vorbis_comment.py:13-27 | the vendor string is valid UTF-8 and the block takes at least its two lengths |
| `VorbisCommentBlock.ReadLittleEndian32` | flac/meta/blocks/vorbis_comment.py:14 | behaves as `TakeLittleEndian32` |
| `VorbisCommentBlock.ReadText` | flac/meta/blocks/vorbis_comment.py:21-22 | behaves as `TakeText` |
| `VorbisCommentBlock.ReadComment` | flac/meta/blocks/vorbis_comment.py:21-23 | behaves as `TakeComment` |
| `VorbisCommentBlock.ReadVorbisComment` | flac/meta/blocks/vorbis_comment.py:13-27 | behaves as `TakeVorbisComment` |
| `VorbisCommentBlock.ReadTags` | flac/meta/blocks/vorbis_comment.py:18-27 | the `for` loop filling the map behaves as `TakeTags` |
| `VorbisCommentBlock.Tags` | flac/meta/blocks/vorbis_comment.py:25-28 | defines the tag map built from comments in order; `VorbisCommentBlock.TagsHoldValues` states what it holds |
| `VorbisCommentBlock.TagsHoldValues` | flac/meta/blocks/vorbis_comment.py:25-27 | a name is in the map exactly when a comment has it, and its list is all its values in reading order, repeats kept |
| `VorbisCommentBlock.TagsCount` | flac/meta/blocks/vorbis_comment.py:20-27 | every comment read adds exactly one value to the map |
| `VorbisCommentBlock.VorbisRoundTrip` | flac/meta/blocks/vorbis_comment.py:13-27 | a block written from a valid vendor and comments with one `=` each reads back as that vendor and the map of those comments, ending after the last counted comment whatever follows |
| `Utf8.CharLength` | flac/meta/blocks/vorbis_comment.py:15 | a recognised character is 1 to 4 bytes; one byte exactly for ASCII; continuation bytes are at least 0x80 |
| `Utf8.AsciiValid` | flac/meta/blocks/application.py:10 | ASCII bytes always decode |
| `Utf8.AsciiSplits` | flac/meta/blocks/vorbis_comment.py:23 | splitting valid text at an ASCII byte leaves valid text on both sides |
| `Wav.WavHeader` | main.py:19-32 | the header is 44 bytes; a value too wide for its field makes `pack` fail |
| `Wav.HeaderOverflow` | main.py:24-32 | the header fails exactly when one of the six packed values overflows its field |
| `Wav.RiffLayout` | main.py:21-26 | `RIFF`, the RIFF size `data_len + 36` read back little-endian, `WAVE`, `fmt ` |
| `Wav.FmtLayout` | main.py:27-30 | every `fmt ` field reads back: 16, 1, channels, rate, byte rate, block align, sample width |
| `Wav.DataLayout` | main.py:31-32 | `data` and the data length read back little-endian |
| `Wav.HeaderParts` | main.py:21-32 | the three chunks sit at bytes 0, 16 and 36 |
| `Wav.RiffSize` | main.py:24 | the RIFF size counts every byte after the first eight: the rest of the header and the sample data |
| `Vectors.BitStreamVector` | tests/test_bit_stream.py:9-17 | `read_uint(3)`, `read_uint(8)` and `read_uint(1)` on 0xE5 0x61 0x0F give 0b111, 0b00101011 and 0 |
| `Vectors.BufferVector` | tests/test_bit_stream.py:19-22 | after `read_uint(5)` the buffer holds 0b101 in 3 bits |
| `Vectors.ReadByteVector` | tests/test_bit_stream.py:24-25 | `read_byte()` first gives 0b11100101 |
| `Vectors.AlignVector` | tests/test_bit_stream.py:27-31 | after `read_uint(5)`, `read_byte()` gives 0b01100001 and empties the buffer |
| `Vectors.RiceVector` | tests/test_bit_stream.py:33-41 | five `read_rice_int(4)` on the test bytes give -35, -11, 4, -12 and 8 |
| `Vectors.VorbisVector` | tests/test_metadata.py:51-71 | the test's 16 counted comments read to byte 490 with vendor `reference libFLAC 1.2.1 20141125`, and `GENRE` maps to `Classical`, `Rap`, `Rock` in that order |
| `Vectors.StreamInfoVector` | tests/test_metadata.py:13-27 | the STREAMINFO test bytes give 1152, 1152, 1650, 6130, 96000 Hz, 2 channels, 24 bits and 3828096 samples |
| `Vectors.PictureVector` | tests/test_metadata.py:74-88 | the picture test bytes give "Cover (front)", `image/jpeg`, `Front Cover`, 1200x1200 at depth 24, and the two bytes present as the image |

## Left out

- The CRC-8 and CRC-16 fields are read but not checked, as in the code. The MD5 signature is kept as bytes and never computed.
- `flac/song.py`, `flac/player.py`, `flac/argparser.py`, and the command-line `__main__` blocks of `flac/main.py` and `main.py` are outside the decoding core. They cover playback, argument parsing, printing and cover export.
- Opening and closing files is left out, including `isfile` and the `FileExistsError` of `Metadata.__init__`. The byte content of the file is a parameter instead. `convert_to_wav`'s writes are modelled as the 44 header bytes they produce. The sample chunks and the progress printing after them are left out.
- The `__str__` methods and `get_all_data` are left out. They only format text.
- `bytes.decode('utf-8')` is modelled as a validity predicate. The decoded texts are kept as their UTF-8 bytes, which identify the text one to one.
- BitStreams.BitStream.ReadByte: the source's first branch, taken when eight or more bits are buffered, is left out. That state never occurs between reads, because every read leaves fewer than eight bits buffered.
- Frames.TakeChannels: mid/side decoding is not reachable in the code (see above), so assignment 10 is modelled as the error the code raises. `Frames.MidSideRoundTrip` states the formulas on their own.
- Subframes.TakeSubframeBody: subframe types below 32 are modelled as the error the code raises, not as constant, verbatim or fixed decoding.
- Frames.LeftSide and Frames.RightSide stop at the end of the other channel, where the code would raise `IndexError`. `Subframes.SubframeLength` shows that every decoded channel has at least `block_size` samples, so that case never arises.
- Frames.DecodeFrame returns the decoded channels, while `decode_frame` returns nothing. Its `chanels_count` parameter is unused, as in the code.
- ApplicationBlock.ParseApplication: `Metadata._parse_metadata_block` passes the stream itself where `Application` expects bytes. The model passes the `size` bytes read from the stream instead.
- Metadata.TakeBody: `flac/meta/blocks/__init__.py:1-8` neither imports nor exports `Application`, so building `block_types` at `flac/meta/metadata.py:13` raises `NameError` when the module is imported. The model takes the import as intended and reads type 2 as an APPLICATION block.
- Wav.WavHeader: when a `pack` fails, the file keeps the bytes written before it: the 4 bytes `RIFF` when `data_len + 36` does not fit 32 bits (main.py:21-24), or 16 bytes (`RIFF`, the size, `WAVE`, `fmt `) when a field of the `fmt ` chunk does not fit (main.py:25-30). The model returns only `Err(PackOverflow)`, without those bytes.
- `Flac` (`flac.meta.Flac`) is not part of this model. `Wav.Format` stands for the four properties `convert_to_wav` reads from it.
- The `struct` and `bitstruct` unpacks are re-expressed as big-endian and little-endian arithmetic and bit fields. The `bitstruct` import of `bit_stream.py` is unused there.
