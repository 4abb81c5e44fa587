# vitni-tensor: a verified model of the reproducible inference path

vitni-tensor promises that the same inputs give the same output bits and a certificate that
binds them. This project models the code that promise rests on, and proves it for all inputs:
the pinned reduction and the fused k-quant kernels, the int8 integer kernels, row-parallel
evaluation, rotary embedding and KV-cached decoding, the generation drivers, the certificate
and its sink, the GGUF reader, and the tokenizers.

## How it is modelled

* **Floats.** A record `Num.Ops<F>` of uninterpreted operations over an arbitrary type `F`.
  Nothing is assumed about `add`, `mul` or `sub`, so "the same term for every `Ops`" is what
  bit-identity means here. Real instances are used only where rounding is the subject: error
  bounds, exactness of the integer kernels, norms.
* **In-place code stays in place.** `fixed_tree` overwrites an array, lanes are an array, the
  kernels fill slices, `RunState` owns two flat caches, the certificate builder and the sink are
  classes, the GGUF cursor moves a position, the merge loops shrink a list. Each such method is
  proved equal to a specification function, and the properties are lemmas about those functions.
* **Layouts and wire formats** are stated twice: as the code computes them, and as an independent
  description of the bytes in plain numbers (`KPacking`, `GgufNumbers`, `ReceiptBytes`, `HexTokens`,
  `CodePoints`), with lemmas that connect the two for all inputs.
* **Integers.** Quantized bytes are 8-bit vectors, so nibble and bit twiddling are the source's
  own. 32-bit accumulators are range-checked types, so every accumulation carries a proof that it
  does not overflow. Counters and `as u32` casts wrap explicitly (`Bytes.Wrap32`).
* **Errors** are `Result` values (`Ok` or `Err`); which error is raised is not distinguished.
* **Text** is UTF-8 as in section 4 of RFC 3629 (`Utf8Text`). The tokenizers take it as bytes or as
  characters, as the source does, and what they promise is stated for all of it.
* **Parameters.** The hash, the f16 decoding, the transcendental functions, the layer functions
  (norms, linears, FFN, softmax) and which of them fail, the argmax, the sink's decisions, the
  reader's test for text, the conversion of bytes that are not UTF-8 and the text of the
  architecture string are arbitrary: every theorem holds for all of them.

| file | subject |
|---|---|
| `Num`, `Index`, `Sums`, `Bytes`, `Lists`, `Codec`, `Utf8Text` | shared vocabulary |
| `FixedTree`, `Canonical`, `ErrorBound` | the pairwise tree, the pinned reduction, its forward error |
| `FusedRow`, `Q4K`, `Q6K`, `KPacking`, `KQuant`, `ShortRow`, `FusedLinear` | block layouts and the packings they are, rows of them, fused dequantize-and-dot kernels, rows that are too short, a whole linear |
| `Q8`, `IntegerQ6K`, `Int8Loss`, `IntegerRow`, `LinearMeaning` | int8 activations, 32-bit integer dots, integer rows and linears, what a linear's entries are |
| `RowParallel`, `LinearSchedules` | row tasks as interleaved steps, and the kernels run by them |
| `Rope`, `RopeReal` | rotations, and over the reals what they do |
| `KvDecode`, `AttentionHeads`, `ResidualStream`, `KvCache` | the cache-free transformer, its heads, its residual stream, the cached step |
| `Leb128`, `Receipt`, `ReceiptBytes`, `Certificate`, `Generate`, `CachedRun` | preimage, one of them in bytes, builder and sink, drivers, the driver over the cached step |
| `GgufFormat`, `GgufNumbers`, `GgufRoundTrip`, `GgufReader` | container, its numbers, printer, cursor |
| `Vocab`, `ScoreMerge`, `MergeRuns`, `MergeApart` | the score-merging loop, its runs, their parts and neighbours |
| `Llama2c`, `Llama2cTexts`, `Llama2cRoundTrip`, `Llama2cChains`, `Llama2cUtf8` | the llama2.c tokenizer: BOS and round trips |
| `Spm`, `SpmRoundTrip`, `HexTokens` | the SentencePiece tokenizer, and the byte tokens of both |
| `Pretokenizer`, `ByteSpelling`, `CodePoints`, `GgufBpe` | byte-level BPE, and the code points behind it |

## Main results

* A certificate issued by the token driver over the cached decode step, started on caches that hold
  anything at all, binds a greedy decoding of the cache-free causal transformer, and every greedy
  decoding within the context is what the driver yields (`CachedRun.TokenRunIsGreedy`, `CachedRun.RunCached`);
  likewise for the prefill driver (`CachedRun.PrefillRunIsGreedy`, `CachedRun.RunCachedPrefill`).
* Two certified runs with one digest asked for the same and produced the same, or exhibit a collision
  of the hash at named byte strings (`Generate.DigestDeterminesRun`).
* Every k-quant block is the packing of scales, mins and quants that the format describes, and its weights
  are those numbers (`KPacking.Q4IsPacked`, `KPacking.Q4Unpacks`, `KPacking.Q6IsPacked`, `KPacking.Q6Unpacks`).
* Attention reads, for query head h, kv head h / (heads per group) and nothing else
  (`AttentionHeads.AttendIs`, `AttentionHeads.ReadsOwnHeadOnly`), and a score depends on the distance of the two
  positions alone (`AttentionHeads.ScoreIsRelative`). The residual stream is the embedding plus what every layer
  adds (`ResidualStream.StreamIsSum`).
* The fused k-quant kernels compute the very term of dequantize-then-dot for all bytes and lengths
  (`KQuant.FusedDotQ4K`, `KQuant.FusedDotQ6K`), serially and under every schedule
  (`LinearSchedules.FusedSchedule`).
* The integer kernels are exact on the quantized activations, never overflow, and lose no more than half
  a quantization step per element (`Q8.DotQ4KQ8Block`, `IntegerQ6K.DotQ6KQ8Block`, `IntegerRow.LinearInteger`).
* Reading a printed GGUF document gives the document back, and the reader is total
  (`GgufRoundTrip.ParsePrint`, `GgufReader.ParseFile`).
* A list of llama2.c tokens is the encoding of what it spells exactly when each of its tokens, and each
  two neighbours, are (`Llama2cChains.NeighboursExactly`). So the vocabularies that keep BOS in front of
  every text, and those under which every text survives a round trip, are characterised exactly, over
  all of UTF-8, by walks in the finite graph of neighbouring pairs (`Llama2cUtf8.BosSurvivesUtf8Exactly`,
  `Llama2cUtf8.Utf8RoundTripsExactly`).
* SentencePiece decoding undoes encoding, and byte-level BPE decoding undoes encoding, for stated texts
  and vocabularies (`SpmRoundTrip.RoundTripExactly`, `GgufBpe.DecodeEncode`).

## Findings

Places where the code does not do what one might expect, each with a proved statement:

* src/ops/quant.rs:683-752: `canonical_dot_q4k_fused` does not check that the weight row covers `n`. What
  it returns is the dot of everything the row holds, under every arithmetic, exactly when the row covers
  `n` or holds a multiple of 8192 weights (`ShortRow.FusedIsWholeDotExactly`); 256 weights of 1.0 asked
  for 512 terms give 0 instead of 256 (`ShortRow.OneBlockIsLost`). The Q6_K kernel rejects such a row
  (src/ops/quant.rs:1361-1363, `KQuant.FusedDotQ6K`).
* src/model/inference.rs:359-372 and 430-440: the prefill driver is not equivalent to the token driver in
  general. The token driver also runs the argmax on every earlier prompt position and fails if one of
  those fails (`Generate.PrefillCanSucceedAlone`); it succeeds exactly when the prefill driver does and no
  early argmax fails (`Generate.PrefillTransparent`).
* src/model/inference.rs:359-373: the token picked after the last prompt token is fed to the model but not
  recorded, so the output starts one position later (`CachedRun.TokenRunIsGreedy`).
* src/model/inference.rs:342: `n_new_tokens` is bound modulo 2^32. The inputs determine it exactly up to
  that (`Generate.InputsBindCountModulo`); the length of the bound output determines it fully
  (`Generate.BoundDeterminesRun`).
* src/model/gguf.rs:101-104: documentation of `GgufTensorType::Other` says unsupported tensor types are
  kept for the caller to judge. The code fails the whole file on the first one
  (`GgufRoundTrip.UnsupportedTypeRejected`), for every file front that lists one, whatever follows
  (`GgufRoundTrip.UnsupportedFiles`; one file in `GgufRoundTrip.UnsupportedExample`).
* src/model/gguf.rs:141-145: documentation of `bytes_for_numel` says that the size of block-quantized types is
  rounded up to a whole block. The code refuses a broken block, and otherwise the size is exact
  (`GgufNumbers.TensorSizes`).
* src/tokenizer/llama2c.rs:115-122: the merge loop starts at the BOS token, which can therefore be merged
  away (`Llama2c.BosCanBeMerged`: the text `a`). BOS survives every UTF-8 text exactly when no vocabulary
  entry that can stand in its place leads a list of neighbours to the end of a text
  (`Llama2cUtf8.BosSurvivesUtf8Exactly`). Where multi-byte entries are UTF-8, and for texts over an
  alphabet such as ASCII, this comes down to single entries: none may be the spelling of BOS followed by
  bytes that encode to one token and form such a text (`Llama2cUtf8.BosSurvivesTextExactly`,
  `Llama2cUtf8.ExactOverAlphabet`); elsewhere it does not (`Llama2cUtf8.PartOfCharacterSwallows`: the
  text `é`). The SentencePiece loop starts after BOS (src/tokenizer/gguf_spm.rs:60, `Spm.EncodingMeets`).
* src/tokenizer/llama2c.rs:150-163: decoding strips a space after BOS and reads `<0xHH>` tokens as bytes.
  After BOS, no text that starts with a space survives (`Llama2cRoundTrip.SpaceAfterBosFails`). Elsewhere
  every UTF-8 text survives exactly when no escape is its own encoding and no space-led token stands behind
  BOS in the encoding of a text (`Llama2cUtf8.Utf8RoundTripsExactly`); an escape that is its own encoding is
  itself a text that is lost (`Llama2cRoundTrip.EscapeTextFails`).
* src/tokenizer/gguf_spm.rs:100-115: decoding turns a U+2581 of the text into a space, and does not drop
  BOS. With merges that stay clear of byte tokens a text comes back exactly when it contains no U+2581
  (`SpmRoundTrip.RoundTripExactly`); after encoding with BOS no such
  text does (`SpmRoundTrip.BosIsNotDropped`).
  A byte token that merges is no longer read as its byte (`SpmRoundTrip.JoinedByteIsLost`).
* src/tokenizer/gguf_bpe.rs:123-130: an apostrophe at the start of a piece makes the scanner slice two, then
  three bytes, and it stops inside a multi-byte character (`Pretokenizer.ApostropheBeforeAccent`). Encoding
  succeeds exactly for the texts in which no apostrophe that starts a piece is followed by such a character
  (`GgufBpe.Encode`, `Pretokenizer.CutExactly`), and whether it starts a piece is told by the two bytes before
  it (`Pretokenizer.ScannableExactly`). All ASCII texts and all texts without an apostrophe are among them
  (`Pretokenizer.AsciiScans`, `Pretokenizer.NoApostropheScans`).

## Model

| member | source | states |
|---|---|---|
| FixedTree.CollapseInPlace | src/ops/quant.rs:462-475 | the in-place sweeps, which overwrite slots while still reading the slice, return the recursive pairwise tree of the slice's original contents |
| FixedTree.PassKeepsTree | src/ops/quant.rs:462-475 | one bottom-up pairing sweep does not change the top-down tree value, for any non-associative addition |
| FixedTree.SplitIsPowerOfTwo | src/ops/quant.rs:462-475 | the top-level split of the tree is a power of two |
| FixedTree.CeilLog2IsLeast | src/ops/quant.rs:462-475 | the depth measure is the least d with n <= 2^d |
| FixedTree.ShapeIsBalancedAndInOrder | src/ops/quant.rs:462-475 | as a symbolic tree, its fringe is the input in order and its depth is exactly ceil(log2 n) |
| FixedTree.TreeEvaluatesShape | src/ops/quant.rs:462-475 | the computed value is the evaluation of that one shape under every interpretation of addition |
| FixedTree.TreeIsRunningSum | src/ops/quant.rs:991-1074 | where addition is associative with neutral zero, the tree combine and the running-sum combine agree |
| Canonical.CanonicalChunk | src/ops/quant.rs:482-505 | the chunk loop (whole lane groups, then the ragged tail) computes the lane specification of the products |
| Canonical.AccumulateLanes | src/ops/quant.rs:482-505 | element i of the slice is added to lane i mod 8 in increasing order, and to no other lane |
| Canonical.LaneConcat | src/ops/quant.rs:409-447 | splitting a chunk at a multiple of the lane count leaves every lane's term unchanged |
| Canonical.CanonicalDot | src/ops/quant.rs:551-566 | equals the two-level specification: lanes inside each 8192-element chunk, tree over chunk sums in index order |
| Canonical.ReduceIsIndexSpec | src/ops/quant.rs:409-447 | the reduction is the index-only definition: element i belongs to chunk i/8192 and lane (i mod 8192) mod 8 and nothing else enters |
| Canonical.CombineInAnyOrder | src/ops/quant.rs:572-574 | chunk sums written in any order, even repeatedly, over arbitrary initial contents, combine to the term of the serial dot |
| Canonical.CanonicalChunkSum | src/ops/quant.rs:581-598 | the sum over one chunk equals the lane specification of its elements |
| Canonical.CanonicalSum | src/ops/quant.rs:604-619 | the sum is the same reduction applied to the elements themselves |
| Canonical.SumAgainstDotWithOnes | src/ops/quant.rs:604-619 | given only a*1 = a, sum and dot with ones give the same term |
| ErrorBound.TreeApprox | src/ops/quant.rs:462-475 | a tree of rounded additions loses one factor (1+u) per level relative to exact arithmetic |
| ErrorBound.ReduceApprox | src/ops/quant.rs:551-566 | the same for lanes, lane tree and chunk tree together |
| ErrorBound.ExactReduce | src/ops/quant.rs:551-566 | over exact reals the pinned reduction is the plain sum, for every length |
| ErrorBound.DotErrorBound | src/ops/quant.rs:551-566 | if every operation is within relative error u, the dot is within ((1+u)^(D+1) - 1) times the sum of magnitudes of the exact dot, with D the depth of the pinned reduction |
| ErrorBound.ReductionDepthIs | src/ops/quant.rs:551-566 | that depth in numbers: ceil(min(n, 8192) / 8) steps in a lane, 3 over the lanes, ceil(log2) over the chunks |
| FusedRow.FoldBlock | src/ops/quant.rs:720-750 | folding a 256-element block keeps the invariant that finished chunk sums and current lanes are those of the reduction so far |
| FusedRow.Finish | src/ops/quant.rs:744-752 | the final combine is the reduction of what was folded, minus an unfinished chunk if the row was short |
| ShortRow.FusedIsWholeDotExactly | src/ops/quant.rs:683-752 | for all bytes, activations and n: the returned value is the dot of every term the row holds, under every arithmetic, exactly when the row covers n or ends on a whole chunk |
| ShortRow.OneBlockIsLost | src/ops/quant.rs:683-752 | one block of weights 1.0 asked for 512 terms of ones: the kernel says 0, the row holds 256 |
| Q4K.UnpackBlock | src/ops/quant.rs:280-319 | the unpacking loop writes weight r of a Q4_K block, by its nibble, scale and min, at offset r, and nothing else; which numbers those are is `KPacking.Q4Unpacks` |
| KPacking.ScalesUnpack | src/ops/quant.rs:268-276 | of eight 6-bit scales and eight 6-bit mins packed into twelve bytes, unpacking gives back every pair |
| KPacking.Q4Unpacks | src/ops/quant.rs:268-319 | weight r of a packed block is d times scale r/32 times quant r, less dmin times min r/32 |
| KPacking.Q4IsPacked | src/ops/quant.rs:268-319 | every 144 bytes are the packing of exactly the numbers that the unpacker reads |
| KPacking.Q4CanBePacked | src/ops/quant.rs:268-319 | and every such numbers have a packing |
| KPacking.Q4RowUnpacks | src/ops/quant.rs:280-319 | the same for weight 256 i + r of a dequantized row |
| Q6K.ColumnWeights | src/ops/quant.rs:337-386 | the four interleaved ql/qh/scale reads of one column are weights r, r+32, r+64 and r+96 of the block |
| Q6K.UnpackBlock | src/ops/quant.rs:337-386 | the interleaved writes fill all 256 positions with their own weights and touch nothing else |
| KPacking.Q6Unpacks | src/ops/quant.rs:337-386 | weight r of a packed block is d times signed scale r/16 times (quant r - 32) |
| KPacking.Q6IsPacked | src/ops/quant.rs:337-386 | every 210 bytes are the packing of some scales and quants |
| KPacking.Q6CanBePacked | src/ops/quant.rs:337-386 | and every such numbers have a packing |
| KPacking.Q6RowUnpacks | src/ops/quant.rs:337-386 | the same for weight 256 i + r of a dequantized row |
| KQuant.Dequantize | src/ops/quant.rs:280-386 | in both formats: every weight of every block in order, as `KPacking.Q4RowUnpacks` and `KPacking.Q6RowUnpacks` spell them out; Err exactly when the length is not a multiple of the block size |
| KQuant.FusedLoop | src/ops/quant.rs:695-752 | the block loop, its partial blocks included, and the final combine give the reduction of the part that was folded |
| KQuant.FusedDotQ4K | src/ops/quant.rs:667-753 | for all bytes, x and n: the term of dequantize-then-dot on the covered part, including ragged tails and rows longer than a chunk, and exactly what a short row yields |
| KQuant.FusedDotQ6K | src/ops/quant.rs:1353-1441 | Err exactly for a bad length or a row shorter than n; otherwise the term of dequantize-then-dot |
| KQuant.FusedMatchesReference | src/ops/quant.rs:667-753 | in both formats: fused and dequantize-then-dot, both computed, are the same term whenever the row covers n |
| Q8.Dot32PairScalar | src/ops/quant.rs:827-835 | the scalar loop returns the exact low- and high-nibble dot products in 32-bit integers |
| Q8.Dot32PairNeon | src/ops/quant.rs:859-881 | the 16-lane widening order returns the same two integers as the scalar loop |
| Q8.SubBlockPair | src/ops/quant.rs:923-947 | the branch-free full run and the guarded tail give the same sub-block sums, within range |
| Q8.GuardedPair | src/ops/quant.rs:936-947 | the per-element guarded tail sums exactly the products below n |
| Q8.PairSum | src/ops/quant.rs:917-948 | the scaled pair contribution is the exact weighted sum and fits 32 bits |
| Q8.PairMin | src/ops/quant.rs:917-949 | the min contribution computed from stored group sums is the exact sum over the elements |
| Q8.DotQ4KQ8Block | src/ops/quant.rs:905-953 | full, partial and vector paths all close over the same two exact integers, with no 32-bit overflow |
| IntegerQ6K.FullRun | src/ops/quant.rs:1125-1186 | the branch-free run adds exactly its sixteen products to each of its four buckets |
| IntegerQ6K.GuardedRun | src/ops/quant.rs:1125-1186 | the guarded run adds the same totals with products at or beyond n counted as zero |
| IntegerQ6K.Buckets | src/ops/quant.rs:1125-1186 | each of the sixteen buckets holds exactly its own sixteen products, in range |
| IntegerQ6K.DotQ6KQ8Block | src/ops/quant.rs:1125-1186 | the block dot closes over the exact integer for every partial length, with no overflow |
| Int8Loss.RoundIsNearest | src/ops/quant.rs:801-822 | the spelled-out rounding is within one half, and maps [-127, 127] into itself |
| Int8Loss.RoundIs | src/ops/quant.rs:801-822 | a half is rounded away from zero, and these two properties determine the rounding |
| Int8Loss.ClampIs | src/ops/quant.rs:801-822 | the clamp gives the nearest number from -127 to 127 |
| Int8Loss.QuantizeError | src/ops/quant.rs:801-822 | an element moves by at most d/2 and the clamp never bites |
| Int8Loss.QuantizeBlock | src/ops/quant.rs:801-822 | the block has scale amax/127, values within d/2, zeros beyond the input, and group sums that are the sums of its values |
| Int8Loss.Q4BlockExact | src/ops/quant.rs:905-953 | over reals the Q4_K integer dot is the sum of dequantized weight times d*q, under the dequantizer's own layout |
| Int8Loss.Q6BlockExact | src/ops/quant.rs:1125-1186 | the same for Q6_K |
| IntegerRow.BlockLossHolds | src/ops/quant.rs:959-983 | one block, of either format, loses at most (d/2) times the sum of its weight magnitudes |
| IntegerRow.IntegerDotQ4K | src/ops/quant.rs:959-983 | the whole row differs from the exact dot with dequantized weights by at most the sum over blocks of (d_b/2)*sum of weight magnitudes; Err exactly for a bad length |
| IntegerRow.RowValueLoss | src/ops/quant.rs:1009-1033 | an output row over activations quantized once per layer, of either format, stays within the same loss |
| IntegerRow.DotRow | src/ops/quant.rs:1211-1221 | the row loop combines exactly the block dots, in order |
| IntegerRow.LinearInteger | src/ops/quant.rs:1189-1225 | the whole integer linear: Err exactly for a bad width or a short matrix, every output within the loss of its own activations and weights, nothing else written |
| LinearMeaning.IntegerCellClose | src/ops/quant.rs:1189-1225 | with indices written out: entry b*out+r is within amax/254 times the total magnitude of weight row r of the matrix product |
| FusedLinear.RowOfWeights | src/ops/quant.rs:1584-1588 | dequantizing a row of bytes is taking that row of the dequantized matrix |
| FusedLinear.RowResultIsCell | src/ops/quant.rs:1583-1590 | what the kernel of either format, one of them unchecked, returns for a weight row of the matrix is the full dot, because the shape check covers it |
| FusedLinear.FusedCell | src/ops/quant.rs:1583-1590 | inside the linear the kernel always covers its row, so every output is the full dot with the dequantized row |
| FusedLinear.LinearFused | src/ops/quant.rs:1574-1594 | succeeds exactly when rows are whole blocks and the matrix, which only the Q6_K variant checks, is large enough; then output b*out+r is batch row b against weight row r, and nothing else is written |
| FusedLinear.LinearReference | src/ops/quant.rs:1597-1623 | succeeds exactly when all shapes match; then every output is the dot with its row of the matrix dequantized once |
| FusedLinear.LinearsAgree | src/ops/quant.rs:1574-1623 | where the reference accepts, the fused linear succeeds exactly for whole-block rows, and every output is the same term |
| LinearMeaning.CellIs | src/ops/quant.rs:1574-1623 | output b*out+r is the dot of x[b*in..] and the weights [r*in..] |
| LinearMeaning.CellIsProduct | src/ops/quant.rs:1574-1623 | over the reals the output is the matrix product |
| RowParallel.Serial | src/ops/quant.rs:991-1035 | the serial linear with one reused scratch buffer puts in every row that row's own tree of partial sums |
| RowParallel.GrainIsLeast | src/ops/quant.rs:1250-1259 | the grain is the least with which four tasks per thread take all rows |
| RowParallel.SplitCoversOnce | src/ops/quant.rs:1229-1275 | for every row count and grain, each row belongs to exactly one task and slot |
| RowParallel.StepInv | src/ops/quant.rs:1229-1275 | one step of one task (clear, fill, reduce), whatever the others are doing, keeps the invariant; scratch contents never leak between rows |
| RowParallel.RunInv | src/ops/quant.rs:1229-1275 | the invariant holds at the end of every finite run |
| RowParallel.ScheduleIndependent | src/ops/quant.rs:1527-1571 | for every row count, thread count and interleaving, a finished run holds what the serial loop computes |
| RowParallel.StepConsumesOne | src/ops/quant.rs:1229-1275 | every step uses up exactly one unit of the remaining work |
| RowParallel.ScheduleLength | src/ops/quant.rs:1229-1275 | all finished schedules have the same length |
| RowParallel.NeverStuck | src/ops/quant.rs:1229-1275 | an unfinished run can always take a step |
| LinearSchedules.FusedSchedule | src/ops/quant.rs:1527-1571 | any finished schedule of the fused linear holds, in every row, the cell that the serial fused linear writes |
| LinearSchedules.IntegerSchedule | src/ops/quant.rs:1229-1325 | any finished schedule of an integer linear holds, in every row, what the serial row loop returns |
| LinearSchedules.IntegerScheduleLoss | src/ops/quant.rs:1229-1325 | over the reals, its outputs stay within the loss of their own activations and weights |
| Rope.RotateNeox | src/model/forward_quantized.rs:418-449 | the in-place split-half loop rotates every pair of every head exactly once and touches nothing outside its range |
| Rope.RotateInterleaved | src/model/forward_quantized.rs:450-473 | the interleaved loop rotates the query fully and the cached key up to kv_dim, each coordinate exactly once |
| Rope.NeoxIsInterleavedConjugate | src/model/forward_quantized.rs:412-473 | the split-half rotation is the interleaved one conjugated by the permutation j to 2j, j+half to 2j+1 |
| Rope.Tables | src/ops/rope.rs:62-80 | the per-position cos/sin tables hold the decode step's angles, which `RopeReal.AngleIs` gives in numbers |
| Rope.Rope | src/ops/rope.rs:29-97 | the table-driven tensor operation gives token s the interleaved rotation at position offset + s; Err exactly for an odd head size |
| Rope.RopeElements | src/ops/rope.rs:62-94 | element by element: pair j of head h of token s is turned by position offset + s |
| RopeReal.AngleIs | src/model/forward_quantized.rs:425-426 | the angle is position / theta^(k / headSize) |
| RopeReal.NeoxUnitTurns | src/model/forward_quantized.rs:418-449 | the first coordinate of pair j goes to the cosine and sine of pos / theta^(2j / headSize), at j and j + headSize/2 |
| RopeReal.InterleavedUnitTurns | src/model/forward_quantized.rs:450-473 | the same at 2j and 2j + 1 |
| RopeReal.NothingTurnsAtZero | src/model/forward_quantized.rs:412-473 | position 0 leaves every vector alone, in both layouts |
| RopeReal.NeoxTurns | src/model/forward_quantized.rs:418-449 | with the addition formulas, rotating at p + q is rotating at p, then at q |
| RopeReal.InterleavedTurns | src/model/forward_quantized.rs:450-473 | the same for the interleaved layout |
| RopeReal.DotKept | src/ops/rope.rs:29-97 | rotating two heads by one position keeps their dot product |
| RopeReal.DotIsRelative | src/ops/rope.rs:29-97 | the dot product of two rotated heads does not change when both positions move by the same distance |
| Rope.NeoxPerHead | src/model/forward_quantized.rs:418-449 | rotating a buffer rotates each head on its own |
| RopeReal.HeadNormKept | src/model/forward_quantized.rs:418-473 | with cos^2 + sin^2 = 1 over reals, either rotation keeps the squared norm of every head |
| Rope.InterleavedPerHead | src/model/forward_quantized.rs:450-473 | the interleaved rotation acts head by head |
| RopeReal.RopeNormKept | src/ops/rope.rs:137-150 | in the output of the tensor operation, every head of every token has the squared norm it had in the input |
| KvDecode.Dimensions | src/model/config.rs:66-79 | head size, kv dimension and multiplier divide as the index arithmetic needs |
| KvDecode.KvHeadInRange | src/model/forward_quantized.rs:475-515 | kv head h/kv_mul, which query head h reads (`AttentionHeads.AttendIs`), exists |
| KvDecode.Lookup | src/model/forward_quantized.rs:184-197 | the newest matching intervention wins; none is found exactly when none matches |
| ResidualStream.OverrideReplaces | src/model/forward_quantized.rs:184-197 | the newest entry for a position, layer and checkpoint replaces the value exactly when it has its length |
| ResidualStream.OverrideLeaves | src/model/forward_quantized.rs:184-197 | without such an entry the value is left alone |
| ResidualStream.EmbeddingReplaced | src/model/forward_quantized.rs:351-366 | a replaced embedding: the token plays no part any more |
| ResidualStream.AttentionReplaced | src/model/forward_quantized.rs:530-587 | replaced after attention: the layer gives the replacement and the feed-forward block on it |
| ResidualStream.LayerReplaced | src/model/forward_quantized.rs:585-595 | replaced after the feed-forward block: nothing of the layer remains |
| ResidualStream.HeadInputReplaced | src/model/forward_quantized.rs:612-657 | replaced in front of the head: the logits are the head on the replacement |
| ResidualStream.LogitsReplaced | src/model/forward_quantized.rs:645-660 | replaced behind it: these are the logits |
| AttentionHeads.ScoreIs | src/model/forward_quantized.rs:480-497 | the score of a key: canonical dot of query head h and kv head h / (nHeads / nKvHeads), over the root of the head size |
| AttentionHeads.AttendIs | src/model/forward_quantized.rs:475-515 | output h*size + d: the softmaxed scores of that kv head times its value column, over all positions |
| AttentionHeads.ReadsOwnHeadOnly | src/model/forward_quantized.rs:475-515 | changing anything but query head h and its kv head changes nothing in output head h |
| AttentionHeads.GroupShares | src/model/forward_quantized.rs:475-515 | two heads of one group with equal queries have equal outputs |
| AttentionHeads.FirstPosition | src/model/forward_quantized.rs:475-515 | over the reals, at the first position a head's output is the value of its kv head |
| AttentionHeads.ScoreIsRelative | src/model/forward_quantized.rs:412-497 | over the reals, the score of two positions depends on their distance alone, in both rotation layouts |
| ResidualStream.StreamIsSum | src/model/forward_quantized.rs:377-610 | without interventions, over the reals, the stream after n layers is the embedding plus the attention and feed-forward parts of each |
| ResidualStream.LayerAdds | src/model/forward_quantized.rs:377-610 | one layer adds its attention part, then the feed-forward block of the sum |
| ResidualStream.FirstTokenAttends | src/model/forward_quantized.rs:377-530 | the first token attends to itself alone |
| ResidualStream.LogitsOfStream | src/model/forward_quantized.rs:606-660 | the logits are the head on the final norm of the stream |
| ResidualStream.ProjectionsAtZero | src/model/forward_quantized.rs:385-473 | at position 0 query, key and value are the plain projections of the normed stream |
| ResidualStream.ProjectionsTurn | src/model/forward_quantized.rs:412-473 | moving on by k positions turns query and key by k positions |
| KvDecode.Causal | src/model/forward_quantized.rs:377-640 | in the cache-free transformer later tokens cannot influence earlier positions |
| KvCache.SlotInCache | src/model/forward.rs:19-40 | every slot lies inside the flat cache |
| KvCache.SlotsDisjoint | src/model/forward.rs:19-40 | slots of different layer and position never overlap |
| KvCache.SlotKept | src/model/forward_quantized.rs:407-412 | writing one slot leaves every other slot as it was |
| KvCache.CachedScores | src/model/forward_quantized.rs:482-497 | scores read straight from the strided cache are those of the list of keys at positions up to pos |
| KvCache.AttendHead | src/model/forward_quantized.rs:475-515 | a head writes each of its output coordinates with the attention value, leaving earlier heads as they were |
| KvCache.AttendCached | src/model/forward_quantized.rs:475-515 | attention over the flat caches equals attention over the lists of slots 0..pos of the same layer, which `AttentionHeads.AttendIs` writes out |
| KvCache.RunState.WriteAndRotate | src/model/forward_quantized.rs:390-473 | the query comes back rotated; exactly slot (layer, pos) changes, to the rotated key and the value |
| KvCache.RunState.Block | src/model/forward_quantized.rs:377-605 | one layer computes the block function on the slots up to pos and writes only its own slot; it fails exactly when one of its operators does, with the caches untouched if that is one in front of the cache write |
| KvCache.RunState.Step | src/model/forward_quantized.rs:329-660 | logits depend only on slots below pos and on the new one, each layer's slot pos then holds its key and value, and all other slots are unchanged; it fails exactly for a token without an embedding or at a failing operator, having written exactly the slots of the layers that got that far |
| KvCache.StepReadsOnlyPast | src/model/forward_quantized.rs:475-515 | caches that agree on the slots below pos give the same residual stream, whatever else they hold |
| KvCache.StepIsCausal | src/model/forward_quantized.rs:377-640 | with correct slots below p, the step's residual stream is the cache-free one at p, layer by layer |
| KvCache.CachedStep | src/model/forward_quantized.rs:377-640 | a step extends the correctness of the caches by one position |
| KvDecode.Written | src/model/forward_quantized.rs:377-640 | how many layers have written their slot when a step ends or fails |
| KvCache.Decode | src/model/forward_quantized.rs:288-300 | from any initial cache contents, feeding tokens in order yields at every position the logits of the cache-free causal transformer, and stops exactly at the first token whose step fails |
| Leb128.LebRoundTrip | src/cert/builder.rs:587-605 | decoding a number followed by anything gives the number and the rest |
| Leb128.LebPrefixFree | src/cert/builder.rs:587-605 | no encoding is a prefix of another |
| Leb128.LebLength | src/cert/builder.rs:587-605 | at most k bytes exactly when v < 128^k |
| Leb128.LebDigits | src/cert/builder.rs:587-605 | byte i carries digit i in base 128, and its high bit says whether another follows |
| Leb128.LebFitsTenBytes | src/cert/builder.rs:589-592 | the ten-byte buffer suffices for every 64-bit value and is needed for the largest |
| Leb128.WriteLeb128 | src/cert/builder.rs:589-605 | the buffer loop feeds exactly the encoding to the hasher |
| Receipt.SectionsRoundTrip | src/cert/builder.rs:499-585 | a decoder recovers all five lists from the sections, for all contents and lengths, and stops where they end |
| Receipt.V2UniquelyDecodable | src/cert/builder.rs:466-479 | v2 preimages that agree as prefixes have the same regime and the same declarations |
| Receipt.V1UniquelyDecodable | src/cert/builder.rs:484-495 | the same for v1 |
| Receipt.VersionsNeverCoincide | src/cert/builder.rs:466-495 | no v1 preimage is a prefix of a v2 preimage or the reverse, under any regime |
| Receipt.DigestBinds | src/cert/builder.rs:428-495 | equal digests mean equal regime and declarations, or a collision of the hash at the two preimages; likewise for v1, and between v1 and v2 |
| Receipt.WriteField | src/cert/builder.rs:579-585 | feeds the length-prefixed name and bytes |
| Receipt.WriteOp | src/cert/builder.rs:537-546 | feeds one op record in its canonical form |
| Receipt.WriteSnapshot | src/cert/builder.rs:555-577 | feeds one activation or intervention record; the two share one form |
| Receipt.WriteSections | src/cert/builder.rs:499-527 | the streamed loops feed exactly the five length-prefixed sections, in order |
| Receipt.ComputeDigest | src/cert/builder.rs:466-479 | the digest is the hash of the v2 preimage under the built-in regime |
| Receipt.ComputeDigestV1 | src/cert/builder.rs:484-495 | the digest is the hash of the v1 preimage |
| ReceiptBytes.PreimageBytes | src/cert/builder.rs:466-605 | the v2 preimage of a certificate with one record of every kind, byte by byte |
| ReceiptBytes.DigestHashes | src/cert/builder.rs:466-479 | the digest of a run hashes the v2 domain, the regime and the sections of what the run binds |
| Certificate.DeclareIndexes | src/cert/builder.rs:251-339 | after any declaration sequence, record i of each kind carries index i modulo 2^32 |
| Certificate.IndexIsPosition | src/cert/builder.rs:251-270 | an op record's index is its position exactly below 2^32, and indices are distinct there |
| Certificate.DeclareHolds | src/cert/builder.rs:223-339 | each list holds exactly the calls of its kind in call order |
| Certificate.PreimageFixesOrderWithinKinds | src/cert/builder.rs:219-339 | two declaration sequences give one preimage exactly when they agree kind by kind, however the kinds were interleaved |
| Certificate.CertBuilder.DeclareInput | src/cert/builder.rs:223-230 | appends one input and changes nothing else, sealed or not |
| Certificate.CertBuilder.DeclareOutput | src/cert/builder.rs:234-241 | appends one output and seals |
| Certificate.CertBuilder.DeclareOp | src/cert/builder.rs:251-270 | appends one op with the next wrapping index |
| Certificate.CertBuilder.DeclareActivation | src/cert/builder.rs:288-305 | appends one activation with the next wrapping index |
| Certificate.CertBuilder.DeclareIntervention | src/cert/builder.rs:322-339 | appends one intervention with the next wrapping index |
| Certificate.CertBuilder.Finalized | src/cert/builder.rs:347-363 | returns the declarations with the digest of their preimage |
| Certificate.CertBuilder.FinalizeWithSink | src/cert/builder.rs:385-425 | makes exactly the canonical calls up to and including the first refused one; a certificate and the sink's id come back only if none is refused |
| Certificate.Accepted | src/cert/sink.rs:49-108 | the number of calls a history-dependent sink accepts before its first refusal |
| Certificate.RefusingOneCall | src/cert/builder.rs:390-406 | a sink that fails at call k has seen exactly the calls up to and including k |
| Certificate.ReplayOrder | src/cert/builder.rs:385-425 | the sink sees request, inputs, ops, activations, interventions, outputs, finalize |
| Certificate.ReplayRebuilds | src/cert/sink.rs:172-226 | the recorded events rebuild the declarations, hence the same digest preimage |
| Generate.TokenRunShape | src/model/inference.rs:352-373 | exactly n_new tokens, calls at consecutive positions, none at or beyond seq_len |
| Generate.PrefillRunShape | src/model/inference.rs:427-438 | the prefill driver decodes at consecutive positions after the prompt, all below seq_len, and yields exactly n_new tokens |
| Generate.TokenRunPrefix | src/model/inference.rs:359-373 | the tokens for m are a prefix of those for any larger n_new |
| Generate.LoopIsFoldThenDecode | src/model/inference.rs:359-440 | the token loop over the prompt is the fold of the step followed by the decode loop, unless an early argmax fails |
| Generate.PrefillTransparent | src/model/inference.rs:386-446 | if prefill is the fold of the step, the token driver succeeds exactly when the prefill driver does and no early argmax fails; then tokens and final state agree |
| Generate.PrefillCanSucceedAlone | src/model/inference.rs:359-440 | a concrete model on which the prefill driver certifies and the token driver fails |
| Generate.CertificateTransparent | src/model/inference.rs:386-446 | wherever no early argmax fails, certificate, result and sink calls of the two drivers coincide |
| Generate.BoundDeterminesRun | src/model/inference.rs:331-385 | two successful runs bind the same declarations exactly when request, weights hash, architecture hash and output agree |
| Generate.DigestDeterminesRun | src/model/inference.rs:331-385 | two certified runs with one digest have equal request, weights hash, architecture and output, or their preimages or architecture strings are a collision of the hash |
| Generate.InputsBindCountModulo | src/model/inference.rs:331-343 | the bound inputs fix the requested count only modulo 2^32 |
| Generate.BoundIs | src/model/inference.rs:331-385 | every bound field by its name, and its bytes in terms of the run: little-endian tokens, the count modulo 2^32, the hashes of architecture and output |
| Generate.AdmittedFits | src/model/inference.rs:346-357 | a request is admitted exactly when it has a prompt and every position is in the context |
| Generate.SettledByAll | src/model/inference.rs:374-385 | a sink that accepts everything gets every call in order, and its id comes back with the certificate |
| Generate.SettledByNone | src/model/inference.rs:374-385 | a sink that refuses the first call has seen that call only; a failed run makes none |
| Generate.U32SliceToLeBytes | src/model/inference.rs:212-218 | bytes 4i to 4i+3 are token i mod 256, / 256 mod 256, / 65536 mod 256 and / 16777216 |
| Bytes.LeDigits | src/model/inference.rs:212-218 | byte i of a little-endian number is v / 256^i mod 256 |
| Generate.RunWithForward | src/model/inference.rs:319-385 | order of checks, calls, final state, result and sink log of the token driver |
| Generate.RunWithPrefill | src/model/inference.rs:394-446 | the same for the prefill driver |
| CachedRun.StepComputesForward | src/model/forward_quantized.rs:329-660 | the in-place step on the run state is a function of the two caches, the token and the position |
| CachedRun.SlotsDetermine | src/model/forward.rs:19-40 | the slots cover the cache: two caches that agree on every slot are equal |
| CachedRun.GreedySeqExactly | src/model/inference.rs:359-373 | continuing the tokens fed so far gives a sequence exactly when each further token is forced by the prompt or is the argmax of the causal logits before it |
| CachedRun.LoopIsGreedy | src/model/inference.rs:359-373 | from any point of the run on, the loop over the cached step yields what cache-free greedy decoding yields |
| CachedRun.TokenRunIsGreedy | src/model/inference.rs:359-373 | started on any caches, the driver yields an output exactly when prompt, one unrecorded token and output are a greedy decoding of the cache-free transformer |
| CachedRun.RunCached | src/model/inference.rs:319-385 | a certificate over the cached step binds the request and such a greedy decoding |
| CachedRun.FoldIsCausal | src/model/inference.rs:427-432 | folding the cached step over the prompt succeeds exactly when every step does, with the causal logits of its end, and leaves correct caches |
| CachedRun.GreedyIsLateGreedy | src/model/inference.rs:359-440 | the two drivers' greedy decodings differ in nothing but the argmax at earlier prompt positions |
| CachedRun.PrefillRunIsGreedy | src/model/inference.rs:427-440 | over a prefill that folds the cached step, the prefill driver yields an output exactly when prompt, one unrecorded token and output are greedy from the end of the prompt on |
| CachedRun.RunCachedPrefill | src/model/inference.rs:394-446 | its certificates bind the request and such a decoding |
| GgufRoundTrip.ParsePrint | src/model/quant_weights.rs:410-542 | reading a printed document gives back version, metadata (last wins), tensors with their bytes, and the name index, for any metadata, tensor list, rank up to 8, supported type and nonzero alignment |
| GgufRoundTrip.ValueRoundTrip | src/model/gguf.rs:531-611 | every metadata value, arrays included, is read back as printed |
| GgufRoundTrip.InfoRoundTrip | src/model/gguf.rs:348-364 | every tensor record is read back as printed |
| GgufRoundTrip.DataRoundTrip | src/model/gguf.rs:389-414 | consecutive offsets select exactly the printed data |
| GgufRoundTrip.ParseSound | src/model/gguf.rs:305-422 | after success every tensor is an in-bounds slice of the length its shape and type call for, the name index points at the last tensor of each name, string arrays decode fully, and the byte budget holds |
| GgufRoundTrip.ByNameIsLast | src/model/gguf.rs:390-414 | the index contains exactly the occurring names, each with its last position |
| GgufRoundTrip.UnsupportedTypeRejected | src/model/gguf.rs:101-104 | a file whose records can be read and one of which has an unlisted tensor type is refused as a whole |
| GgufRoundTrip.UnsupportedFiles | src/model/gguf.rs:101-104 | every printed front that lists such a tensor is such a file, whatever bytes follow it |
| GgufRoundTrip.UnsupportedExample | src/model/gguf.rs:101-104 | for instance a file of no metadata and one scalar of type 99 |
| GgufRoundTrip.ReservationExact | src/model/gguf.rs:337-347 | the capped reservation equals the tensor count of every readable record list |
| GgufFormat.PairConsumes | src/model/gguf.rs:324-331 | a metadata pair consumes at least 13 bytes |
| GgufFormat.InfoConsumes | src/model/gguf.rs:54-58 | a tensor record consumes at least 24 bytes |
| GgufFormat.ReadConsumes | src/model/gguf.rs:305-364 | header, pairs and records consume at least 24 + 13 per pair + 24 per tensor |
| GgufFormat.RoundUpBounds | src/model/gguf.rs:375-387 | the data base is the least multiple of the alignment at or after the records |
| Bytes.OfLeIsWeighted | src/model/gguf.rs:505-515 | a number is read as the sum of its bytes, each times its power of 256 |
| GgufNumbers.NumbersRead | src/model/gguf.rs:505-515 | 32- and 64-bit numbers in terms of their bytes; Bad exactly when there are too few |
| GgufNumbers.HeaderReads | src/model/gguf.rs:305-320 | the header is read exactly from 24 bytes that start with GGUF and version 2 or 3, with these counts |
| GgufNumbers.ValueTypeNumbers | src/model/gguf.rs:80-98 | the thirteen value types by number |
| GgufNumbers.TensorTypeNumbers | src/model/gguf.rs:127-139 | the seven tensor types by number; every other number is kept |
| GgufNumbers.TensorSizes | src/model/gguf.rs:141-210 | bytes of a tensor by type; a broken block or more than 64 bits is an error |
| GgufNumbers.QuantizedTensorsFit | src/model/gguf.rs:392-406 | a sliced k-quant tensor is a row of whole blocks that dequantizes to as many weights as its shape has |
| GgufNumbers.SmallValues | src/model/gguf.rs:531-550 | one- and two-byte values in terms of their bytes, signed ones in two's complement |
| GgufNumbers.FourByteValues | src/model/gguf.rs:531-550 | the same for four bytes |
| GgufNumbers.EightByteValues | src/model/gguf.rs:531-611 | the same for eight |
| GgufNumbers.StringsRead | src/model/gguf.rs:517-529 | eight bytes of length, at most 2^20, and so many bytes of text |
| GgufNumbers.ElementSizes | src/model/gguf.rs:580-609 | bytes of an array element by type |
| GgufNumbers.AlignmentIs | src/model/gguf.rs:366-373 | the last `general.alignment` counts if it is a 32-bit number; without one it is 32 |
| GgufNumbers.Refused | src/model/gguf.rs:344-364 | more than eight dimensions and arrays of arrays are refused |
| GgufNumbers.SmallFileReads | src/model/gguf.rs:305-422 | a file given byte by byte, with an alignment and two tensors, and what is read from it |
| GgufReader.Cursor.ReadN | src/model/gguf.rs:493-503 | returns the next n bytes or an error, with the overflow check |
| GgufReader.Cursor.ReadString | src/model/gguf.rs:517-529 | length cap and text check as specified |
| GgufReader.Cursor.SkipStrings | src/model/gguf.rs:568-579 | walks the elements without decoding; ends where decoding them all would end, at least 8 bytes per element |
| GgufReader.Cursor.ReadArray | src/model/gguf.rs:554-609 | the stored bytes are exactly those of the elements; nested arrays are refused |
| GgufReader.Cursor.ReadValue | src/model/gguf.rs:531-611 | every value type as specified |
| GgufReader.ReadMetadata | src/model/gguf.rs:322-331 | the pair loop, terminating by bytes consumed, builds the last-wins map |
| GgufReader.ReadInfos | src/model/gguf.rs:344-364 | the record loop, terminating by bytes consumed, with a reservation bounded by the file and exact on success |
| GgufReader.ComputeNumel | src/model/gguf.rs:469-477 | fails exactly when some partial product leaves 64 bits |
| GgufReader.CutTensor | src/model/gguf.rs:392-406 | overflow-checked slicing equals the unbounded specification |
| GgufReader.ParseFile | src/model/gguf.rs:305-422 | total: every byte string gives the specified file or an error; what the specification reads is spelled out in `GgufNumbers` |
| GgufReader.ReadStrArray | src/tokenizer/gguf_bpe.rs:161-179 | decodes the elements, or errors when missing, mistyped or truncated; element ends must be 64-bit offsets, past which the source stops |
| GgufReader.StrArrayRefuses | src/tokenizer/gguf_bpe.rs:161-170 | an array that is missing, or holds anything but strings, is an error |
| GgufReader.ParsedStringsDecode | src/tokenizer/gguf_bpe.rs:161-179 | every string array of a parsed file has addressable elements, decodes to its full length with no error, and printing the elements gives its bytes back |
| ScoreMerge.BestIsLeftmostBest | src/tokenizer/gguf_spm.rs:74-89 | the scan finds the leftmost pair of highest score, or shows that no pair scores above negative infinity |
| ScoreMerge.GreatestScoreWins | src/tokenizer/gguf_spm.rs:74-89 | in numbers: no pair has a greater score than the one chosen, and none before it as great a one |
| ScoreMerge.MergeAtKeepsBytes | src/tokenizer/llama2c.rs:132-136 | one merge keeps the bytes spelled |
| ScoreMerge.MergeAllMeets | src/tokenizer/gguf_spm.rs:73-95 | the loop keeps the bytes spelled and the tokens before its start, and stops only when no pair can gain |
| ScoreMerge.Scan | src/tokenizer/gguf_spm.rs:75-89 | one pass computes the specified best pair and its merged id |
| ScoreMerge.MergeLoop | src/tokenizer/llama2c.rs:115-140 | the loop computes the specified merge, losing one token per round |
| Vocab.IndexFirstIsFirst | src/tokenizer/llama2c.rs:78-80 | the reverse index holds exactly the vocabulary, each entry by its first position |
| Llama2c.FromBlob | src/tokenizer/llama2c.rs:49-92 | loads exactly the entries the format specifies, or errors on truncation |
| Llama2c.LoadRoundTrip | src/tokenizer/llama2c.rs:49-92 | a written vocabulary loads back, with a sound first-wins index |
| Llama2c.EntryReads | src/tokenizer/llama2c.rs:49-92 | an entry is four bytes of score, four of length, and so many bytes |
| Llama2c.LoadReads | src/tokenizer/llama2c.rs:49-92 | the first four bytes are the greatest token length |
| Llama2c.EncodeText | src/tokenizer/llama2c.rs:99-141 | seeds one id per known byte, after BOS if asked, and merges |
| Llama2c.EncodeSpells | src/tokenizer/llama2c.rs:99-141 | with all single bytes present the encoding spells the text and cannot be merged further |
| Llama2c.BosCanBeMerged | src/tokenizer/llama2c.rs:115-122 | three entries for which the text `a` with BOS becomes one token; started after BOS, the loop keeps it |
| Llama2cTexts.BosSurvivesExactly | src/tokenizer/llama2c.rs:115-122 | for every class of texts in which swallowing shows in a member: BOS survives each of them exactly when no entry swallows it and leaves one of them |
| Llama2cTexts.BosSurvives | src/tokenizer/llama2c.rs:99-141 | in front of a text that starts with no swallowing entry's remainder BOS survives, followed by the encoding without it |
| Llama2cTexts.BosSwallowed | src/tokenizer/llama2c.rs:115-122 | an entry that swallows BOS does so in front of its remaining bytes |
| Llama2cTexts.SegmentIsEncoding | src/tokenizer/llama2c.rs:115-140 | any stretch of an encoding is the encoding of the bytes it spells |
| MergeRuns.SplitRun | src/tokenizer/llama2c.rs:115-140 | whatever a merge run reaches in two parts, two separate runs reach from the two parts of its start |
| MergeRuns.ReachedKeeps | src/tokenizer/llama2c.rs:115-140 | every state a run passes through spells the same bytes and ends at the same result |
| MergeApart.ApartRow | src/tokenizer/llama2c.rs:115-140 | if the loop never merges across the border of two lists, nor across that of the second and a third, then it does not in the row of all three |
| MergeApart.ApartEnds | src/tokenizer/llama2c.rs:115-140 | lists whose border is never crossed end as each ends alone |
| MergeApart.ApartBack | src/tokenizer/llama2c.rs:115-140 | a run that ends with a border where two lists met has never crossed it |
| Llama2cChains.NeighboursExactly | src/tokenizer/llama2c.rs:115-140 | a token list is the encoding of what it spells exactly when each token and each two neighbours are |
| Llama2cChains.LeadsEncode | src/tokenizer/llama2c.rs:99-141 | a token that stands in the place of BOS and a list of neighbours behind it are the encoding, with BOS, of what they spell behind BOS |
| Llama2cChains.BosLostExactly | src/tokenizer/llama2c.rs:115-122 | text by text: BOS is lost exactly when the text can be read as such a token and such a list |
| Llama2cChains.BosSurvivesByChains | src/tokenizer/llama2c.rs:115-122 | hence, for any class of texts and any vocabulary, exactly when BOS survives all of them |
| Llama2cUtf8.BosSurvivesUtf8Exactly | src/tokenizer/llama2c.rs:99-122 | BOS survives every UTF-8 text exactly when none is spelled by a token in the place of BOS and a list of neighbours |
| Llama2cUtf8.BosSurvivesTextExactly | src/tokenizer/llama2c.rs:99-122 | where multi-byte entries are UTF-8: exactly when no entry swallows BOS |
| Llama2cUtf8.ExactOverAlphabet | src/tokenizer/llama2c.rs:99-191 | for ASCII texts, or those over any set of bytes, and any vocabulary: BOS survives them, and they survive a round trip, exactly when no entry, or pair with BOS, among them is at fault |
| Llama2cUtf8.PartOfCharacterSwallows | src/tokenizer/llama2c.rs:115-122 | a vocabulary no UTF-8 remainder of which swallows BOS, and which loses it on the text U+00E9 |
| Spm.Encode | src/tokenizer/gguf_spm.rs:48-96 | normalize, look up characters with byte fallback, and merge after BOS |
| Spm.EncodingMeets | src/tokenizer/gguf_spm.rs:48-96 | BOS survives, no later pair can gain, the tokens after it spell the seed, and the normalized text when all its characters are in the vocabulary |
| Spm.StartSkips | src/tokenizer/gguf_spm.rs:73-95 | a loop that starts after some tokens leaves them alone and merges the rest as if it stood alone |
| Spm.CharsSpell | src/tokenizer/gguf_spm.rs:65-75 | when every character has a token, the seed spells the characters |
| Spm.NormalizedChars | src/tokenizer/gguf_spm.rs:50-58 | the normalized bytes are UTF-8 and split back into the normalized characters |
| Spm.SplitChars | src/tokenizer/gguf_spm.rs:61-72 | walks a text character by character |
| SpmRoundTrip.FromLists | src/tokenizer/gguf_spm.rs:23-42 | Err exactly for lists of different length; otherwise the first-wins index and every byte's token |
| SpmRoundTrip.FallbackIsLast | src/tokenizer/gguf_spm.rs:34-40 | of several tokens for one byte the last counts; without any there is none |
| Bytes.HexDigits | src/tokenizer/gguf_spm.rs:117-125 | the sixteen digits in either case are worth 0 to 15, and nothing else is a digit |
| HexTokens.SpmReads | src/tokenizer/gguf_spm.rs:36-38 | `<0xHH>` stands for the byte 16*H + H, with digits in either case |
| HexTokens.ByteTokensOnly | src/tokenizer/gguf_spm.rs:36-38 | and no other entry stands for a byte |
| HexTokens.ByteTokensCover | src/tokenizer/gguf_spm.rs:61-72 | a vocabulary with these 256 tokens loses no byte of any text |
| SpmRoundTrip.LoadIsRight | src/tokenizer/gguf_spm.rs:28-40 | loaded lists give a sound index, and byte tokens that are read as their own byte |
| SpmRoundTrip.Decode | src/tokenizer/gguf_spm.rs:100-115 | bytes of the tokens, read as text, marks as spaces, one leading space dropped |
| SpmRoundTrip.MergeAllKeepsValues | src/tokenizer/gguf_spm.rs:73-95 | merges that stay clear of byte tokens keep the bytes the tokens stand for |
| SpmRoundTrip.DecodedEncoding | src/tokenizer/gguf_spm.rs:48-115 | what decoding makes of an encoding, with BOS and without |
| SpmRoundTrip.RoundTripExactly | src/tokenizer/gguf_spm.rs:23-115 | for loaded lists whose merges stay clear of byte tokens, and texts they cover, decoding undoes encoding exactly when the text has no U+2581 |
| SpmRoundTrip.BosIsNotDropped | src/tokenizer/gguf_spm.rs:100-115 | with BOS no text without U+2581 comes back |
| SpmRoundTrip.JoinedByteIsLost | src/tokenizer/gguf_spm.rs:100-115 | a vocabulary with a merge of a byte token, which decodes the encoding of `Ab` to the token's spelling |
| Llama2c.DecodeBytes | src/tokenizer/llama2c.rs:184-191 | decodes token by token with the previous id |
| HexTokens.Llama2cReads | src/tokenizer/llama2c.rs:150-163 | the token of any byte decodes to that byte |
| HexTokens.HexByteReads | src/tokenizer/llama2c.rs:155-160 | one digit or more are read in base 16; a number above 255 is an error |
| HexTokens.EscapeIs | src/tokenizer/llama2c.rs:155-160 | digits in brackets are an escape exactly when there are at least two and they spell a byte |
| Llama2c.RoundTripExactly | src/tokenizer/llama2c.rs:99-191 | with BOS or without, decoding an encoding gives the bytes it spells exactly when no token of it is an escape or is stripped |
| Llama2cRoundTrip.AllTextsRoundTripExactly | src/tokenizer/llama2c.rs:99-191 | for every class of texts that has such spellings as members when they are parts: each survives exactly when none of them is an escape, or BOS before a space, that is its own encoding |
| Llama2cRoundTrip.CleanRoundTrip | src/tokenizer/llama2c.rs:99-191 | then a text of the class is lost exactly if it starts with a space and follows BOS |
| Llama2cRoundTrip.BosRoundTripExactly | src/tokenizer/llama2c.rs:99-191 | encoding with BOS and decoding the rest after BOS is lossless exactly for texts that do not start with a space |
| Llama2cRoundTrip.SpaceAfterBosFails | src/tokenizer/llama2c.rs:150-163 | after BOS no text that starts with a space survives, whatever the vocabulary |
| Llama2cRoundTrip.EscapeTextFails | src/tokenizer/llama2c.rs:150-163 | the spelling of an escape that is its own encoding does not survive |
| Llama2cRoundTrip.BosBeforeSpaceFails | src/tokenizer/llama2c.rs:150-163 | nor does the spelling of BOS and a space-led entry that are their own encoding |
| Llama2cChains.RoundTripsByChains | src/tokenizer/llama2c.rs:99-191 | for any class of texts: each survives exactly when every list of neighbours that spells one decodes token by token to its own spelling |
| Llama2cUtf8.Utf8RoundTripsExactly | src/tokenizer/llama2c.rs:99-191 | every UTF-8 text survives exactly when no escape is its own encoding, and no space-led token and BOS are neighbours of which one begins and the other ends a text |
| Llama2cUtf8.MeetingFails | src/tokenizer/llama2c.rs:150-163 | if they are, some UTF-8 text is lost |
| Llama2cUtf8.TextsRoundTripExactly | src/tokenizer/llama2c.rs:99-191 | where multi-byte entries are UTF-8: exactly when no escape, and no BOS in front of a space, is its own encoding |
| Pretokenizer.NextPiece | src/tokenizer/gguf_bpe.rs:119-158 | the branch cascade computes the specified piece end, stops exactly where a slice would cut a character, and never reaches its catch-all |
| Pretokenizer.Pretokenize | src/tokenizer/gguf_bpe.rs:111-159 | returns the specified pieces exactly when no piece starts with a cut |
| Pretokenizer.PiecesPartition | src/tokenizer/gguf_bpe.rs:111-159 | pieces are non-empty and concatenate to the text |
| Pretokenizer.PieceIsMaximalRun | src/tokenizer/gguf_bpe.rs:130-155 | a piece that is not a contraction is one maximal run of a class after at most one space |
| Pretokenizer.ContractionPiece | src/tokenizer/gguf_bpe.rs:122-130 | an apostrophe and s, t, re, ve, m, ll or d, in either case, are a piece of their own |
| Pretokenizer.ContractionIs | src/tokenizer/gguf_bpe.rs:122-130 | and nothing else is a contraction |
| Pretokenizer.ClassesAre | src/tokenizer/gguf_bpe.rs:131-155 | letters, digits and white space by their characters |
| Pretokenizer.LeadingSpaceIs | src/tokenizer/gguf_bpe.rs:131-155 | a space joins what follows unless that is white space |
| Pretokenizer.SmallPieces | src/tokenizer/gguf_bpe.rs:111-159 | the pieces of one text, byte by byte |
| Pretokenizer.AsciiScans | src/tokenizer/gguf_bpe.rs:111-159 | every ASCII text can be scanned |
| Pretokenizer.NoApostropheScans | src/tokenizer/gguf_bpe.rs:111-159 | every text without an apostrophe can be scanned |
| Pretokenizer.ScannableExactly | src/tokenizer/gguf_bpe.rs:111-159 | the scan succeeds exactly when no apostrophe that starts a piece, as the two bytes before it tell, has a cut behind it |
| Pretokenizer.CutExactly | src/tokenizer/gguf_bpe.rs:123-130 | in a text, there is a cut exactly when one of the two slices would end off a character boundary |
| Pretokenizer.PiecesAreText | src/tokenizer/gguf_bpe.rs:111-159 | every piece of a text is a text |
| Pretokenizer.ApostropheBeforeAccent | src/tokenizer/gguf_bpe.rs:123-130 | an apostrophe before U+00E9 stops the scan, and does not after a space |
| ByteSpelling.ByteCharInjective | src/tokenizer/gguf_bpe.rs:22-33 | different bytes get different characters |
| CodePoints.ByteCharIs | src/tokenizer/gguf_bpe.rs:22-33 | the code point of every byte in closed form |
| CodePoints.CharsAreScalars | src/tokenizer/gguf_bpe.rs:98-100 | the characters of a text are exactly the UTF-8 encodings of scalar values |
| CodePoints.CharIsEncoded | src/tokenizer/gguf_bpe.rs:98-100 | and each is the encoding of its code point |
| CodePoints.MarkIs | src/tokenizer/gguf_spm.rs:13 | the mark is U+2581, and stands for the space |
| ByteSpelling.BytesToUnicode | src/tokenizer/gguf_bpe.rs:22-33 | the table-filling loops compute the character of every byte |
| ByteSpelling.TokenBytesUndoes | src/tokenizer/gguf_bpe.rs:93-105 | a token that spells bytes decodes to those bytes |
| ByteSpelling.SpellReads | src/tokenizer/gguf_bpe.rs:57-62 | the spelling of any bytes is text, and its characters are the symbols |
| GgufBpe.FromLists | src/tokenizer/gguf_bpe.rs:36-50 | first-wins vocabulary index and first-wins merge ranks |
| GgufBpe.RuleSplits | src/tokenizer/gguf_bpe.rs:42-47 | a merge line is cut at its first space |
| GgufBpe.RanksAreFirst | src/tokenizer/gguf_bpe.rs:41-48 | a pair's rank is the number of the first line that has it |
| GgufBpe.BestIsLeftmostLeast | src/tokenizer/gguf_bpe.rs:74-81 | the scan finds the leftmost pair of least rank, or shows that no pair has a usable rank |
| GgufBpe.MergeMeets | src/tokenizer/gguf_bpe.rs:72-91 | merging keeps the concatenation and stops only when no pair has a usable rank |
| GgufBpe.Bpe | src/tokenizer/gguf_bpe.rs:72-91 | the loop on the symbol list computes the specified merge |
| GgufBpe.MergeGroups | src/tokenizer/gguf_bpe.rs:72-91 | merged symbols stay in the vocabulary and spell consecutive groups of the original bytes |
| GgufBpe.Encode | src/tokenizer/gguf_bpe.rs:54-70 | pretokenize, respell, merge and look up, piece by piece, for exactly the texts that can be scanned |
| GgufBpe.Skips | src/tokenizer/gguf_bpe.rs:64-105 | symbols without an id and ids without a token are passed over |
| GgufBpe.Decode | src/tokenizer/gguf_bpe.rs:93-105 | concatenates the bytes of the tokens; bytes that are a text come back as that text |
| GgufBpe.DecodeEncode | src/tokenizer/gguf_bpe.rs:36-105 | for loaded lists with all single symbols and merge results, decoding undoes encoding for every text |

## Left out

- What makes a layer operator fail (shape and type of its weights) is not modelled; which ones fail is a parameter, and does not depend on the values they are given.
- Recorders, activation snapshots, lens and head capture inside the step: they do not feed back into the computation.
- The serial attention sums of `src/model/forward.rs` are not claimed to equal those of `forward_quantized.rs`; only `RunState` is modelled from that file.
- RowParallel.ScheduleIndependent: shared memory is a state machine over task steps; the memory model and the thread pool are not modelled.
- KQuant.FusedDotQ4K: requires that the activations cover the reduced part, where the source would stop on a slice index.
- IntegerRow.LinearInteger: quantization is over the reals; the parallel variants are its rows under any schedule, batch row by batch row.
- The regime-3 linears as whole methods: their combine is `FixedTree.TreeIsRunningSum`, and the loops around it repeat those of `IntegerRow`.
- Overflow to infinity and NaN payloads: bound theorems are over reals with relative rounding error.
- f16 decoding, powf, sin, cos, sqrt, exp and BLAKE3 are uninterpreted; collision resistance is not assumed, collisions are exhibited.
- Q4_0, Q5_0 and Q8_0 kernels and the quantizers other than `quantize_block_q8`: the same shape with an easier layout.
- Receipt.WriteSections: list and field lengths are required to fit 64 bits, which every allocation does.
- Generate.RunWithForward: sizes are required to be addressable; the reservation of an unaddressable count, which aborts before the checks in this driver only, is not modelled.
- Certificate.CertBuilder.DeclareInput: the assertion of debug builds that nothing is sealed yet is not modelled.
- The 32-bit `usize` target: lengths and offsets are 64-bit.
- GgufReader.ParseFile: blobs of 2^64 bytes or more are excluded.
- Convenience lookups (`input`, `output`, `digest_hex`, `metadata_u32`, `tensor`), configuration parsing, the Gemma forward pass, accelerators, CUDA and Metal: easy members or foreign calls.
- Error texts and the choice among error variants.
