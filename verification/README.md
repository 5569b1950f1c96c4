# Verification of the mimirmind numeric core

A Dafny model of the reference kernels that the rest of mimirmind's GPU code is ported from:
the gated delta net in its three forms, attention in its prefill, decode, tiled and second-reference
forms, the Q8_0 / int8 / Q3_K / Q4_K / Q6_K block formats, rotary embedding, expert routing, the
causal convolution and the move-only device buffer. `dafny verify dfyconfig.toml` checks everything.

Code that updates buffers in place is modelled by methods over `array`s with loops and invariants,
in the source's loop order and with its scratch buffers reused across iterations; each is proved
equal to a specification function or predicate, and the laws the repository relies on are lemmas
about those. Flat row-major buffers are read through `Buffers.Cell`, a total accessor for
`r*w + j`, so that specifications speak of rows and columns while the methods do checked index
arithmetic. `float` is `real`; `exp` is a parameter known only through `Exponential.IsExp`
(`exp(0) = 1`, sums become products, positive, monotone), `log1p`, `cos`, `sin`, `pow`, `1/sqrt(S)`
and the half-precision conversions are parameters too, and the laws each proof needs of them are
its `requires`.

The lemmas whose names end in `InSource` or `OfPacked` give the values of those specifications in
the numbers a caller holds: buffer positions, raw bytes, window ends and written-out arithmetic.
Where such a value is a sum of products, the vectors summed are parameters whose entries the
`requires` spell out. The laws of `exp`, `cos` and `sin` and the shapes a call demands are spelled
out the same way by the lemmas whose names end in `From`.

## How the files fit together

- `Sums`, `Exponential`, `Buffers`, `Kernels`: finite sums (linearity, splitting, exchange of
  summation), the exponential, rows of flat buffers, and the row loops the kernels share.
- `DeltaSpec`, `DeltaNet`: the delta-rule recurrence on one state column, and what a call must leave
  in the flat state and output buffers. Every form below is proved against this one specification.
- `Triangular`, `ChunkAlgebra`: unit lower-triangular solves and inverses, unrolling of a chunk, and
  the diagonal similarity between the gated and the ungated system.
- `Recurrent`, `ChunkStages`, `Chunked`, `KktInverse`, `ThreeStage`: the three forms.
- `Segments`: cutting a token stream into calls. `Gate`, `CausalConv`, `Cuts`: gate and convolution.
- `Softmax`, `Attention`, `AttentionLaws`, `RefAttention`, `FlashMerge`: attention.
- `Rounding`, `Int8Matmul`, `Q8Cache`, `SixBits`, `Q3K`, `Q4K`, `Q6K`: block quantisation.
- `Rope`, `MoeRouting`, `Ownership`: rotary embedding, routing, buffer ownership.

## Where the code and its comments differ

The model follows the code.

- The gate multiplies by `ssmA` directly (`src/compute/GatedDeltaNet.cpp:477`); the header writes
  `-exp(ssmA)` (`src/compute/GatedDeltaNet.hpp:187`).
- The convolution kernel is channel-major (`src/compute/GatedDeltaNet.cpp:525`); the header calls it
  tap-major (`src/compute/GatedDeltaNet.hpp:171`).
- The forward stage scales each entry by `exp(G_a - G_m)`
  (`src/compute/GatedDeltaNet.cpp:399`); the header factors it as `exp(G_a)` times `exp(-G_m)`
  (`src/compute/GatedDeltaNet.hpp:146`). Over the reals both are the same number.

## Properties that hold under a condition

- The Q8_0 round trip is idempotent only where the stored scale does not underflow to zero:
  `Q8Cache.RequantiseStable` gives the exact condition, `Q8Cache.LostBlock` the failing family and
  `Q8Cache.TinyBlockLost` one member of it. The stored scale is assumed finite: a block whose
  greatest magnitude is so large that its scale overflows the half-precision range is not covered.
- The two attention references agree on all inputs if and only if `multiHeadAttention` keeps the
  scale it was given, that is for a positive scale or one equal to the default: a scale of zero or
  less is a documented request for `1/sqrt(headDim)` (`src/compute/Attention.cpp:34-40`), which the
  other reference does not honour. `RefAttention.ReferencesAgreeExactly` states both directions and
  `RefAttention.TwoKeysDiffer` is the input that tells them apart.

## Model

| member | source | states |
|---|---|---|
| Recurrent.GatedDeltaNetRecurrent | src/compute/GatedDeltaNet.cpp:12-86 | For every T, H, S and starting state, the in-place token-by-token loop leaves exactly the recurrence's state in `state` and its readouts in `out`, every cell of both. |
| Recurrent.UpdateHead | src/compute/GatedDeltaNet.cpp:38-73 | One (token, head) step applies decay, prediction and rank-1 correction to that head's block and to no other cell. |
| Recurrent.ReadHead | src/compute/GatedDeltaNet.cpp:74-83 | The readout uses the already updated state and writes one output row only. |
| DeltaNet.TokenInSource | src/compute/GatedDeltaNet.cpp:38-83 | The recurrence read off the operands' own positions: each state entry decays by exp(gLog) and gains k_i times beta times (v_j less the decayed column's product with k), and the output reads the updated column with q * qScale; before any token the state is the given one. |
| Chunked.GatedDeltaNetChunk | src/compute/GatedDeltaNet.cpp:88-237 | For every chunk size (0 meaning 64), every shape including partial tail chunks, and any old scratch contents, the chunked form leaves the same state and output as the recurrence. |
| Chunked.Solve | src/compute/GatedDeltaNet.cpp:177-194 | Forward substitution over the chunk yields the recurrence's own prediction errors, row for row. |
| Chunked.Grams | src/compute/GatedDeltaNet.cpp:157-175 | The two matrices hold beta_a (k_a.k_m) exp(G_a-G_m) strictly below the diagonal, zero above, and k_m.qs_a, whatever the buffers held before. |
| Chunked.WriteOutputs | src/compute/GatedDeltaNet.cpp:196-210 | The chunk's output rows equal reading the recurrence's state after each token; all other rows are untouched. |
| ChunkStages.Carry | src/compute/GatedDeltaNet.cpp:212-234 | The carried state, built from the snapshot and the deltas, is the recurrence's state after the chunk; other heads' blocks are untouched. |
| ChunkStages.Project | src/compute/GatedDeltaNet.cpp:134-155 | Scaled queries and the snapshot's reads against every key and query of the chunk. |
| ChunkAlgebra.Unroll | src/compute/GatedDeltaNet.hpp:69-74 | A gated scalar recurrence unrolled n steps is exp(G_n) times its start plus the decayed sum of its inputs. |
| ChunkAlgebra.DeltasSolve | src/compute/GatedDeltaNet.hpp:71-75 | The recurrence's deltas satisfy the triangular system (I + A) d = r that the chunked form solves. |
| ChunkAlgebra.SolutionIsDeltas | src/compute/GatedDeltaNet.hpp:71-75 | Conversely, any solution of that system is the recurrence's deltas. |
| ChunkAlgebra.ReadIs | src/compute/GatedDeltaNet.hpp:80 | The chunk's closed output formula equals reading the stepwise state. |
| ChunkAlgebra.CarryIs | src/compute/GatedDeltaNet.hpp:81 | The chunk's closed carry formula equals the stepwise state, entry by entry. |
| ChunkAlgebra.GatedInverse | src/compute/GatedDeltaNet.hpp:75-79 | The gate may be put on the ungated inverse entrywise: the exact diagonal similarity. |
| ChunkAlgebra.RegatedIsDelta | src/compute/GatedDeltaNet.hpp:144-147 | Multiplying the regated inverse with the right-hand sides gives the recurrence's deltas without a solve. |
| Triangular.InverseSolves | src/compute/GatedDeltaNet.cpp:291-304 | The row recurrence's inverse applied to any right-hand side solves the unit lower-triangular system. |
| Triangular.SolutionUnique | src/compute/GatedDeltaNet.cpp:177-194 | Forward substitution has one solution. |
| Triangular.InverseSimilar | src/compute/GatedDeltaNet.hpp:75-79 | Scaling a unit lower-triangular system by weights that chain like exp(G_a-G_m) scales its inverse by the same weights. |
| KktInverse.DeltanetKktSolveInverse | src/compute/GatedDeltaNet.cpp:257-307 | For every shape and every chunk size C the caller gives (64 for 0), block (c,h) of the ceil(T/C) x H x C x C buffer holds the inverse entries of chunk c's tokens c*C onward on live rows and zero on padding, whatever was in the buffers. |
| KktInverse.BlockInSource | src/compute/GatedDeltaNet.cpp:270-304 | A written block by position: element ((c*H+h)*C+a)*C+m is zero above the diagonal and on the padding, one on the diagonal, and below it minus the sum over p from m to a-1 of beta_a (k_a.k_p) times the element of row p in the same column, all read from the operands and the buffer. |
| KktInverse.BlockInverts | src/compute/GatedDeltaNet.hpp:121-132 | Each block is unit lower triangular, zero on the padding, and both a left and a right inverse of I plus the strict-lower ungated Gram matrix. |
| KktInverse.RegatedInverts | src/compute/GatedDeltaNet.hpp:124-126 | Scaled entrywise by exp(G_a-G_m), the block inverts from both sides the gated system the chunked form solves by substitution. |
| ThreeStage.DeltanetChunkCumGate | src/compute/GatedDeltaNet.cpp:239-255 | For the caller's own chunk size (64 for 0), the gate hand-off holds, per token and head, the prefix sum restarted at every multiple of it. |
| ThreeStage.GateInSource | src/compute/GatedDeltaNet.cpp:244-252 | Token by token: entry (t,h) is gLog[t,h], plus entry (t-1,h) unless t is a multiple of the chunk size. |
| ThreeStage.ApplyInverse | src/compute/GatedDeltaNet.cpp:389-405 | The forward stage's deltas, formed from the ungated inverse, are the recurrence's deltas. |
| ThreeStage.DeltanetChunkForward | src/compute/GatedDeltaNet.cpp:309-453 | Given the two hand-off buffers, the forward stage leaves the recurrence's state and output. |
| ThreeStage.GatedDeltaNetStaged | src/compute/GatedDeltaNet.hpp:102-107 | Running the three stages in order reproduces the recurrence for every shape and chunk size. |
| Segments.RunSegments | src/compute/GatedDeltaNet.hpp:82-88 | Cutting T tokens into any segments, each run by any of the three forms with any chunk size and the state carried, gives the state and outputs of one recurrent pass. |
| Segments.SliceState | src/compute/GatedDeltaNet.hpp:83-85 | A segment run from the state at its start ends in the state at its end. |
| Segments.SliceOut | src/compute/GatedDeltaNet.hpp:83-85 | A segment's outputs are the whole run's outputs for its tokens. |
| Segments.QueriesIrrelevant | src/compute/GatedDeltaNet.cpp:47-73 | The state after any number of tokens does not depend on q. |
| Segments.ReplayPrefix | src/compute/GatedDeltaNet.hpp:83-85 | Replaying an accepted prefix from the old state, with any queries, gives the state after exactly that prefix. |
| DeltaSpec.ColCompose | src/compute/GatedDeltaNet.cpp:30-73 | n tokens and then m tokens are n+m tokens. |
| Gate.DeltanetGate | src/compute/GatedDeltaNet.cpp:463-480 | Every [T,H] entry is ssmA[h] times the softplus of alpha[t,h] + ssmDt[h]. |
| Gate.BranchesInSource | src/compute/GatedDeltaNet.cpp:456-477 | An entry by cases on x = alpha + ssmDt: ssmA times x + log1p(exp(-x)) for positive x, ssmA times log1p(exp(x)) otherwise. |
| Gate.SoftplusIsLog | src/compute/GatedDeltaNet.cpp:456-460 | Both branches of the stable softplus are the logarithm of 1 + exp(x), and the value is positive. |
| Gate.GateDecays | src/compute/GatedDeltaNet.cpp:471-477 | With non-positive ssmA no log-decay is positive, for all inputs. |
| Gate.DecayFactors | src/compute/GatedDeltaNet.hpp:82-83 | With non-positive log-decays every decay factor of a chunk lies in (0, 1]: exp(G_a), exp(G_a-G_m) with m up to a, and a token's own exp(g). |
| DeltaNet.DecayFactor | src/compute/GatedDeltaNet.cpp:343-353 | The exponential as all three forms call it: the argument of every call is non-positive whenever no log-decay is positive, and then the factor lies in (0, 1]. |
| ChunkStages.DecayExponents | src/compute/GatedDeltaNet.hpp:82-83 | Every exponent of a chunk, G_a and G_a-G_m with m up to a (the carry's G_last-G_m included), is non-positive when no log-decay is positive; discharged at each call of the exponential. |
| Gate.BufferFalls | src/compute/GatedDeltaNet.cpp:239-255 | The gate buffer is non-positive, restarts from the raw gate at each chunk boundary and never rises in between. |
| CausalConv.CausalConv1dSilu | src/compute/GatedDeltaNet.cpp:510-531 | Every output cell is SiLU of the channel's causal correlation over the state-prepended rows. |
| CausalConv.CellInSource | src/compute/GatedDeltaNet.cpp:516-529 | An output cell: with z the sum over kk of rows[t+kk,c] * kernel[c,kk], the cell times 1 + exp(-z) is z. |
| CausalConv.ConvStream | src/compute/ComputeOps.hpp:430-472 | Any partition of a stream, carrying the last K-1 packed rows between calls and including pieces shorter than the tail, gives the outputs and tail of one convolution over the whole. |
| Softmax.BiasCancels | src/compute/Attention.cpp:67-84 | Any subtracted bias gives the same softmax mean. |
| Softmax.MaxShiftStable | src/compute/Attention.cpp:67-79 | Subtracting the maximum keeps every weight in (0, 1] and the mass between 1 and the number of keys. |
| Softmax.NormaliseFirst | src/compute/Attention.cpp:80-95 | Normalising weights before the V sum equals dividing after it. |
| Attention.SoftmaxInPlace | src/compute/Attention.cpp:67-84 | The scratch row becomes the softmax weights relative to the window's greatest score. |
| Attention.MultiHeadAttention | src/compute/Attention.cpp:15-97 | Rejects a zero head count or one that is no multiple of the key/value heads without writing; otherwise output row p is the softmax mean over the keys from lo to hi-1, where hi is the lesser of offset+p+1 and T_k, and lo is 0 without a window or while hi is within it and hi - window beyond, for every T_q, T_k, offset, window, grouping and old scratch contents. |
| Attention.RowInSource | src/compute/Attention.cpp:46-95 | Such a row in the operands' numbers: each coordinate times the sum of exp(score) over lo..hi-1 is the sum of exp(score) * v, where the score is the scale times q.k of kv head hq*nKv/nHeads. |
| AttentionLaws.WindowLocal | src/compute/Attention.cpp:46-50 | An output row depends only on its query row and on keys and values inside its own window. |
| AttentionLaws.OutputBounded | src/compute/Attention.cpp:86-95 | Every output coordinate lies between the least and the greatest V of its window. |
| AttentionLaws.RowsDetermine | src/compute/Attention.cpp:42-97 | Two output buffers with finished rows are equal. |
| AttentionLaws.RunSteps | src/compute/Attention.cpp:42-97 | Decoding in any sequence of step sizes against a growing key/value cache writes the rows a single prefill call writes: row p attends to keys up to p, all of them without a window or while p+1 is within it, else exactly the last `window`. |
| RefAttention.HeadMapsAgree | tools/mimirmind-probe.cpp:176-180 | h / (nHeads/nKv) and (h*nKv)/nHeads are the same head map. |
| RefAttention.RefAttentionCausal | tools/mimirmind-probe.cpp:171-202 | Every row is the causal softmax mean, dividing after the V sum and for any running maximum floor. |
| RefAttention.ReferencesAgree | tools/mimirmind-probe.cpp:169-202 | With an explicit positive scale (or the default passed explicitly), no window and offset 0, a row satisfies one reference exactly when it satisfies the other. |
| RefAttention.BothReferences | tools/mimirmind-probe.cpp:169-202 | On the same operands with such a scale, one buffer holds every row of multiHeadAttention, the other every row of the causal reference, and the two buffers are equal. |
| RefAttention.ReferencesAgreeExactly | src/compute/Attention.cpp:34-40 | For every non-zero head size, scale and default, and any exponential with exp(1) other than 1, the references agree on all head counts, operands, shapes and coordinates if and only if the scale is positive or equals the default. |
| RefAttention.TwoKeysDiffer | src/compute/Attention.cpp:34-40 | For any other scale, one head and two tokens tell the references apart. |
| FlashMerge.TilesPartition | tools/hip-attention-flash-merge-probe.cpp:89-100 | Each live key lies in exactly one clipped tile, for every length, tile size and window. |
| FlashMerge.SomeTileLive | tools/hip-attention-flash-merge-probe.cpp:89-106 | At least one tile is non-empty. |
| FlashMerge.BuildPartial | tools/hip-attention-flash-merge-probe.cpp:80-156 | Every slot holds its clipped tile's greatest score with the mass and weighted values relative to it, or the neutral triple on an empty tile. |
| FlashMerge.TileInSource | tools/hip-attention-flash-merge-probe.cpp:89-153 | A slot by position in the buffer, tile kt being keys from the greater of kt*tile and the window's start to the lesser of kt*tile+tile and curLen+1: minus infinity and zeros when no key is left, else a score of the tile no other exceeds, the sum of exp(score - it), and v weighted by these. |
| FlashMerge.FinalMax | kernels/hip/llm/attention_flash_merge.hip:79-89 | The merge's bias is the greatest score of the whole window, so the all-neutral fallback is never taken. |
| FlashMerge.TileRebased | kernels/hip/llm/attention_flash_merge.hip:92-100 | beta re-aligns a tile's mass and values to the global bias; neutral tiles contribute nothing. |
| FlashMerge.MergePartials | kernels/hip/llm/attention_flash_merge.hip:55-126 | Folding the partials gives, per head and coordinate, the softmax mean over the whole live window. |
| FlashMerge.MonolithicAttention | tools/hip-attention-flash-merge-probe.cpp:160-220 | The untiled reference computes the same softmax mean. |
| FlashMerge.FlashDecode | kernels/hip/llm/attention_flash_merge.hip:16-20 | Partials followed by the merge equal the untiled output cell for cell, for every cache length, tile size, grouping and window; both are the softmax mean over the live window. |
| FlashMerge.DecodeInSource | tools/hip-attention-flash-merge-probe.cpp:168-217 | A decode row in the operands' numbers: over the last `window` keys up to curLen (all without a window), each coordinate times the sum of exp(scale * q.k) is the sum of exp(scale * q.k) * v. |
| FlashMerge.DecodeIsAttention | tools/hip-attention-flash-merge-probe.cpp:158-159 | The decode row is multiHeadAttention's row for the same query at position curLen, for every cache length beyond curLen. |
| Rounding.ClampIdle | tools/hip-x-quant-i8-probe.cpp:80-82 | The clamp to [-127, 127] never changes a value and the int8 cast never overflows. |
| Rounding.QuantiseNear | tools/hip-x-quant-i8-probe.cpp:74-82 | Dequantising errs by at most half a scale step. |
| Rounding.ExtremeSaturates | tools/hip-x-quant-i8-probe.cpp:74-82 | The value of greatest magnitude becomes +127 or -127. |
| Rounding.RoundInSource | tools/hip-x-quant-i8-probe.cpp:79-80 | Rounding is to the nearest integer, halves away from zero, and no other integer is nearest in that sense. |
| Rounding.QuantInSource | tools/hip-x-quant-i8-probe.cpp:74-82 | A quant is 0 when the greatest magnitude is, else the integer nearest to x * (127 / greatest magnitude), halves away from zero. |
| Int8Matmul.XQuantI8CpuRef | tools/hip-x-quant-i8-probe.cpp:63-85 | Every row is quantised against its own greatest magnitude, whose 127th part is its scale. |
| Int8Matmul.RowInSource | tools/hip-x-quant-i8-probe.cpp:67-84 | A quantised row on the buffers alone: the scale is the 127th part of the row's greatest magnitude, attained and never exceeded, and each quant is the nearest integer to its element times 127 over it. |
| Int8Matmul.Dp4aCpuRef | tools/hip-matmul-q8-vec-dp4a-probe.cpp:102-121 | Each output is the dot product of the dequantised activations and the natively read Q8_0 weight row. |
| Int8Matmul.OperandsInSource | tools/hip-matmul-q8-vec-dp4a-probe.cpp:88-118 | The two factors of each term by byte position: quant times row scale, and the signed byte at (n*nBlocks + k/32)*34 + 2 + k%32 times the half at its block's start. |
| Int8Matmul.QuantisedMatmulError | tools/hip-matmul-q8-vec-dp4a-probe.cpp:99-121 | Quantising a row and multiplying is within (scale/2) * sum abs W[n,k] of the exact product, for every length. |
| Int8Matmul.QuantiseAndMultiply | tools/hip-matmul-q8-vec-dp4a-probe.cpp:99-121 | The two loops composed: for every row count, row length and weight row, the computed product is within that bound of the exact one, where the quants are the row's own and the scale is the 127th part of the row's greatest magnitude. |
| Int8Matmul.ZeroRowExact | tools/hip-x-quant-i8-probe.cpp:74-76 | The all-zero row is exact. |
| Q8Cache.QuantizeRowQ8_0 | tools/hip-kv-quant-commit-q8-0-probe.cpp:72-98 | Every block of the row holds the stored scale and the 32 signed quants of its group, and no other block changes. |
| Q8Cache.CommitRows | tools/hip-kv-quant-commit-q8-0-probe.cpp:134-142 | T rows committed at curLen hold the quantised source, and no byte outside those rows changes. |
| Q8Cache.BlockInSource | tools/hip-kv-quant-commit-q8-0-probe.cpp:72-98 | A committed block by byte position: ((curLen+t)*(kvDim/32) + b)*34 holds the stored 127th part of its group's greatest magnitude, and byte 2+i after it the two's complement of the integer nearest to the element times 127 over that magnitude. |
| Q8Cache.BlockError | tools/hip-kv-quant-commit-q8-0-probe.cpp:78-96 | Reading a block back errs by at most scale/2 plus 127 times the stored scale's rounding error. |
| Q8Cache.RequantiseStable | tools/hip-kv-quant-commit-q8-0-probe.cpp:78-96 | Requantising what was read back reproduces the block byte for byte if and only if the block was zero or its stored scale is positive. |
| Q8Cache.LostBlock | tools/hip-kv-quant-commit-q8-0-probe.cpp:83-88 | A non-zero block whose scale is stored as 0 is not reproduced. |
| Q8Cache.TinyBlockLost | tools/hip-kv-quant-commit-q8-0-probe.cpp:83-88 | A concrete such block: 32 values of 0.000001 under a conversion that flushes scales below 2^-25 to 0. |
| Q8Cache.ReadsBack | tools/hip-matmul-q8-vec-dp4a-probe.cpp:88-97 | The native element reader, applied to a quantised row, reads the block that holds the element. |
| Q3K.UnpackScalesQ3K | tools/hip-matmul-q3k-probe.cpp:76-90 | The word-parallel unpack equals the per-byte definition of each of the 16 scales. |
| Q3K.ScaleInSource | tools/hip-matmul-q3k-probe.cpp:76-90 | Scale j arithmetically: a nibble of byte j%8, low for j under 8 and high otherwise, plus 16 times two bits of byte 8 + j%4 at position 2*(j/4). |
| Q3K.UnpackOfPack | tools/hip-matmul-q3k-probe.cpp:76-90 | Packing 16 six-bit scales and unpacking returns them. |
| Q3K.PackOfUnpack | tools/hip-matmul-q3k-probe.cpp:76-90 | Unpacking 12 bytes and packing returns them, so the unpack is a bijection onto six-bit scales. |
| Q3K.DequantBlock | tools/hip-matmul-q3k-probe.cpp:149-177 | The loop with running scale index, shift, mask bit and pointers writes at element e the closed form in e/128, (e%128)/32, e%32 and e/16, and nothing outside the block. |
| Q3K.DequantRow | tools/hip-matmul-q3k-probe.cpp:140-178 | The same for any number of blocks: output b*256 + e is the closed form on block b. |
| Q3K.ValueInSource | tools/hip-matmul-q3k-probe.cpp:149-177 | The closed form in the block's bytes: d times (scale e/16 less 32) times two bits of a low-bit byte, less 4 where the mask bit is clear. |
| Q3K.ValueOfPacked | tools/hip-matmul-q3k-probe.cpp:149-177 | In any block assembled from 256 quants in -4..3 packed into 64 low-bit and 32 mask bytes, 16 packed scales and d, element e is d * (scale[e/16] - 32) * quant[e]. |
| Q3K.RowOfPacked | tools/hip-matmul-q3k-probe.cpp:140-178 | What the row loop leaves at output b*256 + e for an assembled block b: that product. |
| Q4K.UnpackOfPack | tools/hip-moe-gate-up-fused-k-q4k-probe.cpp:75-84 | Every scale and min packed into the 12 bytes is read back. |
| Q4K.PackOfUnpack | tools/hip-moe-gate-up-fused-k-q4k-probe.cpp:75-84 | Packing what was read returns the 12 bytes: every stored bit is used exactly once. |
| Q4K.ScaleMinInSource | tools/hip-moe-gate-up-fused-k-q4k-probe.cpp:75-84 | Scale and min j arithmetically: the low six bits of bytes j and j+4 for j under 4, else the nibbles of byte j+4 plus 16 times the top two bits of bytes j-4 and j. |
| Q4K.ElementInSource | tools/hip-moe-gate-up-fused-k-q4k-probe.cpp:88-122 | Element e of any super-block in its bytes: d * scale[e/32] * nibble - dmin * min[e/32], the nibble low for even sub-blocks and high for odd ones. |
| Q4K.ElementOfPacked | tools/hip-moe-gate-up-fused-k-q4k-probe.cpp:88-122 | In any super-block assembled from packed scales, mins and 256 nibbles, element e is d * scale[e/32] * nibble[e] - dmin * min[e/32]. |
| Q4K.Q4kRowDot | tools/hip-moe-gate-up-fused-k-q4k-probe.cpp:88-122 | The pair/lane traversal equals the in-order dot product of the dequantised row, for any number of blocks. |
| Q4K.DotOfPacked | tools/hip-moe-gate-up-fused-k-q4k-probe.cpp:88-122 | On a row of assembled super-blocks that dot product is the sum over all i of x[i] times the weight of the packed fields of element i%256 of block i/256. |
| Q6K.UnpackOfPack | tools/hip-moe-down-fused-k-q6k-probe.cpp:107-150 | Every six-bit quant packed into the 192 quant bytes is read back by the quadrant case split. |
| Q6K.PackOfUnpack | tools/hip-moe-down-fused-k-q6k-probe.cpp:107-150 | Packing what was read returns the 192 bytes: every stored bit is used exactly once. |
| Q6K.QuantInSource | tools/hip-moe-down-fused-k-q6k-probe.cpp:107-150 | Field e arithmetically: a nibble of byte e/128*64 + e%64, plus 16 times two bits of byte 128 + e/128*32 + e%32. |
| Q6K.ElementInSource | tools/hip-moe-down-fused-k-q6k-probe.cpp:107-150 | A column in its super-block's bytes: the half at 208 times the signed byte 192 + e/16 times the field less 32. |
| Q6K.DequantOfPacked | tools/hip-moe-down-fused-k-q6k-probe.cpp:107-150 | In any super-block of a row, a column of an assembled block dequantises to d * scale[e/16] * (quant - 32) of its own block. |
| Rope.MropeCpuRef | tools/hip-mrope-probe.cpp:83-106 | In place, every head vector becomes its rotation to its own position and coordinates past the rotary block stay as they were, for every head count and every section sum whose accesses stay inside the buffer. |
| Rope.HeadInSource | tools/hip-mrope-probe.cpp:86-102 | A head vector by position: with theta the position times base^(-2i/rotaryDim), elements i and i+P become a*cos - b*sin and a*sin + b*cos of their old values. |
| Rope.AccessesFit | tools/hip-mrope-probe.cpp:86-102 | Every access of the loops lies inside the buffer if and only if there is no head or the rotary block fits into one head. |
| Rope.RelativePosition | tools/hip-mrope-probe.cpp:88-105 | The dot product of a query rotated to p and a key rotated to s depends only on p - s. |
| Rope.RotatedRowsRelative | tools/hip-mrope-probe.cpp:88-105 | On the buffers the loops leave behind: the dot product of a rotated query row and key row depends only on their contents before the rotation and the distance of their positions, whatever buffers, start positions, rows and heads hold them. |
| Rope.LengthPreserved | tools/hip-mrope-probe.cpp:99-102 | Dot products at equal positions, hence lengths, are preserved. |
| Rope.RotationsCompose | tools/hip-mrope-probe.cpp:96-102 | Rotating to p and then by s is rotating to p + s. |
| MoeRouting.MoeTopKRoute | src/compute/MoeRouting.cpp:15-81 | Null pointers, a zero expert count and a top-K out of range are rejected, in that order, without writing; otherwise every row is explained by some top-K listing of its logits with softmax weights over the kept ones. |
| MoeRouting.RowInSource | src/compute/MoeRouting.cpp:36-80 | A routed row on the buffers alone: the K stored indices are distinct experts in descending order of stored logit, every expert not stored has no greater logit than any stored one, and each weight times the sum of exp over the stored logits is exp of its own. |
| MoeRouting.KeptValuesDetermined | src/compute/MoeRouting.cpp:56-66 | However ties are broken, the ordered list of kept values is the same. |
| MoeRouting.KeptExpertsDetermined | src/compute/MoeRouting.cpp:56-66 | With distinct logits the kept experts are determined too. |
| MoeRouting.WeightsDetermined | src/compute/MoeRouting.cpp:68-79 | The ordered kept weights depend on the logits alone. |
| MoeRouting.RoutingsAgree | src/compute/MoeRouting.cpp:56-79 | Two routed rows of the same logits hold the same weights cell for cell, however ties are broken, and the same experts when the logits are distinct. |
| MoeRouting.Renormalised | src/compute/MoeRouting.cpp:46-79 | Softmax over all experts, renormalised over the kept ones, is softmax over just the kept logits. |
| MoeRouting.WeightsSumToOne | src/compute/MoeRouting.cpp:68-79 | The kept weights are positive and sum to 1. |
| MoeRouting.TopKOfLogits | src/compute/MoeRouting.cpp:56-66 | Sorting by probability is sorting by logit: distinct indices, and no dropped expert beats a kept one. |
| Ownership.ComputeBuffer.MoveFrom | src/compute/ComputeBuffer.hpp:57-66 | Move construction takes all four fields and empties the source. |
| Ownership.ComputeBuffer.Release | src/compute/ComputeBuffer.hpp:48-52 | One deleter call with the held pointer, size and context, only if both pointer and deleter are non-null. |
| Ownership.ComputeBuffer.MoveAssign | src/compute/ComputeBuffer.hpp:68-83 | Releases the old value first, takes the fields and empties the source; self-assignment changes nothing. |
| Ownership.AllocateStep | src/compute/ComputeBuffer.hpp:42-47 | An allocation adds a live value and issues its own pointer, size, deleter and context, if both pointer and deleter are non-null. |
| Ownership.MoveConstructStep | src/compute/ComputeBuffer.hpp:57-66 | A move construction appends the source's value, empties the source and calls nothing. |
| Ownership.MoveAssignStep | src/compute/ComputeBuffer.hpp:68-83 | A move assignment calls the target's deleter with the target's own values, takes the source's and empties it; on itself it changes nothing. |
| Ownership.DestroyStep | src/compute/ComputeBuffer.hpp:48-52 | A destruction calls the victim's deleter with its own values and drops it. |
| Ownership.RunInOrder | src/compute/ComputeBuffer.hpp:42-83 | A program runs its steps in order, and is legal when every step names live objects of the state it meets. |
| Ownership.RunBalanced | src/compute/ComputeBuffer.hpp:42-83 | Over every run, what live buffers still owe plus the deleter calls made is exactly what was issued. |
| Ownership.ClaimsConserved | src/compute/ComputeBuffer.hpp:28-31 | For every pointer, size, deleter and context, reissued addresses included, at every point of every run: live owners plus deleter calls made equal the allocations that issued it. |
| Ownership.ExactlyOneOwner | src/compute/ComputeBuffer.hpp:28-31 | At every point of every run an allocation whose pointer, size, deleter and context were issued once has either exactly one owner and no deleter call, or no owner and exactly one call with its original arguments. |
| Ownership.AllReleased | src/compute/ComputeBuffer.hpp:28-31 | Once nothing is live, every allocation was released exactly as often as it was issued. |
| Ownership.Pool.Execute | src/compute/ComputeBuffer.hpp:42-83 | Any legal program over real objects ends in the state the abstract run computes. |

## Left out

- Floating-point rounding, overflow to infinity and NaN, and float/double accumulation differences: all equalities are over the reals; only the stored half-precision scale is rounded, as an abstract function.
- Fixed integer widths: `size_t`, `int` and the `int32_t` cast of expert indices are unbounded integers.
- ThreeStage.DeltanetChunkForward: its hand-off buffers must be what the first two stages write for the same operands and chunk size; for other contents the source computes something the header promises nothing about.
- MoeRouting.MoeTopKRoute: `exp` must be strictly monotone so that probabilities order experts as logits do.
- MoeRouting.PartialSort: stands in for `std::partial_sort` with a selection loop; callers use only its contract, a permutation whose first K entries are sorted and not beaten, with ties broken in any order.
- FlashMerge.MonolithicAttention: the branch for an empty window is omitted, since a non-negative `curLen` always leaves at least one live key; a negative `curLen` is not modelled.
- FlashMerge.MergePartials: the kernel's thread-strided coordinate loop is a sequential loop and its compile-time tile width and tile ceiling are arbitrary.
- Rope.MropeCpuRef: a section sum above half the head is excluded as soon as there is a head, because the last head's last pair then lies past the end of the buffer (`Rope.AccessesFit`).
- Q8Cache.RequantiseStable: the half-precision conversion must keep its own stored values, not make a scale negative, and stay finite.
- Gate.DecayFactors: with a positive `ssmA` nothing is claimed, since decay factors may then exceed 1.
- Segments.RunSegments: each segment's outputs are concatenated instead of written through an advanced output pointer; the same holds for `AttentionLaws.RunSteps` and `CausalConv.ConvStream`.
- Read-only buffers are sequences, so calls whose inputs and outputs alias are not modelled.
- The fused loop that fills `u` and `uq` together (`src/compute/GatedDeltaNet.cpp:146-154`) is written as two loops; copying the state snapshot is a scaled copy with factor 1, and the recurrence's rank-1 update is the shared one with coefficient 1.
- The delta state transition is one specification column at a time; head count, token order and chunk order are those of the source loops.
- `l2NormInPlace`, `sigmoidInPlace`, `gatherHeadsFromChannels`, activations, norms and bias adds: easy one-loop facts.
- `moeDownFusedCpuRef` and the other copies of the attention and matmul references: the same algebra as the ones modelled.
- Batched convolution packing with per-slot offsets and frozen slots: only the packed-block and last-rows rules are modelled.
- All other GPU kernels, paged attention, autotune, dispatch tables, I/O, logging and launch code.
