# A verified model of gfxinfer

gfxinfer runs one Qwen hybrid model on one GPU. This project models the parts of it whose correctness is an
argument and not an inspection, and proves that argument:

- **Speculative decoding.** A decode session drafts up to 31 tokens, verifies them layer by layer in one block, and
  then either swaps the shadow state in or replays a compact log on the old state. Whatever is drafted, the tokens that
  come out are those of serial greedy decoding (`Session`, `Driver`, `Server`). Below it lie the causal stack
  (`CausalStack`, `Decoder`), exact rollback of the recurrent layers (`GdnModel`), the kernels that do both over flat
  memory (`GdnKernels`, `GdnRestore`), the gated delta law they obey (`GatedDelta`), and the tie between that memory
  and the session's regions (`GdnMemory`).
- **Low-bit weights.** Scale fitting, quantizing, packing, tiling and the bit dilation in front of the matrix
  instruction, up to one theorem from a weight to the nibble that the instruction sees; conversion in chunks; the
  grids of the matrix kernels, and that what they leave is the product of the dequantized operands (`MatrixProduct`).
- **The artifact file.** The one-shot writer, the stream writer, the reader, and the CRC-64 of ECMA-182.
- **Text.** The byte alphabet, structural UTF-8, byte-pair merging, special tokens, and the server's incremental
  emission.
- **Attention, selection, ranking.** The online softmax, the argmax tree, and the rows of the ranked draft head.

Objects whose methods update their fields are classes (`QwenDecodeSession`, `StreamWriter`, `Emitter`, device
`Buffer`s); kernels are loops over arrays or buffers; pure code is functions. A method is proved against a function, and
the lemmas say what that function means. Device scalars are an uninterpreted type with uninterpreted operations, so that
equality of states is equality bit for bit, whatever the rounding is. What such a computation means is said over the
real numbers, for arithmetic that does not round (the hypothesis `Exact`): the gated delta law and the matrix product,
written as plain sums over keys and columns. Real numbers also stand where rounding is not the point: attention, scales
and logits.

Some invariants are written behind a seal (module `Seals`): a quantifier over a predicate that is always true. Elsewhere
such an invariant is a name that is passed along; a proof that needs its contents asserts the seal opened. The seals
assume nothing.

Check the project with `dafny verify dfyconfig.toml`.

Where a property fails for some inputs, the exact condition is proved: `ReaderInvertsWriter` (a file is readable exactly
when no identity string starts with a zero byte and every type code is known, and reads back its identity exactly when
that contains no zero byte), `CodepointRoundTrip` (a code point reads back exactly up to 21 bits), `WriteQuantized`
(when a chunked conversion is refused), `EndsExactly` (for which tables and texts encoding ends), and the refusals of
every session call.

## Model

| member | source | states |
|---|---|---|
| CausalStack.BlockRefinesSerial | src/qwen_runtime.cpp:421-544 | For any stack of causal stateful layers and a block of any length, running the block layer by layer gives every token the row, and every layer after every prefix the state, of the token-by-token run. The two orders are defined independently. |
| CausalStack.SerialAppend | src/qwen_runtime.cpp:1286-1316 | Serial runs compose: a run over a concatenation is a run over the second part from the states of the first. |
| Decoder.CacheRows | src/qwen_runtime.cpp:469-486 | If the cache slots below a position are the committed entries, appending a block's entries and reading per lane gives the causal rows, whatever stale entries lie above. |
| GdnModel.RestoreIsRun | src/kernels/qwen_ops.hip:494-539 | Replaying a block's whole log on its initial state gives the state of the forward pass. |
| GdnModel.RollbackExact | src/kernels/qwen_ops.hip:467-539 | Exact rollback: replaying the first n logged tokens on the state a block started from gives, bit for bit, the state after n forward tokens, although each logged key is shared by three value heads. |
| GatedDelta.GatedDeltaLaw | src/kernels/qwen_ops.hip:356-381 | Between the states of a head after t and after t + 1 tokens of any run, for exact arithmetic, in every direction of the key space and every value column: the new state is the decayed one plus the overlap of key and direction times the gated error of what the decayed state recalls for the key. |
| GatedDelta.UnitKeyRecalls | src/kernels/qwen_ops.hip:356-381 | After a token with a unit key and gate one, the head recalls exactly the token's value for that key. |
| GatedDelta.OrthogonalDecays | src/kernels/qwen_ops.hip:356-381 | In directions orthogonal to the key the state only decays. |
| GatedDelta.WindowIsLast | src/kernels/qwen_ops.hip:219-261 | The taps of a channel are the last four values of its old taps and of what the tokens append. |
| GatedDelta.HeadsShareKeys | src/kernels/qwen_ops.hip:280-330 | Three consecutive value heads share the normalised key of one key head, and each has its own value channels. |
| GdnKernels.ConvUpdateChannel | src/kernels/qwen_ops.hip:219-261 | One thread: the taps of its channel after the block, written back once, its column of convolved values, and its column of the log. |
| GdnKernels.GdnConvUpdate | src/kernels/qwen_ops.hip:219-261 | Over the whole grid, the final region holds the taps after the block (it may be the initial region), the output holds the convolved row of every token, the log the appended values, and nothing else changes. |
| GdnKernels.GdnRecurrentDecode | src/kernels/qwen_ops.hip:263-411 | Over the whole grid, the final region holds the heads after the block, which obey the law above from token to token, and the log regions hold every token's keys, deltas and decays, each key written by one of the three heads that share it; the rest of the log stays. |
| GdnKernels.DecodeHead | src/kernels/qwen_ops.hip:263-411 | One thread block: a value head through the tokens of a block, with its part of every log row. |
| GdnKernels.TokenAt | src/kernels/qwen_ops.hip:300-390 | What the recurrent kernel computes and logs for one token and head is the step of the layer and its log row. |
| GdnRestore.RestoreChannel | src/kernels/qwen_ops.hip:467-492 | One thread: the taps of its channel after n logged values. |
| GdnRestore.RestoreHead | src/kernels/qwen_ops.hip:494-539 | One thread block: its head after n logged tokens. |
| GdnRestore.GdnRestoreConvPrefixAll | src/kernels/qwen_ops.hip:467-492 | The taps of every channel of every layer after n logged tokens were pushed. |
| GdnRestore.GdnRestoreRecurrentPrefixAll | src/kernels/qwen_ops.hip:494-539 | The heads of every layer after n logged tokens were replayed, each with the key of its key head. |
| GdnRestore.RestoredIsRun | src/kernels/qwen_ops.hip:467-539 | In all layers at once, replaying n logged tokens gives the states after the first n tokens of each layer's block. |
| GdnRestore.LaunchRestorePrefixAll | src/kernels/qwen_ops.hip:1141-1179 | On the logs of the forward kernels, one launch leaves in flat memory the states of all layers after the first n tokens; it is refused exactly for the guarded arguments, and a refusal changes nothing. |
| GdnMemory.LaunchRecurrentLayer | src/qwen_runtime.cpp:488-517 | If flat memory is an image of the session's regions, the two forward kernels of a layer leave an image of the regions that the session's launch leaves: same final states, same log rows, all other regions and rows untouched. |
| GdnMemory.RestoreRegions | src/qwen_runtime.cpp:254-261 | The restore kernels leave an image of the regions that the session's restore leaves; zero tokens are accepted and touch nothing. |
| SessionState.BlockCommits | src/qwen_runtime.cpp:1520-1535 | Buffers that a block went through hold the states of the concatenated stream. |
| SessionState.PrefixCommits | src/qwen_runtime.cpp:1503-1517 | Replaying n log rows in every region, and forgetting the cache slots above, leaves the states of the stream with n of the block's tokens. |
| SessionState.LaneRow | src/qwen_runtime.cpp:625-640 | Lane t of the verifier computes the row that serial decoding has after the block's first t + 1 tokens. |
| SessionState.CacheRestored | src/qwen_runtime.cpp:1503-1517 | The slots of a rejected suffix do not matter: the cache prefix is that of the accepted tokens. |
| SessionState.AssignStateIndices | src/qwen_runtime.cpp:1013-1064 | Layers of one kind get distinct regions, numbered from 0 on, and every recurrent region has its layer. |
| GreedyStream.AcceptedIsGreedy | src/qwen_runtime.cpp:1497-1502 | A draft prefix that agrees with the verifier's selections, and the selection behind it, are the next greedy tokens, whatever proposed them. |
| GreedyStream.AgreeingIsGreedy | src/qwen_runtime.cpp:1497-1502 | The first k drafts are the greedy stream exactly if k is at most the length of the longest prefix that agrees with the target. |
| GreedyStream.GreedyDraftsAccepted | src/qwen_runtime.cpp:1497-1502 | All drafts are accepted exactly if they are greedy. |
| GreedyStream.CountAccepted | src/qwen_runtime.cpp:1497-1502 | The accept loop ends at the length of the longest prefix of the drafts that the target agrees with, draft by draft; the accepted drafts and the next selection are greedy tokens, and what was fed is their context. |
| GreedyStream.StreamGrows | src/cli/main.cpp:1078-1107 | Streams emitted in rounds join to the longer stream. |
| Session.QwenDecodeSession.Create | src/qwen_runtime.cpp:943-1262 | Refused exactly for a context or a graph batch out of range; otherwise a valid empty session over fresh buffers, whatever that memory held. |
| Session.QwenDecodeSession.PrepareSpeculativeGraphs | src/qwen_runtime.cpp:642-713 | If no capture and no instantiation fails, each of the two graphs holds the pointers of its parity; the live buffers are what they were, also after a failure. |
| Session.QwenDecodeSession.LaunchRecurrentBlock | src/qwen_runtime.cpp:488-527 | The final region gets the states after the block, the output the rows of the block, the log one row per token when asked; other regions stay. |
| Session.QwenDecodeSession.LaunchAttentionBlock | src/qwen_runtime.cpp:430-487 | The cache gets the block's entries above the committed slots, and every lane reads up to its own slot. |
| Session.QwenDecodeSession.RunLayers | src/qwen_runtime.cpp:625-634 | After the loop over the layers, whose row buffers change roles, every region holds its state after the block and the rows are the block's rows. |
| Session.QwenDecodeSession.LaunchMtpProposal | src/qwen_runtime.cpp:715-867 | Writes one proposer slot, for the given token and conditioning row, and at most one token slot; that slot then holds the token the proposer drafts behind the entries before the slot, the token and the row. |
| Session.QwenDecodeSession.ProposalChain | src/qwen_runtime.cpp:1447-1456 | Every slot of the chain is written for the token before it, and the committed slots stay; the drafts are the proposer's: each is fed back with the proposer's own row, the first with the snapshot of the target's row. |
| Session.QwenDecodeSession.EnqueueVerifierBody | src/qwen_runtime.cpp:546-640 | The verifier selects, for the seed and the drafts on the device, what the target selects after each of them, and writes only shadow states. |
| Session.QwenDecodeSession.LaunchPreparedSpeculativeGraph | src/qwen_runtime.cpp:888-935 | The replayed graph reads the live buffers of the current parity, and seed and positions from the device; what it verifies is what the direct path verifies. |
| Session.QwenDecodeSession.LaunchDirect | src/qwen_runtime.cpp:1452-1463 | The same round launched step by step. |
| Session.QwenDecodeSession.ProposeAndVerify | src/qwen_runtime.cpp:869-886 | Whatever launch the device refuses, the committed state is as it was; if none is, the round is verified. |
| Session.QwenDecodeSession.GreedyStep | src/qwen_runtime.cpp:1264-1318 | Refused exactly by its guard; otherwise the token is committed and the result is the next greedy token. |
| Session.QwenDecodeSession.BlockStep | src/qwen_runtime.cpp:1320-1392 | Refused exactly by its guard; otherwise the block is committed and every result is the token selected after its prefix. |
| Session.QwenDecodeSession.MtpDraft | src/qwen_runtime.cpp:1394-1419 | Refused exactly by its guard, which asks for aligned positions only outside a chain; the session stays valid whatever happens. On success the result is the proposer's draft behind the committed slots, the given token and the target's last row, and one slot more is recorded for that token and row. |
| Session.QwenDecodeSession.RestoreLoggedPrefix | src/qwen_runtime.cpp:254-261 | The live buffers, untouched by the round, hold the states of the stream with n of the round's tokens. |
| Session.QwenDecodeSession.CommitPrefix | src/qwen_runtime.cpp:1503-1517 | Partial accept: a valid session whose stream has the n accepted tokens. |
| Session.QwenDecodeSession.CommitAll | src/qwen_runtime.cpp:1518-1535 | Full accept: buffers and parity swap, the whole block is committed, and the proposer catches up by one slot, for the last draft and conditioned on the target's own row of the token before it. |
| Session.QwenDecodeSession.FinishRound | src/qwen_runtime.cpp:1477-1544 | From a verified round to its commit: the longest prefix of the drafts on the device that the target agrees with is committed, and the tokens are greedy; or a failed proposer launch behind a full accept; or positions past the block, with the committed buffers still in place when the download failed, and the chain left when a restore failed. |
| Session.QwenDecodeSession.SpeculativeStep | src/qwen_runtime.cpp:1421-1544 | Refused exactly by its guard. A successful round drafts what the proposer drafts behind the seed and the target's last row, accepts the longest prefix of these drafts that the target agrees with, commits the seed and that prefix, and returns the greedy stream behind them, whatever was drafted and whichever path launched it. After a device error the session is unchanged, or has committed the whole block with the proposer behind, or (a failed download or restore) has advanced positions that its guard rejects; after a failed download the committed buffers are still in place. |
| Driver.TakeTokens | src/cli/main.cpp:1095-1106 | Of a round's tokens those up to the first terminal one are appended. |
| Driver.StoppedIsExpected | src/cli/main.cpp:1078-1107 | A loop that stopped at a terminal token or at the limit holds the greedy stream cut there. |
| Driver.Prefill | src/cli/main.cpp:1059-1070 | The prompt is committed and the first token is its greedy continuation, with the proposer aligned when drafts are used. |
| Driver.DecodeLoop | src/cli/main.cpp:1078-1107 | The loop ends with the expected output. A refused session call would end it as refused, and it never does: every call meets its guard. |
| Driver.Generate | src/cli/main.cpp:1022-1107 | For every number of drafts the output is serial greedy decoding cut at the first terminal token and at the limit. A refusal of any session call would be returned as one, and the result is a refusal exactly for the refused arguments. |
| Server.Generate | src/server/main.cpp:502-613 | The same for the server: while the client stays, the tokens consumed are the greedy reply for every number of drafts; if the client leaves, they are a beginning of it. A refused session call would be returned as a refused request, and only a request with the refused arguments is. |
| Server.ConsumeRound | src/server/main.cpp:601-608 | A round's tokens are consumed until the reply is complete or the client is gone. |
| Server.ServeLoop | src/server/main.cpp:581-610 | The loop ends with the whole reply unless the client left. |
| Emission.SentGrows | src/server/main.cpp:550-565 | One more token keeps the invariant: the deltas sent join to the longest valid prefix of the decoded content, each delta being whole sequences. |
| Emission.DecodingAppend | src/tokenizer.cpp:250-275 | Decoding more tokens appends text. |
| Emission.Emitter.ConsumeToken | src/server/main.cpp:567-576 | Keeps the emitter's invariant; a terminal token ends the reply and sends nothing; it fails exactly when the content cannot be decoded. |
| Utf8Prefix.PrefixIsLongest | src/server/main.cpp:474-499 | The scanned prefix is well formed, and no longer prefix is. |
| Utf8Prefix.ValidUtf8Prefix | src/server/main.cpp:474-499 | The loop finds that prefix. |
| Utf8Prefix.PrefixGrows | src/server/main.cpp:474-499 | When a text grows its valid prefix does not shrink, and the gain is whole sequences. |
| Utf8.DecodeCodepoint | src/tokenizer.cpp:33-65 | The loop reads the code point of the bytes at an offset, or finds them malformed. |
| Utf8.CodepointRoundTrip | src/tokenizer.cpp:82-98 | An appended code point reads back exactly when it has at most 21 bits. |
| ByteAlphabet.CodeInjective | src/tokenizer.cpp:100-110 | Different bytes have different code points. |
| ByteAlphabet.ByteEncoder | src/tokenizer.cpp:100-110 | The encoder table is that numbering. |
| ByteAlphabet.ByteDecoder | src/tokenizer.cpp:67-80 | The decoder table is its inverse, with no other entries. |
| ByteAlphabet.SpelledReads | src/tokenizer.cpp:288-289 | Bytes written in the alphabet read back, whatever follows them. |
| Bpe.KeyInjective | src/tokenizer.cpp:112-119 | Symbols without zero bytes have a pair key of their own. |
| Bpe.LoadRanks | src/tokenizer.cpp:229-242 | A rule has the rank of its first listing, and no two rules the same rank. |
| Bpe.MergeLoop | src/tokenizer.cpp:298-322 | The loop of one pretoken, which ends, merges in passes until no pair can be merged. |
| Bpe.MergeShortens | src/tokenizer.cpp:311-321 | A pass for a pair that occurs leaves fewer symbols. |
| Bpe.MergeKeepsText | src/tokenizer.cpp:311-321 | A pass keeps the concatenation. |
| Bpe.MergedIs | src/tokenizer.cpp:298-322 | The merged symbols are reached from the first ones by passes for a best pair, each pass merging the pair wherever its scan meets it, and hold no pair that can be merged; when ranks are distinct no other symbols are and do. |
| Bpe.PassesAreSteps | src/tokenizer.cpp:298-322 | Merging all leftmost occurrences per pass gives what merging the leftmost best pair one at a time gives, if every rule that uses another's result ranks after it. The condition is sufficient, not claimed to be exact. |
| Bpe.PassesNeedOrder | src/tokenizer.cpp:298-322 | Without any such condition the two differ: a table and a text for which they do. |
| Tokenizer.PretokensPartition | src/tokenizer.cpp:136-172 | When the matcher's matches are accepted, the pretokens are non-empty and make up the text. |
| Tokenizer.FindSpecial | src/tokenizer.cpp:335-343 | The cut is at the leftmost special content, for the first of the table among those that start there. |
| Tokenizer.Encode | src/tokenizer.cpp:277-355 | For every text on which the loop ends, the loops compute the encoding function, errors included; no table is excluded. What it returns is an encoding in the sense of the next row. |
| Tokenizer.EncodedFromEncodes | src/tokenizer.cpp:277-355 | Identifiers that encode a text are those of the special contents at the leftmost cuts and of the segments between them. A segment's normalised text is made up of the matcher's matches, one identifier part belongs to each, and the symbols of a part spell the pretoken, are reached from its letters by passes for best pairs, and hold no pair that can be merged. |
| Tokenizer.ForeverOrEnds | src/tokenizer.cpp:329-355 | The loop over special contents ends within as many passes as there are bytes, and one more, exactly where Ends says that it ends; elsewhere no number of passes leaves it. |
| Tokenizer.EndsExactly | src/tokenizer.cpp:329-355 | It ends exactly when no special content of the table is empty, or the text is a run of special contents that are not. |
| Tokenizer.Decode | src/tokenizer.cpp:250-275 | The loops compute the decoding function, errors included. |
| TokenizerRoundTrip.DecodeInvertsEncode | src/tokenizer.cpp:250-355 | If a text encodes, its tokens decode to the text with every ordinary segment normalised and every special content as it is, for a vocabulary whose pieces invert its identifiers and special contents that are non-empty visible text. |
| TokenizerRoundTrip.EncodedInVocabulary | src/tokenizer.cpp:277-355 | Encoding gives identifiers of the vocabulary only. |
| LowBitCodes.StoredCode | src/quantization.cpp:94-150 | For two, three and four bits, storing adds the code to its own column and touches no other. |
| SequentialCodes.StoredSequential | src/quantization.cpp:277-300 | The same for three-bit codes that follow each other across bytes. |
| ScaleFit.LevelIsNearest | src/quantization.cpp:29-46 | The assigned level is nearest among all levels of the format. |
| ScaleFit.NearestMinimizes | src/quantization.cpp:74-87 | Among all assignments of levels the nearest one has the smallest squared error. |
| ScaleFit.RefitMinimizes | src/quantization.cpp:86-90 | Among all scales the refitted one has the smallest error for the assigned levels. |
| ScaleFit.RefitDescends | src/quantization.cpp:74-90 | From a positive scale under which some weight of a nonzero group has a nonzero level, a refit divides by a nonzero sum, gives such a scale again, and does not increase the error. |
| ScaleFit.ChosenScaleFits | src/quantization.cpp:67-92 | The chosen scale is positive and, unless the final clamp set it, no worse than the first one. |
| ScaleFit.FourFits | src/quantization.cpp:75-91 | The chosen scale is the last of five, clamped: the first is the largest magnitude over the divisor, and each of the others is the one scale with the least error for the levels nearest under the scale before it. |
| ScaleFit.ChosenBeatsEvery | src/quantization.cpp:75-91 | Unless the clamp set it, its error under its nearest levels is at most that of any real scale with the levels of the first scale, and of the first three refits. |
| ScaleFit.FirstScaleCovers | src/quantization.cpp:72-75 | No weight exceeds the divisor times the first scale, and one reaches it; the divisor is the largest magnitude of a level. |
| ScaleFit.TiesGoTo | src/quantization.cpp:29-46 | Halfway between two levels the even one is taken, of the two-bit levels the lower one. |
| ScaleFit.ChooseScale | src/quantization.cpp:67-92 | The loops compute that scale. |
| Quantizer.DecodeInverts | src/quantization.cpp:29-56 | Decoding inverts encoding for every level of a format. |
| Quantizer.StoredRowPacked | src/quantization.cpp:94-150 | A row of stored codes reads back. |
| Quantizer.QuantizeGroup128 | src/quantization.cpp:163-220 | Refused exactly for a wrong shape or a weight that is not finite; otherwise every group has its fitted scale and every weight the code of its level. |
| Quantizer.WeightReachesLane | src/quantization.cpp:163-321 | End to end: the nibble that the matrix instruction reads for a weight, after quantizing, packing, tiling and dilating, is the level assigned to that weight under its group's scale. |
| Tiler.TileGroup128 | src/quantization.cpp:253-321 | Refused exactly for a matrix that is not valid; otherwise the tiled matrix. |
| TiledWeights.LayoutPreservesMeaning | src/kernels/lowbit_gemv.hip:302-345 | For every weight and format, reading the lane's bytes of the tiled matrix and dilating them gives the signed level of its code. |
| TiledWeights.ScalePreserved | src/kernels/lowbit_gemv.hip:525-545 | The scale a lane applies is that of its row and group. |
| Tiling.FragmentIndex | src/quantization.cpp:277-316 | The index the kernels and the tiler compute for a fragment names its row and its block of columns. |
| TiledWeights.GatherColumn | src/kernels/lowbit_gemv.hip:158-189 | A gathered element is the weight, or zero for a row out of range. |
| TiledWeights.GatherTiledColumn | src/kernels/lowbit_gemv.hip:191-231 | The tiled gather gives the same element. |
| Dilation.LaneLevels | src/kernels/lowbit_gemv.hip:302-345 | Each nibble of a lane's two words stands for the level of its code, for all three formats. |
| Chunks.ChunkOfQuantized | src/converter.cpp:358-375 | Quantizing rows on their own gives those rows of the quantized matrix. |
| Chunks.WriteQuantized | src/converter.cpp:345-393 | Converting in chunks writes the codes and scales of quantizing and tiling the whole matrix; refused exactly when there are rows and the columns make no groups, a chunk does not end at a tile, or a weight is not finite. |
| GemmGrid.DutyHasThread | src/kernels/lowbit_gemv.hip:463-500 | Every tile, candidate and half is served by a thread of the grid. |
| GemmGrid.ThreadIsUnique | src/kernels/lowbit_gemv.hip:463-500 | And by no other one. |
| GemmGrid.RouteOfUnroute | src/kernels/lowbit_gemv.hip:577-620 | Every tile of every fused matrix has its place in the fused grid. |
| Gemm.DotBound | src/kernels/lowbit_gemv.hip:1131-1134 | With clamped activations every group's dot stays within 7168, which a float holds exactly. |
| TiledGemm.TiledDotBound | src/kernels/lowbit_gemv.hip:472-553 | The same for the levels of a tiled matrix. |
| MatrixProduct.OutputIsProduct | src/kernels/lowbit_gemv.hip:472-553 | For exact arithmetic and conversions, an output is the inner product, over all columns, of the row's levels times their group's weight scales with the candidate's codes times their group's activation scales. |
| MatrixProduct.TiledOutputIsProduct | src/kernels/lowbit_gemv.hip:472-553 | Over a tiled matrix it is the inner product of the weights that the packed codes and the scales stand for, read from the tiled bytes, with the dequantized activations. |
| Gemm.RunGrid | src/kernels/lowbit_gemv.hip:463-553 | Every output of the grid is the scaled sum of its group dots, which the two rows above identify. |
| Gemm.WriterIsRouted | src/kernels/lowbit_gemv.hip:577-679 | Every output of every fused matrix is written by exactly one thread. |
| Gemm.RunFusedGrid | src/kernels/lowbit_gemv.hip:556-681 | The fused grid leaves in every matrix's buffer what that matrix's own grid leaves. |
| Gemm.LaunchFused | src/kernels/lowbit_gemv.hip:1221-1288 | Refused exactly for the guarded arguments, null pointers and the size of the grid included; unsupported exactly for a format without a kernel; otherwise a launch leaves in every output what its own grid leaves. |
| ArtifactFormat.FixedStringRoundTrip | src/artifact.cpp:88-102 | A padded string reads back exactly when it contains no zero byte. |
| LittleEndian.RecordRoundTrip | src/artifact.cpp:25-66 | A record of fixed-width fields decodes to the values that fit them. |
| LittleEndian.LeDigit | src/artifact.cpp:25-66 | Byte i of a number holds its digit for the i-th power of 256. |
| ArtifactFormat.HeaderLayout | src/artifact.cpp:28-47 | The magic, the thirteen numbers, the four padded strings and the reserved bytes of a header stand at the offsets of the packed structure. |
| ArtifactFormat.EntryLayout | src/artifact.cpp:49-66 | The same for the sixteen numbers of a directory entry. |
| Alignment.RoundUpIs | src/artifact.cpp:70-79 | Rounding up by search is the division formula. |
| Alignment.MultipleIsRemainder | src/artifact.cpp:360-372 | A multiple, found by subtracting, is what leaves no remainder, as the reader tests it. |
| ArtifactLayout.PlacesFit | src/artifact.cpp:483-502 | Every payload is placed at the first multiple of its alignment behind what precedes it, the first one behind the cursor, and a region ends with its last payload. |
| ArtifactLayout.SpansOrdered | src/artifact.cpp:483-502 | Placed regions follow each other without overlap. |
| ArtifactLayout.EnoughRoom | src/artifact.cpp:470-502 | Every accepted request that leaves that room has a layout. |
| ArtifactWriter.Write | src/artifact.cpp:426-552 | A request that is not accepted is refused, and, if the payloads with two alignments each and the names leave room in 64 bits, no other; if the offsets fit, the file written is the specified one. |
| ArtifactStreamWriter.Create | src/artifact.cpp:593-693 | Refused exactly when the plan is not accepted or the file would be too long. |
| ArtifactStreamWriter.StreamWriter.AppendData | src/artifact.cpp:695-712 | Refused exactly when finalized, unknown or too long; a failed write counts for nothing and does no harm. |
| ArtifactStreamWriter.StreamWriter.AppendAuxiliary | src/artifact.cpp:714-730 | The same for auxiliary payloads. |
| ArtifactStreamWriter.StreamWriter.Finalize | src/artifact.cpp:732-775 | Refused exactly when finalized or incomplete; otherwise the file is, byte for byte, that of the one-shot writer, whatever the order and the chunks. |
| ArtifactReader.Open | src/artifact.cpp:274-407 | A file is opened exactly when all checks pass, and reported as unsupported exactly for a version, header size or byte order it does not know. |
| ArtifactReader.OpenedIsSound | src/artifact.cpp:349-406 | An opened file has distinct valid names, known types, and aligned payloads behind the directory and the names, inside the file and disjoint. |
| PayloadRanges.SortedApart | src/artifact.cpp:400-405 | Of sorted ranges only neighbours need comparing. |
| PayloadRanges.Overlap | src/artifact.cpp:400-405 | Sorting and comparing neighbours decides whether any two ranges overlap. |
| ArtifactRoundTrip.ReaderInvertsWriter | src/artifact.cpp:274-552 | A written file opens exactly when no identity string starts with a zero byte and every type code is known; the view has the planned descriptors, and the planned identity exactly when that contains no zero byte; the payloads are where the descriptors say. |
| ArtifactRoundTrip.ReaderInvertsStream | src/artifact.cpp:593-775 | The same for every file that a stream writer has finalized. |
| Crc64.TableStepIsSerial | src/artifact.cpp:196-211 | The table step is eight bit-serial steps of division by the polynomial. |
| Crc64.Update | src/artifact.cpp:192-214 | The table loop computes the bit-serial register. |
| Crc64.UpdateComposes | src/artifact.cpp:192-214 | Updating composes over any chunking. |
| Crc64.UpdateInjective | src/artifact.cpp:207-212 | Different registers stay different over the same payload. |
| Crc64.WindowDetected | src/artifact.cpp:192-214 | Payloads of equal length that differ only within eight consecutive bytes have different checksums. |
| OnlineSoftmax.GatedAttentionBlock | src/kernels/qwen_ops.hip:698-766 | The running maximum, denominator and accumulators of one thread block give the exponential-weighted mean over all cached tokens up to the lane's own, times its gate, whatever lies above them in the cache. |
| OnlineSoftmax.StepStands | src/kernels/qwen_ops.hip:738-752 | One cached token: rescaling to the new maximum keeps what the accumulator stands for. |
| OnlineSoftmax.MeanBetween | src/kernels/qwen_ops.hip:738-762 | The mean lies between any bounds of the values of its column. |
| OnlineSoftmax.SigmoidSymmetric | src/kernels/qwen_ops.hip:760-762 | The gates of opposite arguments sum to one; if the exponential grows, a gate is between one half and one from zero on. |
| OnlineSoftmax.KvAppend | src/kernels/qwen_ops.hip:678-696 | The rows of a block go to their consecutive slots, values rounded, and nothing else changes; the slice that attention reads for an appended slot and head is that head's 256 elements of its row. |
| Argmax.ArgmaxLogits | src/kernels/qwen_ops.hip:768-807 | The strided scan and the tree find the leftmost maximum. |
| Argmax.FoldLevel | src/kernels/qwen_ops.hip:790-800 | One level of the tree keeps, in half the lanes, the leftmost maximum of what they serve. |
| DraftRows.SelectDraftHeadRows | src/converter.cpp:121-178 | Refused exactly when the file does not hold whole tables; otherwise the chosen rows. |
| DraftRows.ChosenUnique | src/converter.cpp:144-177 | What is chosen is determined: the given number of distinct rows in range, best first, with every required token, and of the others the best ranked. |
| DraftRows.ChosenIsLargest | src/converter.cpp:144-177 | No other rows of that number, distinct, in range and with the required tokens, have a larger sum of counts. |
| DraftRows.ChosenOrder | src/converter.cpp:144-177 | The rows are listed by falling counts, equal counts by rising tokens, and an optional row that is kept stands in that order before every row that is left out. |
| DraftRows.ReplacedIsBest | src/converter.cpp:158-175 | Replacing from the worst end leaves no unselected row that ranks before a selected one that is not required. |
| DraftRows.AddRequired | src/converter.cpp:158-175 | The loop ends with every required token present, required ones behind a position and the best ones before it. |
| DraftRows.SelectForModel | src/converter.cpp:144-177 | For the model's constants the selection has 98304 rows with all 21 special tokens, whatever the counts. |

## Left out

- The HIP runtime: streams, graphs and events appear as launches that the device accepts or refuses; concurrency inside a kernel is a sequential loop over its threads, and wave reductions are sums in their order.
- IEEE rounding: device scalars are uninterpreted; scales, attention and logits are real numbers; the conversion of scales to half precision is not modelled. GatedDelta and MatrixProduct speak of arithmetic that does not round; how far a rounding device is from their laws is not stated. Differently ordered kernels (scalar and batched matrix products) are taken to be the same function.
- RMS norms, rotary embeddings, SiLU, the MLP and the gated output of the recurrent kernel are functions of a token's row.
- launch_layer: one token through a layer is modelled as a block of one, since the serial kernels do the same work.
- Positions inside a round: the source counts positions while it verifies; the model counts them at the commit, and states separately what a failure in between leaves.
- Buffers after a failed commit: when a restore fails after the verification, the model says where the positions and the hidden pointer stand and that the guard refuses the next round, not what the live buffers hold; a device error inside greedy_step or block_step likewise leaves the session without a promise.
- Session.QwenDecodeSession.MtpDraft: the chain branch of its guard is modelled, but the contract is for a valid session, in which no chain is active; after a failed download, which leaves the chain active, nothing is promised about further calls.
- The session's log keeps the convolution, key, delta and decay logs of a token as one row, and a cache slot keeps key and value as one entry; GdnMemory ties the rows to the separate log regions, for the kernels.
- Model sizes: vocabulary sizes, layer kinds and their order are parameters; the number of layers is even, as the code's row buffers need; the width constants of the recurrent layers are literal.
- Output buffers of the matrix kernels are two-dimensional arrays; the matrix instruction is an integer dot product. The legacy bit-plane path for three-bit weights, the int8 and half kernels and the scalar GEMV are not part of this model.
- ArtifactWriter.Write: about an accepted request without that room it promises the file if the offsets fit, and not when the source's cursor, which can wrap at 64 bits, is refused; nor does it say anything about system calls that fail half way.
- ArtifactStreamWriter.StreamWriter.Finalize: fsync and rename either succeed or fail; retries after interrupted calls, temporary files and file descriptors are not modelled.
- Bpe.PassesAreSteps: the order condition is sufficient, and not claimed to be exact.
- Tokenizer.Encode: asks that the loop ends on its input; on the tables and texts that EndsExactly excludes, which have an empty special content, the source's loop runs forever.
- TokenizerRoundTrip.DecodeInvertsEncode: asks for special contents that are non-empty visible text.
- Driver.Generate: the sums of the prompt's length and the token limit are unbounded here; in the source (src/cli/main.cpp:1043-1053, src/server/main.cpp:508-521) the size_t sum can wrap, and the number of drafts plus one is cast to unsigned. The same holds for Server.Generate.
- The regular expression library and the normaliser are parameters: any matcher, whose bad matches are errors, and any normaliser.
- Reading JSON, safetensors and the ranking file; the fixed tensor inventory; find over resident tensors; HTTP, chat templates and command line options.
- std::sort and std::partial_sort are an insertion sort, and the front of one.
- write_quantized_rows gathers selected rows before it quantizes them like write_quantized; the gathering is not modelled.
