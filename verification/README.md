# Host-side models of the CUDA portfolio

This project models, in Dafny 4.11, the host-side logic the portfolio's inference programs stand on, together with
two kernels whose parallel structure is the interesting part, and proves what their code and comments promise.
`dafny verify dfyconfig.toml` checks everything.

| area | files |
|---|---|
| shared vocabulary and arithmetic facts | `Common`, `Numbers` |
| BPE tokenizer | `Bpe`, `Tokenizer`, `TokenizerLaws`, `TokenizerRoundTrip`, `TokenizerSpecials`, `TokenizerControl`, `TokenizerExamples` |
| generation, alone and batched | `Generation`, `StreamLaws`, `GenerationBatch`, `BatchCancel`, `BatchLoop`, `GenerationEntry` |
| reference transformer pass and KV caching | `Reference`, `ForwardPass`, `KvCache`, `AttentionLaws`, `PassLaws`, `SoftmaxLaws` |
| GGUF files | `GgufFormat`, `GgufParser`, `GgufTruncation`, `GgufLayout`, `GgufRoundTrip`, `GgufConverse`, `GgufValues` |
| model configuration and composed bounds | `ModelConfig`, `MissingKey`, `ModelBounds`, `ModelWeights`, `ModelNames` |
| W4A8 matrix-vector kernel, quantizers, block codecs | `PackedWords`, `QuantGroup`, `QuantGemv`, `GemvMeaning`, `Quantizers`, `Quant`, `QuantLaws` |
| dynamic batcher | `Batcher`, `BatcherRuns`, `BatcherBatches` |
| page allocator | `PageAllocator` |
| llama.cpp reference files | `LogitsFile` |
| tiled matrix product | `TiledMatmul`, `TiledRuns`, `TiledLaws` |

How the models are built:

* Code that works step by step is a method with loops, or a class with the original's fields, proved against a
  specification function; what the original promises is then proved about that function. Threads (the batcher, the
  tiled product) are state machines over atomic steps, and theorems quantify over every interleaving.
* C++ exceptions are `Err` results. Bytes are integers 0 to 255, or `bv8` where bits are OR-ed. Widths matter where the
  code's promises depend on them: 64-bit sums and products wrap, `int` conversions truncate, packed bytes are two's
  complement, and the proofs show where nothing wraps.
* Floating point is uninterpreted (`Arith`, `Ops`, function parameters), so equalities hold bit for bit for any
  arithmetic; where a property is about exact scale arithmetic or rounding bounds, reals are used.
* A specification function that says what a step does is characterized a second time without naming it: merges by
  the tables, streams by draws and verdicts, attention by its laws over the reals, parsed files by what their fields
  denote, batches by the queue they empty, packed formats by plain arithmetic on their bytes.
* The tokenizer, sampler and logits are deterministic function parameters of generation; `Runtime::step` follows its
  documented contract, logits being a function of the tokens a sequence holds.

Where code and expectations part ways, the code is modelled:

* `generate` with a callback accepts a negative `max_new_tokens` and returns no tokens; `generate_batch` rejects it, and
  it also rejects every request when `max_batch` is below one. `GenerationEntry.BothWays` puts both answers side by
  side.
* `load_config` falls back to plain multi-head attention when the kv head-count key is missing, but `reference_logits`
  dereferences that key. `ModelConfig.ReferenceReadsIff` gives the condition, `MissingKey.KeyMayBeMissing` a file that
  is accepted without it, and `ModelWeights.AcceptedModelShaped` needs it as a premise.
* The extreme/-8 quantizer is not within half a step everywhere. `Quantizers.Extreme8Bound` says exactly where,
  `Quantizers.HalfStepFails` shows a group that is not.
* Decoding does not restore U+2581, control spellings, or symbols whose entry is typed as control or byte.
  `TokenizerControl.RoundTripExact` is the exact condition, `TokenizerExamples.Failures` gives a text of each kind with
  what it decodes to.

## Model

| member | source | states |
|---|---|---|
| Bpe.FindBestIsBest | cuda-portfolio/19-llm-engine/tests/test_llm_host.cpp:512-529 | one scan finds a mergeable pair that no other pair precedes by key, leftmost on a tie, or there is none |
| Bpe.RescanMerges | cuda-portfolio/19-llm-engine/tests/test_llm_host.cpp:511-532 | the definition of BPE proceeds by merging any pair that is best in that order |
| Bpe.FindsFirstPair | cuda-portfolio/19-llm-engine/tests/test_llm_host.cpp:517-525 | the scan finds the mergeable pair of lowest rank or highest score, leftmost on a tie, or no neighbouring pair is in the table |
| Bpe.MergesToRescan | cuda-portfolio/19-llm-engine/tests/test_llm_host.cpp:516-530 | every run of merges that always takes the pair the tables put first and stops when none is left ends with the symbols of the definition, one fewer per merge |
| Bpe.RescanMergesTo | cuda-portfolio/19-llm-engine/tests/test_llm_host.cpp:516-530 | and the definition is such a run |
| Bpe.InitSymbols | cuda-portfolio/19-llm-engine/src/tokenizer.cpp:87-94 | the initial list of spans is well linked, tiles the text and spells its UTF-8 characters |
| Bpe.StaleTestExact | cuda-portfolio/19-llm-engine/src/tokenizer.cpp:130 | a queued candidate passes the four-way stale test if and only if it is the current candidate of two live neighbours |
| Bpe.TopIsBest | cuda-portfolio/19-llm-engine/src/tokenizer.cpp:110-130 | a fresh candidate that no queued one precedes is the best pair of the current symbols, ties included: the pair the tables put first |
| Bpe.EmptyQueueIsFinal | cuda-portfolio/19-llm-engine/src/tokenizer.cpp:125-137 | when the queue is empty no neighbouring symbols are in the tables and rescanning would stop as well |
| Bpe.Consider | cuda-portfolio/19-llm-engine/src/tokenizer.cpp:111-122 | pushes exactly the candidate of the pair under either algorithm, and nothing for a missing end |
| Bpe.FillQueue | cuda-portfolio/19-llm-engine/src/tokenizer.cpp:123 | after the first loop every mergeable neighbour pair has its candidate queued, with at most n - 1 pushes |
| Bpe.MergeKeepsList | cuda-portfolio/19-llm-engine/src/tokenizer.cpp:131-134 | the four in-place updates of a merge keep the list well linked, increasing and tiling the text |
| Bpe.MergeConcatenates | cuda-portfolio/19-llm-engine/src/tokenizer.cpp:131-134 | those updates replace the pair by the concatenation of its two spellings and change no other symbol |
| Bpe.MergeKeepsQueue | cuda-portfolio/19-llm-engine/src/tokenizer.cpp:126-137 | after a merge the remaining candidates are still sound and still cover every pair away from it |
| Bpe.Merge | cuda-portfolio/19-llm-engine/src/tokenizer.cpp:131-136 | one merge with its two new candidates keeps list and queue invariants and advances the definition by one step |
| Bpe.MergeLoop | cuda-portfolio/19-llm-engine/src/tokenizer.cpp:125-137 | for every rank or score table the queue-driven loop ends with exactly the symbols that rescanning ends with; each pair it merged is in the table, listed earliest or scoring highest among those present and leftmost on a tie, it stops exactly when none is left, and at most 3(n - 1) candidates are ever pushed |
| Tokenizer.IndexFirst | cuda-portfolio/19-llm-engine/src/tokenizer.cpp:57-62 | a repeated spelling keeps its first index |
| Tokenizer.Load | cuda-portfolio/19-llm-engine/src/tokenizer.cpp:35-73 | accepts exactly the files the constructor accepts and establishes every table it promises |
| Tokenizer.Normalize | cuda-portfolio/19-llm-engine/src/tokenizer.cpp:78-79 | the dummy prefix, then the text with spaces marked |
| Tokenizer.EncodePlain | cuda-portfolio/19-llm-engine/src/tokenizer.cpp:75-150 | linked list and queue together emit the tokens of the rescanning definition, which are those of the symbols a run of merges by the tables ends with, with byte fallback |
| Tokenizer.FindsFirst | cuda-portfolio/19-llm-engine/src/tokenizer.cpp:164 | substring search returns the first occurrence, and none only if there is none |
| Tokenizer.NextControlFirst | cuda-portfolio/19-llm-engine/src/tokenizer.cpp:159-170 | the split point is the earliest control spelling at or after the start |
| Tokenizer.Encode | cuda-portfolio/19-llm-engine/src/tokenizer.cpp:152-184 | the loop emits the segments between control spellings and the control ids, `bos` preferred where both start together |
| Tokenizer.Piece | cuda-portfolio/19-llm-engine/src/tokenizer.cpp:186-203 | text of one token: nothing for control, one byte for byte tokens, otherwise the spelling with U+2581 as space; the error cases included |
| Tokenizer.Decode | cuda-portfolio/19-llm-engine/src/tokenizer.cpp:205-212 | concatenated pieces with one leading space dropped, or the first error |
| TokenizerLaws.CharsAre | cuda-portfolio/19-llm-engine/src/tokenizer.cpp:87-93 | cutting into symbols loses nothing, malformed bytes included, and each piece has the length its lead byte announces unless the text ends in it |
| TokenizerLaws.LeadBytes | cuda-portfolio/19-llm-engine/src/tokenizer.cpp:23-31 | length announced by each kind of lead byte; bytes that start no character stand alone |
| TokenizerLaws.ByteNameSpelled | cuda-portfolio/19-llm-engine/src/tokenizer.cpp:64-68 | byte tokens are spelled with two upper-case hexadecimal digits |
| TokenizerLaws.HexDenotes | cuda-portfolio/19-llm-engine/src/tokenizer.cpp:190-192 | two hexadecimal digits of either case denote their byte; a leading blank or plus is skipped and a minus negates modulo 256 |
| TokenizerLaws.BosLeads | cuda-portfolio/19-llm-engine/src/tokenizer.cpp:152-154 | with `add_bos` the tokens are one more, led by `bos`, and otherwise the same |
| TokenizerLaws.EncodedSplits | cuda-portfolio/19-llm-engine/src/tokenizer.cpp:152-184 | the text is cut at the first control spelling, `bos` where both start together, and again behind it until none is left; its tokens are those of the segments encoded by themselves with the control ids in between |
| TokenizerRoundTrip.WellFormedIsFramed | cuda-portfolio/19-llm-engine/src/tokenizer.cpp:23-31 | well-formed UTF-8 (section 4 of RFC 3629) is cut into its characters by lead byte alone |
| TokenizerRoundTrip.RescanKeepsText | cuda-portfolio/19-llm-engine/src/tokenizer.cpp:125-137 | merging keeps the concatenation of the symbols and never splits a character |
| TokenizerRoundTrip.SymbolsSpellText | cuda-portfolio/19-llm-engine/src/tokenizer.cpp:75-137 | the final symbols spell the normalized text, which unmarks to a space and the text |
| TokenizerRoundTrip.ByteTokenDecodes | cuda-portfolio/19-llm-engine/src/tokenizer.cpp:64-70 | the token of every byte decodes to that byte |
| TokenizerRoundTrip.SymbolsDecode | cuda-portfolio/19-llm-engine/src/tokenizer.cpp:139-149 | ordinary symbols decode to their spelling with U+2581 as space, byte fallback included |
| TokenizerRoundTrip.SpecialFreeIsOrdinary | cuda-portfolio/19-llm-engine/src/tokenizer.cpp:188-192 | a text in which no control or byte spelling occurs has only ordinary symbols |
| TokenizerSpecials.SpecialShrinks | cuda-portfolio/19-llm-engine/src/tokenizer.cpp:186-192 | a symbol with a control- or byte-typed entry decodes to strictly less than its spelling, or not at all |
| TokenizerSpecials.SpecialFirstShrinks | cuda-portfolio/19-llm-engine/src/tokenizer.cpp:186-212 | as the first symbol it loses at least two bytes, more than dropping the dummy prefix |
| TokenizerSpecials.PlainRoundTrip | cuda-portfolio/19-llm-engine/src/tokenizer.cpp:75-212 | for text without control spellings decoding gives the text with U+2581 as space if and only if no symbol has a control- or byte-typed entry, and the text itself if and only if it also holds no U+2581 |
| TokenizerControl.CutFramed | cuda-portfolio/19-llm-engine/src/tokenizer.cpp:157-182 | UTF-8 may be cut in front of any byte that does not continue a character |
| TokenizerControl.ControlShrinks | cuda-portfolio/19-llm-engine/src/tokenizer.cpp:171-181 | a control spelling makes the decoded text strictly shorter than the original |
| TokenizerControl.RoundTripExact | cuda-portfolio/19-llm-engine/src/tokenizer.cpp:152-212 | decode(encode(text)) is the text if and only if it spells out neither a control token nor U+2581 and none of its symbols has a control- or byte-typed entry |
| TokenizerExamples.Failures | cuda-portfolio/19-llm-engine/src/tokenizer.cpp:35-212 | on a vocabulary the loader accepts, encoding and decoding turns U+2581 into a space and loses a control spelling and a control-typed letter altogether |
| Generation.Runtime.Step | cuda-portfolio/19-llm-engine/include/runtime.h:181-185 | appends one token to each named sequence and returns its row of logits, all other sequences untouched; fails without any change exactly when some named sequence is full |
| Generation.Prefill | cuda-portfolio/19-llm-engine/src/generator.cpp:154-161 | feeds the prompt, polling for cancellation before every token, and keeps the logits after its last token |
| Generation.DecodeLoop | cuda-portfolio/19-llm-engine/src/generator.cpp:165-189 | sampling until limit, cancellation, end of sequence, callback or full context equals the recursive definition |
| Generation.Generate | cuda-portfolio/19-llm-engine/src/generator.cpp:135-193 | errors exactly on an empty or too long prompt, otherwise reports what the definition streams, cancelled at any poll or not, and returns its sequence |
| Generation.StreamIsPrefix | cuda-portfolio/19-llm-engine/src/generator.cpp:153-189 | cancelling a stream loses a suffix of its tokens and nothing else |
| StreamLaws.GeneratedIsStream | cuda-portfolio/19-llm-engine/src/generator.cpp:165-189 | the result of the loop is, exactly, the drawn tokens up to the first reason to stop, with that reason |
| StreamLaws.TokensAreDraws | cuda-portfolio/19-llm-engine/src/generator.cpp:165-188 | token i is the sampler's draw from the logits of the prompt and the first i tokens with the sampler state threaded, none is the end of the sequence, and limit, context and cancellation bound their number |
| StreamLaws.PrefixesAccepted | cuda-portfolio/19-llm-engine/src/generator.cpp:179-182 | every proper non-empty prefix was accepted by the callback, and refusing the whole result cancels it |
| StreamLaws.CallbackCuts | cuda-portfolio/19-llm-engine/src/generator.cpp:179-182 | uncancelled, a callback cuts the stream of the always-true callback behind the first tokens it refuses and changes nothing when it refuses none |
| StreamLaws.Reasons | cuda-portfolio/19-llm-engine/src/generator.cpp:154-191 | what each finish reason says: limit reached, next draw is the end of the sequence, no room in the context, refused or cancelled; the text is the decoded tokens |
| GenerationBatch.SoloPrefill | cuda-portfolio/19-llm-engine/src/generator.cpp:107-112 | while the prompt is fed a request holds exactly the fed prefix |
| GenerationBatch.SoloOnTrack | cuda-portfolio/19-llm-engine/src/generator.cpp:94-130 | pass by pass a request alone is on the way to the outcome of `generate` with an always-true callback, or has reached it |
| GenerationBatch.SoloEnds | cuda-portfolio/19-llm-engine/src/generator.cpp:82-131 | every request ends within its prompt, its tokens and one more pass |
| GenerationBatch.SoloDone | cuda-portfolio/19-llm-engine/src/generator.cpp:116-129 | a finished request holds the tokens and the finish reason of `generate` |
| GenerationBatch.CancelledIsPrefix | cuda-portfolio/19-llm-engine/src/generator.cpp:87-90 | cancelling loses a suffix of the tokens and nothing else |
| BatchCancel.CancelExact | cuda-portfolio/19-llm-engine/src/generator.cpp:82-131 | a batch cancelled at a pass returns a finished request unchanged and of an unfinished one exactly the tokens of its passes so far: none during the prompt, then one per pass |
| GenerationEntry.GenerateAny | cuda-portfolio/19-llm-engine/src/generator.cpp:135-193 | without a callback `generate` is a batch of one, errors and cancellation included; with one it is the stream; with a callback every token list but the last was accepted and refusing the last cancels |
| GenerationEntry.BothWays | cuda-portfolio/19-llm-engine/src/generator.cpp:43-193 | taken both ways the same request gives the same result; the batch rejects in addition exactly a negative limit, which the stream answers with no tokens, and a runtime without room for one request |
| BatchLoop.Close | cuda-portfolio/19-llm-engine/src/generator.cpp:72-80 | finishing records the reason once, returns the sequence and renders the text |
| BatchLoop.Advance | cuda-portfolio/19-llm-engine/src/generator.cpp:107-130 | one row of logits moves its request exactly as it would alone |
| BatchLoop.CheckCapacity | cuda-portfolio/19-llm-engine/src/generator.cpp:92-103 | requests with full sequences finish, and `batch`, `seqs` and `tokens` stay index-aligned for the rest |
| BatchLoop.StepBatch | cuda-portfolio/19-llm-engine/src/generator.cpp:105-130 | each request of the batch receives its own row; requests outside it and their sequences do not change |
| BatchLoop.Round | cuda-portfolio/19-llm-engine/src/generator.cpp:82-131 | one pass moves every unfinished request as one pass alone would and leaves finished ones alone |
| BatchLoop.Admit | cuda-portfolio/19-llm-engine/src/generator.cpp:54-70 | rejects the call if and only if some request is inadmissible, otherwise opens one fresh sequence for each |
| BatchLoop.StaysDone | cuda-portfolio/19-llm-engine/src/generator.cpp:72-73 | a finished request stays as it is in every later pass |
| BatchLoop.RunPasses | cuda-portfolio/19-llm-engine/src/generator.cpp:82-131 | the loop ends, with every request finished and reporting as it would alone, cancelled or not |
| BatchLoop.GenerateBatch | cuda-portfolio/19-llm-engine/src/generator.cpp:43-133 | batch non-interference: every result equals that of the request alone, equal to `generate` without cancellation; errors exactly characterized; every sequence returned |
| Reference.GroupFits | cuda-portfolio/19-llm-engine/src/reference.cpp:121 | the key/value head of every query head is in range because heads are a multiple of kv heads |
| AttentionLaws.KvHeadOf | cuda-portfolio/19-llm-engine/src/reference.cpp:121 | the i-th query head of group g reads key/value head g |
| AttentionLaws.GroupedIsMultiHead | cuda-portfolio/19-llm-engine/src/reference.cpp:118-138 | grouped attention is multi-head attention on keys and values whose heads are repeated group by group, for any arithmetic |
| AttentionLaws.RopedPair | cuda-portfolio/19-llm-engine/src/reference.cpp:63-74 | each pair of each head turns by the angle of its own index and position |
| AttentionLaws.RelativePosition | cuda-portfolio/19-llm-engine/src/reference.cpp:63-74 | over the reals, when every position turns a pair one fixed angle further, the score of a rotated query and key depends only on the difference of their positions |
| Reference.Mul | cuda-portfolio/19-llm-engine/src/reference.cpp:43-52 | the loops compute the row-by-row products summed from the left |
| Reference.RmsNorm | cuda-portfolio/19-llm-engine/src/reference.cpp:54-61 | the two loops compute the normalized vector |
| Reference.Rope | cuda-portfolio/19-llm-engine/src/reference.cpp:63-74 | rotating pairs in place turns every coordinate by its own pair's original values; the last coordinate of an odd head stays |
| Reference.AttendHead | cuda-portfolio/19-llm-engine/src/reference.cpp:120-138 | one head's slice accumulates the weighted values of all cached positions and no other coordinate changes |
| Reference.Attend | cuda-portfolio/19-llm-engine/src/reference.cpp:119-138 | all heads together give attention of one query over the cached rows |
| ForwardPass.Project | cuda-portfolio/19-llm-engine/src/reference.cpp:108-116 | queries, keys and values of every position |
| ForwardPass.FeedForward | cuda-portfolio/19-llm-engine/src/reference.cpp:147-154 | the gated feed-forward block with its residual update |
| ForwardPass.RunLayer | cuda-portfolio/19-llm-engine/src/reference.cpp:100-155 | one layer with residual rows updated in place equals the position-wise definition on the original rows |
| ForwardPass.ReferenceLogits | cuda-portfolio/19-llm-engine/src/reference.cpp:78-161 | the whole pass computes the logits of the definition and errs exactly on no tokens; every index is in range |
| KvCache.LayerPrefix | cuda-portfolio/19-llm-engine/src/reference.cpp:118-141 | rows of a layer depend on no later row |
| KvCache.HiddenPrefix | cuda-portfolio/19-llm-engine/src/reference.cpp:98-155 | after every layer the states of a prefix are the prefix of the states |
| KvCache.Causality | cuda-portfolio/19-llm-engine/src/reference.cpp:98-155 | hidden state t is bit for bit the same for any two token sequences that agree on 0..t, whatever the arithmetic |
| KvCache.CachedLayersAgree | cuda-portfolio/19-llm-engine/src/reference.cpp:98-155 | one more token fed through caches of the earlier positions gives the layer-major row and caches that hold it |
| KvCache.CachedEqualsWhole | cuda-portfolio/19-llm-engine/src/reference.cpp:78-161 | token-by-token decoding with a key/value cache gives the logits of the whole pass, bit for bit |
| PassLaws.RowIsInner | cuda-portfolio/19-llm-engine/src/reference.cpp:43-52 | over the reals an entry of a product is the inner product of its row with the vector |
| PassLaws.NormEnergy | cuda-portfolio/19-llm-engine/src/reference.cpp:54-61 | with unit weights the mean square of a normalized vector is one up to the epsilon |
| PassLaws.SilentLayer | cuda-portfolio/19-llm-engine/src/reference.cpp:139-154 | with zero output matrices a layer leaves the residual stream as it was |
| PassLaws.SilentModel | cuda-portfolio/19-llm-engine/src/reference.cpp:91-160 | when every layer is silent the logits are the output matrix applied to the normalized embedding of the last token |
| PassLaws.ScoresAreRelative | cuda-portfolio/19-llm-engine/src/reference.cpp:109-128 | scores of a layer see two positions only through their distance |
| PassLaws.FfnLinearInUp | cuda-portfolio/19-llm-engine/src/reference.cpp:147-154 | what the feed-forward block adds is linear in its up matrix |
| PassLaws.ClosedGate | cuda-portfolio/19-llm-engine/src/reference.cpp:147-154 | with gate, up or norm weights zero the block adds nothing |
| SoftmaxLaws.WeightsSum | cuda-portfolio/19-llm-engine/src/reference.cpp:131-134 | the weights of a head add up to one |
| SoftmaxLaws.WeightRatio | cuda-portfolio/19-llm-engine/src/reference.cpp:131-134 | two weights stand to each other as the exponential of the difference of their scores |
| SoftmaxLaws.UniformAttention | cuda-portfolio/19-llm-engine/src/reference.cpp:118-141 | without a query matrix position t receives, in every head of a group, the mean of that group's values over positions 0 to t |
| SoftmaxLaws.NothingToAttend | cuda-portfolio/19-llm-engine/src/reference.cpp:109-141 | without values, or without the norm in front of them, attention adds nothing |
| GgufFormat.LERoundTrip | cuda-portfolio/01-gguf-inference/src/gguf.cpp:42-49 | little-endian numbers read back as written |
| GgufValues.ByteAt | cuda-portfolio/01-gguf-inference/src/gguf.cpp:43-49 | byte i of a written number is its digit of weight 256^i, least significant first |
| GgufParser.Cursor.Need | cuda-portfolio/01-gguf-inference/src/gguf.cpp:37-41 | the bounds check is exact; its sum cannot wrap |
| GgufParser.Cursor.Str | cuda-portfolio/01-gguf-inference/src/gguf.cpp:50-57 | strings are read exactly as the format says, over-long and truncated ones rejected |
| GgufParser.ReadOne | cuda-portfolio/01-gguf-inference/src/gguf.cpp:74-102 | the recursive reader agrees with the format on every value, nested arrays included, and terminates on remaining bytes |
| GgufParser.ParseEntries | cuda-portfolio/01-gguf-inference/src/gguf.cpp:208-237 | the metadata loop fills the four tables as the format says, repeated keys included |
| GgufParser.CheckedMul | cuda-portfolio/01-gguf-inference/src/gguf.cpp:109-114 | accepts a product if and only if it is within the cap, and then it has not wrapped |
| GgufParser.ParseTensor | cuda-portfolio/01-gguf-inference/src/gguf.cpp:252-278 | one tensor record, with every check in the order of the parser |
| GgufParser.NumElements | cuda-portfolio/01-gguf-inference/src/gguf.cpp:140-144 | the wrapping product is the true element count of every accepted tensor |
| GgufParser.NumBytes | cuda-portfolio/01-gguf-inference/src/gguf.cpp:146-151 | so is the wrapping byte count |
| GgufParser.AllInside | cuda-portfolio/01-gguf-inference/src/gguf.cpp:288-295 | the non-wrapping comparisons decide whether every tensor lies in the blob |
| GgufParser.NoneOverlap | cuda-portfolio/01-gguf-inference/src/gguf.cpp:296-303 | sorting and comparing neighbours decides pairwise disjointness |
| GgufParser.Parse | cuda-portfolio/01-gguf-inference/src/gguf.cpp:190-304 | on every image the parser accepts exactly what the format accepts and returns exactly its tables and tensors |
| GgufTruncation.TruncationExact | cuda-portfolio/01-gguf-inference/src/gguf.cpp:37-63 | of an accepted image every prefix shorter than its end is rejected and every longer one is accepted with the same result |
| GgufLayout.TensorNonEmpty | cuda-portfolio/01-gguf-inference/src/gguf.cpp:261-274 | no accepted tensor is empty |
| GgufLayout.AcceptedLayout | cuda-portfolio/01-gguf-inference/src/gguf.cpp:239-304 | in an accepted file all tensors are non-empty, inside the image, aligned and pairwise disjoint |
| GgufLayout.SortedAdjacentIff | cuda-portfolio/01-gguf-inference/src/gguf.cpp:298-303 | for tensors in offset order comparing neighbours is equivalent to comparing all pairs |
| GgufLayout.AdjacentDecides | cuda-portfolio/01-gguf-inference/src/gguf.cpp:296-303 | whatever order the sort leaves equal offsets in, the neighbour check decides overlap of the original list |
| GgufRoundTrip.ValueBack | cuda-portfolio/01-gguf-inference/src/gguf.cpp:74-102 | a printed value is read back and the reader stops exactly behind it, at any nesting depth |
| GgufRoundTrip.EntryBack | cuda-portfolio/01-gguf-inference/src/gguf.cpp:208-237 | a printed entry is read back into its table |
| GgufRoundTrip.TensorBack | cuda-portfolio/01-gguf-inference/src/gguf.cpp:252-278 | a printed tensor record is read back |
| GgufRoundTrip.ParserInvertsPrinter | cuda-portfolio/01-gguf-inference/src/gguf.cpp:190-304 | parsing the image of any well-formed model returns its version, tables, tensors, alignment and data offset |
| GgufRoundTrip.TablesHold | cuda-portfolio/01-gguf-inference/src/gguf.cpp:208-237 | with distinct keys each scalar and kept array is found under its key, in its table and no other |
| GgufRoundTrip.RoundTrip | cuda-portfolio/01-gguf-inference/src/gguf.cpp:190-304 | for a well-formed model with distinct keys everything written is found again and nothing else is |
| GgufValues.DatumKept | cuda-portfolio/01-gguf-inference/src/gguf.cpp:74-87 | a number in the range of its type, written in two's complement, a float pattern or a flag is kept as what it denotes, with the width of its type |
| GgufValues.Unsigned64 | cuda-portfolio/01-gguf-inference/src/gguf.cpp:82 | an unsigned 64-bit number comes back if and only if it is below 2^63 |
| GgufValues.ReadsDatum | cuda-portfolio/01-gguf-inference/src/gguf.cpp:74-86 | wherever the bytes of such a value occur the reader finds what they denote and stops behind them |
| GgufValues.ScalarBack | cuda-portfolio/01-gguf-inference/src/gguf.cpp:208-213 | every scalar of a printed file is found under its key as what it denotes |
| GgufValues.ArrayBack | cuda-portfolio/01-gguf-inference/src/gguf.cpp:217-236 | so is every element of an array of numbers, in order, in the table of its kind |
| GgufValues.StringsBack | cuda-portfolio/01-gguf-inference/src/gguf.cpp:208-223 | strings come back byte for byte, alone and in arrays |
| GgufValues.RepeatedKey | cuda-portfolio/01-gguf-inference/src/gguf.cpp:208-236 | an array under a key seen before is appended, a scalar replaces |
| GgufValues.AlignmentStored | cuda-portfolio/01-gguf-inference/src/gguf.cpp:239-247 | the alignment of an accepted file is the integer stored under its key, or 32 without it, and a power of two |
| GgufConverse.ParsedExactly | cuda-portfolio/01-gguf-inference/src/gguf.cpp:190-305 | the parser returns f for b if and only if b is the printed form, up to padding, of a well-formed image that says f |
| ModelConfig.ValidateConfig | cuda-portfolio/19-llm-engine/src/model_config.cpp:86-123 | accepts exactly the configurations that meet every structural and kernel constraint |
| ModelConfig.LoadConfig | cuda-portfolio/19-llm-engine/src/model_config.cpp:45-84 | accepts exactly the describable and valid metadata and returns the configuration it describes |
| ModelConfig.ReferenceReadsIff | cuda-portfolio/19-llm-engine/src/reference.cpp:80-83 | the lookups of the reference pass agree with an accepted configuration if and only if the kv head-count key is present |
| MissingKey.KeyMayBeMissing | cuda-portfolio/19-llm-engine/src/model_config.cpp:58-60 | a concrete printed file that parses and whose metadata is accepted without that key |
| ModelConfig.RequiredTensors | cuda-portfolio/19-llm-engine/src/model_config.cpp:125-147 | the loop builds the manifest layer by layer |
| ModelConfig.ManifestHas | cuda-portfolio/19-llm-engine/src/model_config.cpp:134-145 | every tensor of every layer below the layer count is in the manifest |
| ModelConfig.ValidateTensors | cuda-portfolio/19-llm-engine/src/model_config.cpp:149-171 | reports no problem if and only if every required tensor is present with an allowed type and its exact shape |
| ModelBounds.ReadsExactly | cuda-portfolio/19-llm-engine/src/reference.cpp:33-39 | the bytes a tensor owns are exactly those its element count needs, in whole blocks |
| ModelBounds.EmbeddingRowInside | cuda-portfolio/19-llm-engine/src/reference.cpp:91-95 | the embedding row of every token below the vocabulary size lies inside the tensor and the image |
| ModelWeights.DecodeAll | cuda-portfolio/19-llm-engine/src/reference.cpp:32-39 | given the bytes of a tensor every dequantizer succeeds and yields each element |
| ModelWeights.LoadTensor | cuda-portfolio/19-llm-engine/src/reference.cpp:26-41 | loading a tensor of an accepted file fails exactly on an unknown type, and yields its rows, columns and elements |
| ModelWeights.SizesAgree | cuda-portfolio/19-llm-engine/src/reference.cpp:80-83 | the sizes read from the metadata exist if and only if the kv head-count key is present, and then equal the configuration's |
| ModelWeights.AcceptedModelShaped | cuda-portfolio/19-llm-engine/src/reference.cpp:78-161 | a file that parses, validates and holds the kv head-count key yields, with sizes from the metadata, a model on which every index of the forward pass is in range |
| ModelWeights.ReferenceOnFile | cuda-portfolio/19-llm-engine/src/reference.cpp:78-161 | the reference pass on such a file runs for all tokens below the vocabulary size and returns the logits of the definition, erring exactly on no tokens |
| ModelNames.LayerByName | cuda-portfolio/19-llm-engine/src/reference.cpp:100-146 | every weight of a layer is the tensor of its own name |
| ModelNames.ModelByName | cuda-portfolio/19-llm-engine/src/reference.cpp:100-160 | the model has the layers, output norm and output matrix of the file under their names |
| ModelNames.EmbeddingIsRow | cuda-portfolio/19-llm-engine/src/reference.cpp:91-96 | decoding the row of a token is cutting row number token out of the decoded embedding tensor |
| ModelNames.NamesDiffer | cuda-portfolio/19-llm-engine/src/model_config.cpp:133-147 | no two weights of any two layers share a name |
| ModelBounds.LoadChecked | cuda-portfolio/19-llm-engine/src/model_config.cpp:45-171 | parsing, configuration and manifest checks together let through exactly the files fit to run |
| PackedWords.NibIsWeight | cuda-projects/01-quant-llm/quant_gemv.cu:46-48 | nibbles unpacked from a loaded word are those the sequential model reads from memory |
| PackedWords.Pack4Bytes | cuda-projects/01-quant-llm/quant_gemv.cu:50-52 | packing keeps four signed bytes in two's complement |
| QuantGroup.GroupBound | cuda-projects/01-quant-llm/quant_gemv.cu:210-226 | every partial group sum is within 8 times the largest activation per product |
| QuantGroup.GroupWithin32512 | cuda-projects/01-quant-llm/quant_gemv.cu:210-226 | with activations in -127..127 every group sum is within 32512 |
| QuantGroup.LaneGroup | cuda-projects/01-quant-llm/quant_gemv.cu:138-152 | eight packed dot products compute the group sum without wrapping |
| QuantGemv.LaneLoop | cuda-projects/01-quant-llm/quant_gemv.cu:135-154 | a lane sums exactly the groups congruent to it |
| QuantGemv.LanesTotal | cuda-projects/01-quant-llm/quant_gemv.cu:135-154 | the 32 strided sums add up to the sequential sum |
| QuantGemv.ShuffleFolds | cuda-projects/01-quant-llm/quant_gemv.cu:54-59 | one shuffle step folds the upper half of the live stretch onto the lower, garbage above it notwithstanding |
| QuantGemv.WarpReduce | cuda-projects/01-quant-llm/quant_gemv.cu:54-59 | lane 0 ends with the sum of all lanes |
| QuantGemv.GemvQ4 | cuda-projects/01-quant-llm/quant_gemv.cu:124-157 | the kernel computes, for every row, the scaled integer dot products of the model |
| QuantGemv.CpuRefQ4 | cuda-projects/01-quant-llm/quant_gemv.cu:212-230 | the sequential reference computes the same rows, from its own flat indices |
| GemvMeaning.RowMeans | cuda-projects/01-quant-llm/quant_gemv.cu:212-230 | what both compute for a row is the inner product, over all whole groups, of dequantized weights (digit less eight, times the group's scale) and dequantized activations |
| Batcher.InvKept | cuda-portfolio/02-image-embed/src/batcher.cpp:40-66 | every step of every thread keeps conservation, batch sizes, counters and control |
| Batcher.NoFlush | cuda-portfolio/02-image-embed/src/batcher.cpp:107-123 | the leftover list in `drain` is always empty, so handlers run only on the worker |
| BatcherRuns.Safety | cuda-portfolio/02-image-embed/src/batcher.cpp:40-66 | in every reachable state accepted = handled ++ in flight ++ pending in order, batches hold 1..max_batch items, items <= batches * max_batch |
| BatcherRuns.DrainComplete | cuda-portfolio/02-image-embed/src/batcher.cpp:98-124 | when `drain` returns everything accepted was handled exactly once in order and all three counters are exact |
| BatcherRuns.DrainProgress | cuda-portfolio/02-image-embed/src/batcher.cpp:98-106 | once draining, every step that changes anything lowers the measure |
| BatcherRuns.DrainNotStuck | cuda-portfolio/02-image-embed/src/batcher.cpp:42-50 | until `drain` returns some such step is enabled |
| BatcherRuns.DrainBounded | cuda-portfolio/02-image-embed/src/batcher.cpp:98-124 | a draining run has at most as many effective steps as the measure it started with |
| BatcherBatches.AcceptedIsSubmitted | cuda-portfolio/02-image-embed/src/batcher.cpp:89-103 | in every run exactly the requests submitted before the first call of `drain` are accepted, in that order |
| BatcherBatches.FullOrEverything | cuda-portfolio/02-image-embed/src/batcher.cpp:52-54 | a woken worker takes the front of the queue: a full batch, or everything there is |
| BatcherBatches.DrainCalls | cuda-portfolio/02-image-embed/src/batcher.cpp:42-105 | a drain that finds n requests waiting makes exactly ceil(n / max_batch) handler calls after the one in progress; they hold those requests in order and all but the last are full |
| BatcherBatches.LargestIs | cuda-portfolio/02-image-embed/src/batcher.cpp:62-63 | the largest-batch counter is the size of some batch and no batch is larger |
| Quant.HalfIncreasing | cuda-portfolio/19-llm-engine/src/quant.cpp:11-24 | finite halves are ordered as their bit patterns, across subnormals and exponents |
| Quant.Fp16Injective | cuda-portfolio/19-llm-engine/src/quant.cpp:11-24 | distinct patterns other than NaNs denote distinct values (binary16, section 3.4 of IEEE 754-2008) |
| QuantLaws.HalfScale | cuda-portfolio/19-llm-engine/src/quant.cpp:11-24 | up to 2^-13 patterns count units of 2^-24, subnormals and the first normal exponent alike; from there one more in the exponent doubles the magnitude |
| QuantLaws.HalfLandmarks | cuda-portfolio/19-llm-engine/src/quant.cpp:11-24 | 0x3C00 is one, the sign bit changes only the sign, 0x7C00 is infinite and what follows is no number |
| QuantLaws.HalfFromBytes | cuda-portfolio/19-llm-engine/src/quant.cpp:30-32 | a scale is read from its two printed bytes, least significant first |
| Quant.CodeOfPacked | cuda-portfolio/19-llm-engine/src/quant.cpp:70-76 | unpacking a packed Q6_K block returns every six-bit code |
| Quant.PackOfCodes | cuda-portfolio/19-llm-engine/src/quant.cpp:70-76 | packing what was unpacked returns the block: the layout is a bijection |
| QuantLaws.Q6Place | cuda-portfolio/19-llm-engine/src/quant.cpp:70-75 | code 128 half + 32 m + l has its low digit in byte 64 half + 32 (m mod 2) + l, shared with the code 64 away, and its high digit as base-4 digit m of byte l of its half |
| Quant.PackByOr | cuda-portfolio/19-llm-engine/tests/test_llm_host.cpp:414-428 | OR-ing nibbles and fields into zeroed bytes in index order produces exactly the packed block |
| Quant.DequantizeQ6K | cuda-portfolio/19-llm-engine/src/quant.cpp:58-78 | errs exactly on partial blocks; each element is scale times sub-scale times its code minus 32 |
| Quant.Q6RoundTrip | cuda-portfolio/19-llm-engine/src/quant.cpp:58-78 | for every block count a dequantized element is scale times sub[j / 16] times the packed code minus 32 |
| Quant.DequantizeQ40 | cuda-portfolio/19-llm-engine/src/quant.cpp:26-40 | errs exactly on partial blocks; both nibbles of each byte land sixteen places apart |
| Quant.RepackQ40 | cuda-portfolio/19-llm-engine/src/quant.cpp:42-56 | all nibbles, then all scales, block for block |
| Quant.RepackKeepsValues | cuda-portfolio/19-llm-engine/src/quant.cpp:42-56 | reading the repacked form gives the values the host dequantizer gives |
| Quant.Q4RoundTrip | cuda-portfolio/19-llm-engine/src/quant.cpp:34-38 | every four-bit code reads back from the split-half layout |
| Quant.Q4PackOfCodes | cuda-portfolio/19-llm-engine/src/quant.cpp:34-38 | and packing those codes returns the bytes |
| QuantLaws.Q4Place | cuda-portfolio/19-llm-engine/src/quant.cpp:34-38 | element i is the low digit of byte i, or the high digit of byte i - 16 |
| PageAllocator.Allocator.Allocate | cuda-portfolio/19-llm-engine/src/page_allocator.cpp:24-31 | pops the top page and gives it one reference, or changes nothing |
| PageAllocator.Allocator.AllocateMany | cuda-portfolio/19-llm-engine/src/page_allocator.cpp:33-44 | all or nothing, and what n single allocations do |
| PageAllocator.Allocator.Retain | cuda-portfolio/19-llm-engine/src/page_allocator.cpp:52-59 | adds a reference, or fails on a free or unknown page and changes nothing |
| PageAllocator.Allocator.Release | cuda-portfolio/19-llm-engine/src/page_allocator.cpp:61-68 | drops a reference and frees the page at zero, or fails and changes nothing |
| PageAllocator.PoppedManySpec | cuda-portfolio/19-llm-engine/src/page_allocator.cpp:37-43 | n successive allocations take exactly the top n pages and set exactly their counts |
| PageAllocator.ManyIsSuccessive | cuda-portfolio/19-llm-engine/src/page_allocator.cpp:33-44 | a successful `allocate_many(n)` leaves the state of n successive `allocate` calls and returns their pages in order |
| PageAllocator.FreshInOrder | cuda-portfolio/19-llm-engine/src/page_allocator.cpp:9-17 | a fresh allocator hands out page 0, then page 1, and so on |
| PageAllocator.LastFreedFirst | cuda-portfolio/19-llm-engine/src/page_allocator.cpp:61-68 | the page freed last is handed out next, which restores the state |
| PageAllocator.FailureChangesNothing | cuda-portfolio/19-llm-engine/src/page_allocator.cpp:24-68 | a call that hands out nothing and changes no count leaves the state as it was |
| PageAllocator.AfterSound | cuda-portfolio/19-llm-engine/src/page_allocator.cpp:24-68 | every call keeps the free stack duplicate-free and equal to the pages without references |
| PageAllocator.HoldsKept | cuda-portfolio/19-llm-engine/src/page_allocator.cpp:24-68 | every call keeps each count equal to the references outstanding |
| PageAllocator.FreePlusHeld | cuda-portfolio/19-llm-engine/src/page_allocator.cpp:19-22 | free plus held pages are all pages |
| PageAllocator.Conservation | cuda-portfolio/19-llm-engine/src/page_allocator.cpp:9-68 | all of these over every run from a fresh allocator |
| LogitsFile.ExpectedSmall | cuda-portfolio/19-llm-engine/src/llamacpp_reference.cpp:47-50 | for every accepted header the size expression stays below 2^63 |
| LogitsFile.ExpectedSize | cuda-portfolio/19-llm-engine/src/llamacpp_reference.cpp:47-50 | computed in wrapping 64-bit arithmetic it has not wrapped |
| LogitsFile.Parse | cuda-portfolio/19-llm-engine/src/llamacpp_reference.cpp:36-65 | accepts exactly the files with the magic, plausible header, implied size and tokens inside the vocabulary, and returns their tokens |
| LogitsFile.RecordsDisjoint | cuda-portfolio/19-llm-engine/src/llamacpp_reference.cpp:75-88 | no byte belongs to two records |
| LogitsFile.RecordsCover | cuda-portfolio/19-llm-engine/src/llamacpp_reference.cpp:75-88 | the records cover the file from their offset to its last byte |
| LogitsFile.RecordInside | cuda-portfolio/19-llm-engine/src/llamacpp_reference.cpp:75-88 | every record lies in the file |
| LogitsFile.RecordsFollow | cuda-portfolio/19-llm-engine/src/llamacpp_reference.cpp:75-79 | records follow each other without a gap in chunk order; each takes two floats and one code per entry, rounded up to whole words |
| LogitsFile.ReadsInside | cuda-portfolio/19-llm-engine/src/llamacpp_reference.cpp:80-88 | every byte `log_probs` reads for a record belongs to that record |
| LogitsFile.LogProbs | cuda-portfolio/19-llm-engine/src/llamacpp_reference.cpp:75-89 | errs exactly outside the ranges; each entry is the line through the record's scale, floor and code |
| LogitsFile.ChunkInput | cuda-portfolio/19-llm-engine/src/llamacpp_reference.cpp:67-73 | the tokens of one chunk with the first replaced, or an error exactly outside the range |
| TiledMatmul.MatmulNaive | cuda-learning/04-matmul/matmul.cu:19-29 | the triple loop computes every cell's products summed from the left |
| TiledMatmul.InvKept | cuda-learning/04-matmul/matmul.cu:47-68 | every step of any thread keeps the barrier, slot, sum and cell invariants |
| TiledMatmul.TileStable | cuda-learning/04-matmul/matmul.cu:54-63 | while one thread multiplies in a tile every thread has stored that tile and none has started the next |
| TiledMatmul.SlotsFresh | cuda-learning/04-matmul/matmul.cu:49-59 | the slots a thread multiplies hold exactly the entries the plain loop would read |
| TiledRuns.NoRace | cuda-learning/04-matmul/matmul.cu:51-63 | threads that can step are in one phase, and in one phase no shared slot is written by one thread and touched by another |
| TiledRuns.NotStuck | cuda-learning/04-matmul/matmul.cu:47-64 | until every thread is done some thread can step |
| TiledRuns.TiledIsNaive | cuda-learning/04-matmul/matmul.cu:37-69 | for every size and schedule a finished thread wrote what the plain loop computes; ragged sizes need only that padding with zeros adds nothing |
| TiledLaws.IdentityLaws | cuda-learning/04-matmul/matmul.cu:19-29 | over the reals the product with the identity on either side is the other operand, entry for entry |
| TiledLaws.RealsPad | cuda-learning/04-matmul/matmul.cu:48-52 | over the reals zero padding adds nothing, so ragged sizes meet the padding law |
| Quantizers.Amax7Bound | cuda-projects/01-quant-llm/quant_gemv.cu:192-200 | the clamp is never needed and a weight errs by at most half a step |
| Quantizers.CodesSymmetric | cuda-projects/01-quant-llm/quant_gemv.cu:197-199 | the negative of a weight gets the negative code, ties rounding to even included |
| Quantizers.ZeroGroup | cuda-projects/01-quant-llm/quant_gemv.cu:195-196 | a group of zeros is reproduced exactly although its stored step is the tiny replacement |
| Quantizers.KernelReadsCode | cuda-projects/01-quant-llm/quant_gemv.cu:201-204 | each OR-ed nibble reads back in the kernel as the code that was chosen |
| Quantizers.QuantizeGroup | cuda-projects/01-quant-llm/quant_gemv.cu:191-206 | one group written in place into zeroed bytes, nothing else touched |
| Quantizers.QuantizeRowsInt4 | cuda-projects/01-quant-llm/quant_gemv.cu:184-208 | every group of every row is stored at its place with its scale |
| Quantizers.StoredWithinHalfStep | cuda-projects/01-quant-llm/quant_gemv.cu:184-208 | for every weight of the matrix the nibble the kernel reads times the stored scale is within half a step of it |
| Quantizers.Extreme8Bound | cuda-portfolio/20-torch-extension/cuda_portfolio_ops/__init__.py:42-47 | at most one step of error, and at most half a step if and only if the weight is at most 7.5 steps |
| Quantizers.HalfStepFails | cuda-portfolio/20-torch-extension/cuda_portfolio_ops/__init__.py:42-47 | a concrete group in which a weight of +8 steps is off by a whole step |
| Quantizers.TiesGoUp | cuda-portfolio/20-torch-extension/cuda_portfolio_ops/__init__.py:45-47 | a weight halfway between two steps gets the upper code |
| Quantizers.ExtremeIsExact | cuda-portfolio/20-torch-extension/cuda_portfolio_ops/__init__.py:43-47 | the extreme value lands on code 0 exactly; zeros get scale 0 and code 8 |
| Quantizers.GridIsExact | cuda-portfolio/20-torch-extension/cuda_portfolio_ops/__init__.py:42-47 | a group that is codes times a step, with code -8 among them, is reproduced exactly |
| Quantizers.Idempotent | cuda-portfolio/20-torch-extension/cuda_portfolio_ops/__init__.py:42-47 | quantizing a dequantized group gives the same codes and scale |
| Quantizers.PackedRowReads | cuda-portfolio/20-torch-extension/cuda_portfolio_ops/__init__.py:49-51 | the kernels read back every code of a packed row |

## Left out

- `std::sort` and `std::priority_queue` are modelled by contract: an insertion sort stands for the sort (the overlap proof holds for any order of equal offsets), and the queue may return any candidate no other precedes.
- Merge scores are reals instead of non-NaN doubles; only their order is used.
- Symbol indices and candidate lengths are unbounded; the `int` casts of texts beyond 2^31 characters are not modelled.
- The alignment bit test of the GGUF parser is the predicate "is a power of two".
- Float metadata is kept as bit pattern and width instead of the converted double.
- Images are assumed smaller than 2^62 bytes, so that offsets fit the address space.
- Vocabularies with an empty or out-of-range `bos` or `eos` entry, or NaN scores, are excluded by precondition.
- Timings, metrics JSON, error rendering, perplexity and KL statistics are not part of the model.
- The callback of `generate` is a function of the tokens so far; a cancellation flag is the number of the first poll that sees it set.
- TokenizerControl.RoundTripExact: a vocabulary that types the entry of U+2581 itself as control is excluded, because every dummy prefix then decodes to nothing and the leading-space rule applies to the text's own first space.
- `Runtime::step` fails on a full sequence only; page exhaustion belongs to runtime code that is not part of this model.
- The laws of the pass over the reals take exponential, logistic, cosine and sine from the mathematics library as functions and state what they need of them.
- Sampler internals are a deterministic function from state and logits to state and token.
- Batcher handlers that throw or call `drain`, two concurrent drainers, and 32-bit overflow of the counters and of page reference counts.
- The mutexes of the page allocator: each call is one atomic step.
- Warps of the matrix-vector kernel run their lanes in any order; the model runs them one after the other, which is the same because lanes share nothing before the shuffle. Alignment of the 128-bit loads is not modelled.
- The fp32 and int8 kernels of the same file, the int8 quantizer and the launch code.
- Grid and block indexing of the tiled product: one block at an arbitrary position is modelled, blocks share nothing.
- `weight_device_bytes`, file mapping, the `Q4Linear` module and its autograd.
- GPU runtime, kernels, spatial, graph, search, audio and video projects.
