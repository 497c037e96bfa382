# Verified models of the inference oracles, the benchmark scheduler and the scoring client

The repository checks its GPU kernels against executable host oracles, measures
them with an adaptive benchmark loop, and scores language-model requests through
a batching client. This project models those pieces in Dafny and proves what
they are meant to guarantee. Every dimension (head size, head counts, page size,
table stride, batch width, row counts) is a parameter, so no result is tied to
one model.

`dafny verify dfyconfig.toml` checks the whole project.

* **Gated-delta recurrence** (`GatedDelta`, `GatedDeltaOracle`, `GatedDeltaCells`,
  `GatedDeltaRuns`, `GatedDeltaContraction`, `GatedDeltaAccounting`). The nested
  loops that rewrite a flat state array in place refine a slot-by-slot matrix
  recurrence, and every cell they leave meets a second, independent recurrence
  written on the flat planes. Runs can be cut and batches isolated or permuted, two
  runs fed the same tokens forget how they began, and the rows counted as inactive
  really are untouched.
* **Controls and causal convolution** (`Controls`, `CausalConvolution`,
  `CausalConvolutionCells`, `CausalConvolutionRuns`). Decay and beta stay strictly
  between zero and one, and a register of three words shifted in place refines a
  sliding window and a recurrence on flat indices.
* **Rotary preparation** (`Rotary`, `RotaryGeometry`). The rotation is an
  isometry whose inner products see only relative angles.
* **Paged cache** (`PagedCache`, `PagedCacheElements`, `PagedCacheOracle`,
  `PagedCacheRuns`, `PagedCacheBytes`, `PackedGate`, `FullAttentionLayer`,
  `CachePrecision`). Appending through a block table refines a last-writer map from
  (location, head, dimension) to bytes, and each byte is traced to the flat place
  of the planes it encodes. The accounting, the inactive-page check and the gate
  fixtures are justified, each with the exact condition it needs.
* **Benchmark scheduling** (`RoundOrder`, `Statistics`, `AdaptiveSampling`,
  `AdaptiveEvidence`, `CellSelectors`). Rounds are balanced permutations, medians
  and percentiles are the readings their counts single out, adaptive sampling
  stops each case exactly when it should, and the selector parser round-trips.
* **Scoring client** (`ContextGroups`, `Scoring`). Greedy grouping is an optimal
  partition, and batched scoring equals pointwise scoring.
* **FP8 oracles** (`E4m3`, `Quantize`, `Projection`, `AttentionFixture`,
  `DownFixture`). The E4M3 search rounds to nearest even, dynamic scales are
  tight, and four phase correlations and eight token oracles stand in for every
  output row and token.

`Blocks`, `Vectors`, `Permutations`, `Text`, `Optional` and `Analysis` hold what the
others share. Floats are modelled as reals; `exp`, `ln` and `sqrt` are parameters that
obey only the laws of `Analysis.Functions.Lawful`.

## Findings

Places where the code, read exactly, does less than one might expect:

* A launch without the causal flag may be cut in two only if it is wider than the
  batch and neither part is a batch of two or more sequences
  (`GatedDeltaRuns.UnflaggedSplitIsExact`, `GatedDeltaRuns.UnflaggedSplitExample`).
* The appended and untouched counts of the cache check are exact if and only if no
  two tokens share a location (`PagedCacheRuns.AccountingIsExact`). The suite's own
  tables map different rows to the same physical pages, but its launches never
  collide (`PackedGate.FixtureDecodeDistinct`, `PackedGate.FixturePrefillDistinct`).
* The layer's cache writes stay active and apart exactly when the rows' flat
  positions do (`FullAttentionLayer.RouteStaysActiveExactly`,
  `FullAttentionLayer.RouteIsDistinctExactly`). The suite's own positions are
  constants that always fit (`FullAttentionLayer.SuiteFits`); a position of
  `TABLE_STRIDE * PAGE` or more would leave its sequence's pages.
* The tolerant BF16 key comparison cannot tell an unwritten word from a key that
  rounds to the sentinel word, and compares such a key bit for bit
  (`PagedCacheRuns.InactiveWordsAreExact`).
* With a batch size set, a cell selector that names only cases of other batch sizes
  selects nothing and raises no error (`CellSelectors.BatchSelectionMisses`). An
  empty filter text is refused as a malformed pair (`CellSelectors.EmptyTextIsNoPair`);
  the message for an empty filter is never produced (`CellSelectors.NeverEmpty`).
* A context of nothing but space is refused as an empty token boundary, although no
  context at all is scored after an end-of-text token (`Scoring.BlankContextIsRefused`),
  and so is an empty context whose continuation is that single token
  (`Scoring.BoundedExactly`).
* The grouping generator never ends for a maximum below one
  (`ContextGroups.NoProgressBelowOne`); its callers keep it in 1..8.

## Model

| member | source | states |
|---|---|---|
| GatedDeltaOracle.StateKey | qual/src/gdn_recurrence.rs:463-465 | the row-by-key sum is the inner product of one block of the flat state with the key |
| GatedDeltaOracle.UpdateRow | qual/src/gdn_recurrence.rs:461-474 | the in-place row update turns row i into `decay*row + beta*(value - decay*(row.key))*key`, with the inner product of the row as it was before its first cell changed; every other row keeps its cells, and the returned recurrent value is the scaled inner product of the new row with the query |
| GatedDeltaOracle.UpdateHead | qual/src/gdn_recurrence.rs:453-474 | the rows of one value head are all stepped against one key and read with one query, and no row outside the head changes |
| GatedDeltaOracle.WriteHead | qual/src/gdn_recurrence.rs:475-487 | root-mean-square normalization, norm weight and SiLU gate of one head land in its block of the output and nowhere else |
| GatedDeltaOracle.StepHead | qual/src/gdn_recurrence.rs:453-488 | a value head steps its own rows of the slot with its grouped key head and writes its own block of the output row |
| GatedDeltaOracle.UpdateSlot | qual/src/gdn_recurrence.rs:453-488 | the head loop over the flat arrays steps the whole slot at once and leaves every other slot and output row alone |
| GatedDeltaOracle.NormalizeHead | qual/src/gdn_recurrence.rs:440-451 | a query or key head is its plane scaled by the inverse root of its squared length plus epsilon |
| GatedDeltaOracle.ReadToken | qual/src/gdn_recurrence.rs:437-457 | normalized queries and keys, values, gates, `exp(log_decay)` and beta are read from their places in the flat planes |
| GatedDeltaOracle.StepToken | qual/src/gdn_recurrence.rs:431-489 | one iteration of the token loop replaces exactly one slot by its step and exactly one output row |
| GatedDeltaOracle.Oracle | qual/src/gdn_recurrence.rs:424-492 | for every token count the nested in-place loops over the flat state and output compute the slot-by-slot recurrence of the routed tokens, and output row t is the gated output of the state right after token t |
| GatedDelta.HeadStepped | qual/src/gdn_recurrence.rs:453-474 | the slot recurrence taken head by head is the slot recurrence |
| GatedDelta.HeadOutputs | qual/src/gdn_recurrence.rs:475-487 | the output row taken head by head is the output row |
| GatedDeltaCells.KeyHeadGroups | qual/src/gdn_recurrence.rs:454 | value heads share key heads in consecutive groups: a head's key head times the group size is at most the head, and the next multiple is past it |
| GatedDeltaCells.StepIs | qual/src/gdn_recurrence.rs:440-471 | one token turns row r of value head h into `decay*row + beta*(value - decay*recalled)*key`, every factor read at a flat index of the packed planes: key block `h / (V/K)` over its own length, value `2*K*d + h*d + r`, decay and beta at `t*V + h` |
| GatedDeltaCells.RowsAre | qual/src/gdn_recurrence.rs:424-474 | by induction over the launch, every row of every slot is the row of a recurrence written on the flat planes only |
| GatedDeltaCells.OutputIs | qual/src/gdn_recurrence.rs:471-487 | every output cell is the scaled read of its row by the grouped query block, over the root mean square of its head, times norm weight and `gate/(1 + exp(-gate))` of the flat gate cell |
| GatedDeltaCells.Launch | qual/src/gdn_recurrence.rs:424-492 | whatever it is given, the oracle returns arrays whose every row and cell, at its flat index, is that of the flat recurrence |
| GatedDeltaCells.FirstStateRow | qual/src/gdn_recurrence.rs:440-471 | from a zero state one token leaves in cell (h, r, c) its beta times its value times a cell of its grouped key block, over that block's length |
| GatedDeltaRuns.Demultiplexed | qual/src/gdn_recurrence.rs:431-436 | whatever the routing, each slot ends where its own tokens alone, in order, would take it |
| GatedDeltaRuns.OutputDemultiplexed | qual/src/gdn_recurrence.rs:431-489 | each output depends only on the tokens its own slot had received by then |
| GatedDeltaRuns.BatchIsolated | qual/src/gdn_recurrence.rs:432-436 | with pairwise distinct state rows a batched step equals every sequence stepped alone, in state and output, and unmapped rows are untouched |
| GatedDeltaRuns.BatchStatePermuted | qual/src/gdn_recurrence.rs:432-436 | permuting such a batch leaves the final state the same |
| GatedDeltaRuns.BatchOutputsPermuted | qual/src/gdn_recurrence.rs:432-489 | permuting such a batch permutes its outputs |
| GatedDeltaRuns.RunChunked | qual/src/gdn_recurrence.rs:431-489 | a run of n + m tokens ends in the state of a run of n followed by a run of m |
| GatedDeltaRuns.OutputsChunked | qual/src/gdn_recurrence.rs:431-489 | its outputs are the outputs of the two parts |
| GatedDeltaRuns.CausalRoutes | qual/src/gdn_recurrence.rs:221-246 | causal routing can be cut anywhere; a causal launch of one row routes as a decode batch of one, and a prompt wider than the batch routes as a causal run |
| GatedDeltaRuns.UnflaggedSplitIsExact | qual/src/gdn_recurrence.rs:432-436 | without the causal flag cutting a launch in two keeps its routing exactly when the launch is wider than the batch and neither part is a batch of two or more |
| GatedDeltaRuns.UnflaggedSplitExample | qual/src/gdn_recurrence.rs:432-436 | on the suite's state rows two sequences launched together step slots 7 and 0; launched one by one without the flag both step slot 7 |
| GatedDeltaContraction.RowReads | qual/src/gdn_recurrence.rs:466-471 | what an updated row gives for any direction, the readout identity of the delta rule |
| GatedDeltaContraction.WriteShrinksRecallError | qual/src/gdn_recurrence.rs:463-471 | after a write the recall error under the same key is `1 - beta*&#124;key&#124;^2` of what it was |
| GatedDeltaContraction.ZeroRowStep | qual/src/dense_fp8_gdn_layer.rs:575-580 | from a zero row only the write `beta*value*key` is left |
| GatedDeltaContraction.FirstOutput | qual/src/dense_fp8_gdn_layer.rs:541-618 | from a zero state the whole output of the layer's one token is the gated, normalized `scale*beta*value*(key.query)` of each row: state and decay have dropped out |
| GatedDeltaContraction.RowDistance | qual/src/gdn_recurrence.rs:466-470 | the exact squared distance of two rows after the same step |
| GatedDeltaContraction.RowContracts | qual/src/gdn_recurrence.rs:463-470 | the squared distance of two rows shrinks at least by the squared decay when `0 <= beta*&#124;key&#124;^2 <= 2` |
| GatedDeltaContraction.ContractionIsExact | qual/src/gdn_recurrence.rs:463-470 | for a nonzero decay that condition holds if and only if no pair of rows can move apart by more than the decay |
| GatedDeltaContraction.NormalizedBelowOne | qual/src/gdn_recurrence.rs:443-449 | a normalized key has squared length `sum/(sum+eps)`, strictly below one |
| GatedDeltaContraction.TokensContractive | qual/src/gdn_recurrence.rs:440-457 | the tokens the oracle reads satisfy the contraction condition as soon as the control planes are in range, with no assumption on the keys |
| GatedDeltaContraction.SlotForgets | qual/src/gdn_recurrence.rs:431-474 | over a whole run the squared distance of each row never exceeds the product of the squared decays of its head times the starting distance |
| GatedDeltaContraction.LaunchForgets | qual/src/gdn_recurrence.rs:424-492 | the same for whole launches over all slots, whatever the routing; in particular no distance ever grows |
| GatedDeltaAccounting.ActiveIsRouted | qual/src/gdn_recurrence.rs:513-518 | the state rows the check counts as active are exactly those some token is routed to |
| GatedDeltaAccounting.InactiveStateUntouched | qual/src/gdn_recurrence.rs:494-524 | a state row the check calls inactive ends any launch, batched or causal, as it began |
| GatedDeltaAccounting.CountState | qual/src/gdn_recurrence.rs:506-524 | the loop over the flat state counts every cell of an active row as active and every other as inactive |
| GatedDeltaAccounting.ActiveCount | qual/src/dense_fp8_gdn_layer.rs:668-670 | with pairwise distinct state rows the number of active rows is the closed form the reports use |
| GatedDeltaAccounting.ActiveCountIsExact | qual/src/gdn_recurrence.rs:502-518 | for a decode batch that holds if and only if the rows it uses are pairwise distinct |
| Controls.ControlsInRange | qual/src/gdn_prepare.rs:604-609 | decay is in (0,1) and beta in (0,1) for every projected control, with and without the softplus threshold |
| Controls.Project | qual/src/gdn_prepare.rs:598-603 | the accumulation over two flat planes is the inner product of a token block and a control row |
| Controls.ControlRows | qual/src/gdn_prepare.rs:596-614 | the loop over both halves of the control rows gives log decay below zero and beta in (0,1), each from its own projection, bias and scale |
| Controls.ControlsAre | qual/src/gdn_prepare.rs:596-609 | on the flat planes: row r of the first half of the weights gives the log decay `-exp(a_log)*ln(1 + exp(sum + bias))`, row r of the second half the beta with `beta*(1 + exp(-sum)) = 1` |
| Controls.ThresholdedIs | qual/src/dense_fp8_gdn_layer.rs:490-504 | the softplus shortcut changes a log decay exactly when the control exceeds 20 and is not its own softplus |
| CausalConvolution.StepChannel | qual/src/gdn_prepare.rs:644-672 | one channel responds to its three remembered words and the current one, then its register is shifted by one word; no other register changes |
| CausalConvolution.StepToken | qual/src/gdn_prepare.rs:638-673 | one token shifts exactly its slot and writes exactly its output row |
| CausalConvolution.WindowAdvances | qual/src/gdn_prepare.rs:647-671 | a shifted register is the window one word further along the stream |
| CausalConvolution.Oracle | qual/src/gdn_prepare.rs:628-743 | after any launch each register holds the last three words of initial history followed by everything its slot was fed, and every response is to the last four |
| CausalConvolutionCells.ResponseIs | qual/src/gdn_prepare.rs:655-662 | for any four words and channel the response is `x/(1 + exp(-x))`, x the four products of the taps `4*channel + k` with the words, oldest first |
| CausalConvolutionCells.LastOfStream | qual/src/gdn_prepare.rs:647-671 | the last three words of a stream are the register of a recurrence written on the flat planes: keep two words, take the new one |
| CausalConvolutionCells.Launched | qual/src/gdn_prepare.rs:638-673 | the oracle returns arrays whose every register and response, at its flat index, is that of the flat recurrence |
| CausalConvolutionRuns.CausalWindows | qual/src/gdn_prepare.rs:690-743 | in a causal run each window is four consecutive entries of history ++ stream and the registers end on its last three |
| CausalConvolutionRuns.BatchIsolated | qual/src/gdn_prepare.rs:638-643 | with distinct rows each sequence sees its own history and word only; unmapped registers keep their words |
| CausalConvolutionRuns.BatchPermuted | qual/src/gdn_prepare.rs:638-673 | permuting such a batch permutes the outputs and leaves the registers the same |
| CausalConvolutionRuns.JoinedInputs | qual/src/gdn_prepare.rs:701-729 | what a slot is fed by a launch of n + m rows is what the two parts feed it |
| CausalConvolutionRuns.RegistersChunked | qual/src/gdn_prepare.rs:234-281 | a launch of n + m rows leaves the registers of a launch of n followed by a launch of m |
| CausalConvolutionRuns.OutputsChunked | qual/src/gdn_prepare.rs:234-281 | and gives their outputs |
| CausalConvolutionRuns.CausalLaunchesJoin | qual/src/gdn_prepare.rs:690-729 | a causal launch of n + m rows is such a pair of causal launches |
| CausalConvolutionRuns.OneRowAgrees | qual/src/gdn_prepare.rs:234-281 | a causal run of one token and a decode batch of one leave the same registers and give the same response |
| CausalConvolutionRuns.FirstRegister | qual/src/dense_fp8_gdn_layer.rs:511-539 | from zero history one step leaves `[0, 0, x]` |
| CausalConvolutionRuns.FirstResponse | qual/src/dense_fp8_gdn_layer.rs:511-539 | and its response is the SiLU of the last tap alone |
| Rotary.Normalize | qual/src/attention_qk_prepare.rs:1176-1190 | the accumulation loop computes root-mean-square normalization with unit-offset weights |
| Rotary.NormalizeRotate | qual/src/attention_qk_prepare.rs:1176-1211 | the dimension loop writes the normalized, rotated head into its place of the output buffer and nothing else |
| RotaryGeometry.RotationsCompose | qual/src/attention_qk_prepare.rs:1191-1210 | two rotations are one rotation by the summed angles, whatever the coefficients |
| RotaryGeometry.RotationUndone | qual/src/attention_qk_prepare.rs:1191-1210 | when `cos^2 + sin^2 = 1` per pair, negating the sine undoes a rotation |
| RotaryGeometry.PassThrough | qual/src/attention_qk_prepare.rs:1191-1210 | dimensions past the rotary pairs are copied |
| RotaryGeometry.RelativeProduct | qual/src/attention_qk_prepare.rs:1191-1210 | the dot product of two rotated vectors depends on the coefficients only through `c1*c2 + s1*s2` and `s1*c2 - c1*s2` |
| RotaryGeometry.RotationIsometry | qual/src/attention_qk_prepare.rs:1191-1210 | rotating both vectors alike keeps their dot product |
| RotaryGeometry.PreparedKeepsNorm | qual/src/full_attention_layer.rs:676-709 | a prepared head is exactly as long as its normalized vector |
| PagedCache.RowDecodes | qual/src/attention_qk_prepare.rs:1213-1223 | a cache row index determines its page, slot and head |
| PagedCache.OffsetInjective | qual/src/attention_qk_prepare.rs:1213-1223 | distinct (page, slot, head, dimension) have distinct cache offsets |
| PagedCache.OwnerIsLastWriter | qual/src/attention_qk_prepare.rs:1103-1160 | a row is written exactly when some token was routed to it, and then holds the last such token |
| PagedCache.OwnersAreOwn | qual/src/attention_qk_prepare.rs:1103-1160 | every token keeps all its rows if and only if no two tokens share a location |
| PagedCache.AppendOne | qual/src/attention_qk_prepare.rs:1119-1160 | appending one more token turns the closed form for n tokens into the one for n + 1 |
| PagedCacheElements.QueryRowIs | qual/src/attention_qk_prepare.rs:1103-1117 | element i of query head h is the rotated, normalized element at flat place `t*W + h*2*d + i` of the packed plane, with the query norm plane and the angles at `t*pairs` |
| PagedCacheElements.KeyRowIs | qual/src/attention_qk_prepare.rs:1124-1138 | element i of key head h is that of flat place `t*W + Q + h*d + i`, with the key norm plane |
| PagedCacheElements.ValueRowIs | qual/src/attention_qk_prepare.rs:1125-1156 | value word i of head h is the word at flat place `t*W + Q + KV + h*d + i` |
| PagedCacheElements.PreparedIs | qual/src/attention_qk_prepare.rs:1176-1211 | normalization by the root mean square of the flat block with weight `1 + norm`, then the three cases of the rotation, on the flat planes |
| PagedCacheOracle.WriteHead | qual/src/attention_qk_prepare.rs:1126-1159 | the dimension loop encodes a key and a value head byte by byte into one row of each plane, and fails exactly when an element cannot be encoded |
| PagedCacheOracle.PrepareQueries | qual/src/attention_qk_prepare.rs:1103-1117 | the query heads of a token land in its rows of the query buffer |
| PagedCacheOracle.AppendToken | qual/src/attention_qk_prepare.rs:1119-1160 | all heads of a token land at its location and every other row of both planes is unchanged |
| PagedCacheOracle.Oracle | qual/src/attention_qk_prepare.rs:1079-1167 | after the oracle every row of both page planes holds what the last token routed to it through the block table wrote, every other byte is still the sentinel, and it succeeds exactly when every element encodes |
| PagedCacheRuns.LookupReturnsLastWriter | qual/src/attention_qk_prepare.rs:1119-1160 | looking a token up finds the rows of the last token with the same location |
| PagedCacheRuns.DistinctLookups | qual/src/attention_qk_prepare.rs:1103-1160 | with pairwise distinct locations every token finds its own rows and all other rows are as they were |
| PagedCacheRuns.BytesAtOffset | qual/src/attention_qk_prepare.rs:1213-1223 | the bytes at a cache offset are that row and dimension, for one- and two-byte elements |
| PagedCacheRuns.BlockTableLookup | qual/src/attention_qk_prepare.rs:1119-1160 | the block-table lookup of every appended token, head and dimension returns the bytes that token wrote |
| PagedCacheRuns.EncodedElements | qual/src/attention_qk_prepare.rs:1126-1159 | and those bytes encode the key and value elements at the token's own places of the flat planes |
| PagedCacheBytes.TokenBytes | qual/src/attention_qk_prepare.rs:1119-1160 | after a successful run the bytes at the flat place of every element of a token no later one overwrites are its own: the E4M3 words of `key/key_scale` and `value/value_scale`, or the two little-endian bytes of the rounded key and the value word |
| PagedCacheBytes.FreeBytes | qual/src/attention_qk_prepare.rs:1079-1167 | every byte of a slot no token is appended to is still 0xa5 |
| PagedCacheBytes.QueryCells | qual/src/attention_qk_prepare.rs:1103-1117 | every query cell of a token is its query element, and every cell past the launch the sentinel |
| PagedCacheBytes.SucceedsExactly | qual/src/attention_qk_prepare.rs:1137-1147 | the run succeeds if and only if the codec takes every key and value element of every token |
| PagedCacheRuns.Bf16RoundTrip | qual/src/attention_qk_prepare.rs:1148-1156 | a two-byte key cell reads back as the rounded key and a value cell as the value word, little-endian |
| PagedCacheRuns.InactiveWordsAreExact | qual/src/attention_qk_prepare.rs:1025-1034 | the tolerant key comparison takes a word for inactive exactly when no token wrote it or its owner's key element rounds to the sentinel word |
| PagedCacheRuns.AccountingIsExact | qual/src/attention_qk_prepare.rs:1002-1007 | the appended-value count and the untouched count, idle query words included, are exact if and only if no two tokens share a location |
| PackedGate.GatesAreUnread | qual/src/attention_qk_prepare.rs:821-825 | the packed gate cells are exactly the cells that are no query, key or value element of any head |
| PackedGate.GatesDoNotInterfere | qual/src/attention_qk_prepare.rs:1103-1160 | changing any gate cells changes no query, key, value or encoding failure |
| PackedGate.GatesDoNotReachBuffers | qual/src/attention_qk_prepare.rs:1079-1167 | two runs of the oracle on planes that differ in gates only end with the same outcome and, if they succeed, equal query, key and value buffers |
| PackedGate.FixturesShareResults | qual/src/attention_qk_prepare.rs:760-818 | running the oracle on the plain and on the gate-discriminated fixture ends with equal buffers |
| PackedGate.FixtureCellIs | qual/src/attention_qk_prepare.rs:760-776 | a fixture word rounds a sixteenth of a pattern entry times 16 less the token's phase; the entry is the index plus three times the token, and five more in the gate halves of the discriminated fixture |
| PackedGate.FixturesSeparate | qual/src/attention_qk_prepare.rs:1325-1373 | in the plain fixture every gate has the word of the query element beside it, in the discriminated one none has, for any shape whose head dimension is a multiple of sixteen and any rounding that keeps the pattern apart |
| PackedGate.FixtureDecodeDistinct | qual/src/attention_qk_prepare.rs:41-42 | the decode rows and positions of the suite send no two tokens to one location, though table rows share pages |
| PackedGate.FixturePrefillDistinct | qual/src/attention_qk_prepare.rs:760-818 | nor do its prefill positions, for any admitted length past the decode batch |
| FullAttentionLayer.RouteStaysActive | qual/src/full_attention_layer.rs:605-610 | positions within their sequence's run of pages, or any prefill, keep every destination page before the first inactive one |
| FullAttentionLayer.RouteIsDistinct | qual/src/full_attention_layer.rs:605-610 | and keep the rows of a launch apart |
| FullAttentionLayer.RouteIsDistinctExactly | qual/src/full_attention_layer.rs:605-610 | for any positions at all, the rows of a launch have pairwise distinct locations if and only if their flat positions `t * stride * page + position` differ |
| FullAttentionLayer.RouteStaysActiveExactly | qual/src/full_attention_layer.rs:1010-1014 | all destinations precede the first inactive page if and only if every flat position precedes it |
| FullAttentionLayer.PromptPagesAreLeast | qual/src/full_attention_layer.rs:1010-1014 | in a prompt the first inactive page is the least number of pages that holds all its rows |
| FullAttentionLayer.SuiteFits | qual/src/full_attention_layer.rs:25-35 | every launch of the suite, with its own constant positions, meets both conditions within its 24 physical pages |
| FullAttentionLayer.OffsetsNeverCollide | qual/src/full_attention_layer.rs:1030-1035 | with fitting positions two (token, head, dimension) triples have the same destination exactly when they are the same triple |
| FullAttentionLayer.OffsetsCollideExactly | qual/src/full_attention_layer.rs:1030-1035 | for any positions, two triples have the same destination exactly when head, dimension and flat position agree |
| FullAttentionLayer.OverlongPositionLeaks | qual/src/full_attention_layer.rs:605-610 | a decode row leaves its own run of pages exactly when its position is at least one run long, and the active pages exactly when it is at least as long as all the runs from its own on |
| FullAttentionLayer.OverlongPositionCollides | qual/src/full_attention_layer.rs:605-610 | two decode rows share a location exactly when the earlier position is the later one plus the runs of pages between them |
| FullAttentionLayer.InactiveBytesUntouched | qual/src/full_attention_layer.rs:1010-1024 | a correct append leaves every byte past the active pages as the fixture had it |
| FullAttentionLayer.ExpectedPages | qual/src/full_attention_layer.rs:570-642 | the expected query buffer holds every row's prepared heads and the expected planes are the fixture planes with every row of the launch appended |
| FullAttentionLayer.InactiveCheckPasses | qual/src/full_attention_layer.rs:1010-1028 | whenever the rows stay active the inactive-page comparison cannot reject a correct run |
| RoundOrder.MeasurementOrder | qual/src/device_benchmark.rs:2073-2084 | rotating and reversing gives, at every position, the task of a closed formula |
| RoundOrder.OrderIsPermutation | qual/src/device_benchmark.rs:2073-2084 | every round is a permutation of the tasks |
| RoundOrder.VisitedOnce | qual/src/device_benchmark.rs:2073-2084 | each task is visited at exactly one position, which is computed from the round |
| RoundOrder.OddBalance | qual/src/device_benchmark.rs:2073-2084 | over 2n rounds an odd number n of tasks puts every task in every position exactly twice |
| RoundOrder.EvenBalance | qual/src/device_benchmark.rs:2073-2084 | an even number puts it exactly four times in the positions of its own parity and never in the others |
| Statistics.SortIsUnique | qual/src/device_benchmark.rs:1831-1835 | there is one ascending arrangement of a list, so the median does not depend on the sorting algorithm |
| Statistics.PercentileRank | qual/src/device_benchmark.rs:2139-2141 | the floor-rank percentile of unsorted readings has more than k readings at most as large and n - k at least as large |
| Statistics.PercentilesOrdered | qual/src/device_benchmark.rs:2139-2141 | a higher percentile is never smaller |
| Statistics.RankIs | qual/src/device_benchmark.rs:2139-2141 | the rank is the one k with `10*k <= (n-1)*tenths < 10*(k+1)` |
| Statistics.PercentileIsExact | qual/src/device_benchmark.rs:2139-2141 | a percentile is the one reading of the unsorted list with more than k readings at most as large and at most k smaller |
| Statistics.MedianIsExact | qual/src/device_benchmark.rs:1831-1835 | the sample median is exactly the reading with at most `(n-1)/2` smaller readings and more than `(n-1)/2` at most as large |
| Statistics.StableMeansClose | qual/src/device_benchmark.rs:1837-1847 | a window is stable exactly when its median is positive and no two entries differ by more than the relative spread of it |
| AdaptiveSampling.ValidateAdaptiveRepeats | qual/src/device_benchmark.rs:1807-1829 | settings are accepted exactly when 3 <= window <= minimum <= samples and the spread is positive |
| AdaptiveSampling.BuildTasks | qual/src/device_benchmark.rs:1555-1561 | the task list has each leaf, and each repeated graph that exists, exactly once |
| AdaptiveSampling.RunRound | qual/src/device_benchmark.rs:1570-1641 | one round gives every active case exactly one more leaf and one more repeated reading and no retired case any, in whatever order it visits them |
| AdaptiveSampling.RetireConverged | qual/src/device_benchmark.rs:1642-1672 | after a round exactly the active cases whose running medians converged are retired |
| AdaptiveSampling.MeasureCases | qual/src/device_benchmark.rs:1555-1677 | every case ends with the complete evidence of n rounds, where n is the cap, or in adaptive mode the first round at which it had converged; it never resumes |
| AdaptiveEvidence.StableSettles | qual/src/device_benchmark.rs:1652-1665 | the stability test of the running medians holds exactly when the last ones, each the median of the readings so far, lie within the spread of their own positive median |
| AdaptiveEvidence.FinishedMeaning | qual/src/device_benchmark.rs:1555-1677 | a case ends exactly with the timer's readings of n rounds, n the cap or the first round whose readings were enough, told in readings and medians alone |
| AdaptiveEvidence.FinishedEvidence | qual/src/device_benchmark.rs:1652-1665 | sample counts are equal; below the cap they reach the minimum and the last running medians lie within the spread |
| AdaptiveSampling.EvidenceIsIndependent | qual/src/device_benchmark.rs:1569-1677 | a case's evidence depends on its own readings alone, not on the other cases |
| CellSelectors.ParseBenchmarkCells | qual/src/benchmark_runner.rs:74-113 | the parsing loop with its early errors computes the piecewise parse of the comma-separated text |
| CellSelectors.ParseCellMeaning | qual/src/benchmark_runner.rs:81-92 | a piece parses exactly when what is left of it without the space around it is a nonempty route, a colon and a nonempty colon-free shape |
| CellSelectors.ParseCellFails | qual/src/benchmark_runner.rs:82-92 | without a colon it is a malformed pair, with nothing before or after the last colon it is unnamed, and there is no other failure |
| Text.TrimIs | qual/src/benchmark_runner.rs:82 | the trimmed text is the only part of a text with nothing but space dropped at either end and no space at its own ends |
| CellSelectors.ParseSucceeds | qual/src/benchmark_runner.rs:80-112 | parsing yields a list exactly when each piece spells its selector and no two name the same cell |
| CellSelectors.FirstFaultDecides | qual/src/benchmark_runner.rs:81-105 | the first piece that is malformed or repeats an earlier cell decides the error |
| CellSelectors.ParseFails | qual/src/benchmark_runner.rs:81-105 | every failing parse has such a piece |
| CellSelectors.NeverEmpty | qual/src/benchmark_runner.rs:106-110 | the error for an empty filter is never produced, whatever the text |
| CellSelectors.EmptyTextIsNoPair | qual/src/benchmark_runner.rs:81-87 | an empty filter text is refused as a malformed pair |
| CellSelectors.ParseRoundTrip | qual/src/benchmark_runner.rs:74-113 | a successful parse is nonempty and free of repeats, and joining the originals with commas parses back to the same list |
| Text.JoinSplit | qual/src/benchmark_runner.rs:81 | the comma-separated pieces of a text joined by commas are the text |
| CellSelectors.MatchesMeaning | qual/src/benchmark_runner.rs:65-71 | a selector matches a route in full or everything after its last slash, and the exact shape |
| CellSelectors.KeptMeaning | qual/src/device_benchmark.rs:1761-1772 | a case is kept exactly when it has the batch size, if one is set, and one of the selectors, if there are any, names its shape and its route in full or by its last component |
| CellSelectors.NoFilterKeepsAll | qual/src/device_benchmark.rs:1760-1804 | without any filter a nonempty inventory is selected as it is |
| CellSelectors.KeepInOrder | qual/src/device_benchmark.rs:1765-1776 | the selection lists exactly the admitted cases, in inventory order and multiplicity |
| CellSelectors.SelectionSucceeds | qual/src/device_benchmark.rs:1760-1804 | selection succeeds exactly when the filter parses, some case passes it and every selector names a case of the inventory |
| CellSelectors.SelectionFails | qual/src/device_benchmark.rs:1777-1801 | an empty selection is reported before an unknown cell, and of several unknown cells the first is named |
| CellSelectors.SelectionCovers | qual/src/device_benchmark.rs:1791-1801 | a selector names a selected case exactly when it names a case of the requested batch size |
| CellSelectors.PlainSelectionCovers | qual/src/device_benchmark.rs:1791-1801 | without a batch size every selector of a successful selection names a selected case |
| CellSelectors.BatchSelectionMisses | qual/src/device_benchmark.rs:1791-1801 | with one it need not: the check runs against the whole inventory |
| CellSelectors.BatchSelectionMissesExample | qual/src/device_benchmark.rs:1791-1801 | a concrete inventory and filter where a selector selects nothing and no error is raised |
| ContextGroups.AdjacentContextGroups | scripts/lm_eval_tuisko_native.py:58-73 | the two nested loops compute the greedy grouping, and terminate for a maximum of at least one |
| ContextGroups.NoProgressBelowOne | scripts/lm_eval_tuisko_native.py:62-72 | a visit of the outer loop moves the cursor if and only if the maximum is at least one |
| ContextGroups.GroupsPartition | scripts/lm_eval_tuisko_native.py:58-73 | the groups cover the batch in order; each is nonempty, has one context and at most `maximum` members with their positions |
| ContextGroups.PositionsCount | scripts/lm_eval_tuisko_native.py:71-72 | read group by group the positions of any such partition are 0, 1, 2, ... |
| ContextGroups.GreedyStaysAhead | scripts/lm_eval_tuisko_native.py:62-72 | after the same number of groups greedy grouping has covered at least as much as any other partition |
| ContextGroups.GroupingIsOptimal | scripts/lm_eval_tuisko_native.py:58-73 | no partition into contiguous equal-context groups of at most `maximum` uses fewer groups |
| Scoring.BoundaryIsExact | scripts/lm_eval_tuisko_native.py:29-35 | with only the space at its end taken off the context, context and continuation tokens spell the whole text exactly when the context's tokens begin the whole text's |
| Text.TrimEndIs | scripts/lm_eval_tuisko_native.py:29-32 | the trimmed context is the only prefix with nothing but space after it and none at its end |
| Scoring.EmptyContextBoundary | scripts/lm_eval_tuisko_native.py:20-27 | an empty context is scored after exactly one end-of-text token |
| Scoring.BoundedExactly | scripts/lm_eval_tuisko_native.py:190-194 | which requests keep a token on both sides of the boundary, in terms of token counts only |
| Scoring.BlankContextIsRefused | scripts/lm_eval_tuisko_native.py:29-35 | a context of nothing but space is refused where no context at all is not |
| Scoring.FitKeepsLongestSuffix | scripts/lm_eval_tuisko_native.py:38-46 | fitting succeeds exactly when the continuation leaves room, and keeps the longest context suffix that fits |
| Scoring.FittedMeaning | scripts/lm_eval_tuisko_native.py:29-46 | a request becomes as many of the last tokens of its trimmed context as fit beside the rest of the whole text, and is refused with both lengths when that rest leaves no room |
| Scoring.FittedAlone | scripts/lm_eval_tuisko_native.py:20-46 | without a context the tokens follow one end-of-text token, their own if they start with it |
| Scoring.FitKeepsBoundary | scripts/lm_eval_tuisko_native.py:38-46 | fitting never drops the last context token |
| Scoring.ParseBatchSize | scripts/lm_eval_tuisko_native.py:49-55 | accepted are exactly the automatic size, which is 8, and positive integers, of which the smaller of the integer and 8 is used |
| Scoring.Configure | scripts/lm_eval_tuisko_native.py:141-149 | a client is configured exactly when the maximum length is at least two and both sizes are acceptable, and batches by the smaller of them |
| Scoring.PostLoglikelihood | scripts/lm_eval_tuisko_native.py:98-106 | a reply is accepted exactly when it has one result per continuation, in index order |
| Scoring.FillGroup | scripts/lm_eval_tuisko_native.py:207-211 | the scores of a group fill exactly its own slots and reach the cache hook with their positions |
| Scoring.ScoreGroups | scripts/lm_eval_tuisko_native.py:195-211 | over all groups every slot is filled exactly once, or the first refused reply decides the error |
| Scoring.Loglikelihood | scripts/lm_eval_tuisko_native.py:182-214 | the client returns the group scores in request order; in every outcome the cache hook has received the scores of the groups before the first refused one, numbered from zero |
| Scoring.ScoredFails | scripts/lm_eval_tuisko_native.py:196-206 | the first refused reply decides the error and no later score is recorded |
| Scoring.FirstUnfittedDecides | scripts/lm_eval_tuisko_native.py:186-189 | the first request whose continuation leaves no room decides the error before anything is scored |
| Scoring.FirstUnboundedDecides | scripts/lm_eval_tuisko_native.py:190-194 | then the first request with an empty token boundary does |
| Scoring.PartitionIsIrrelevant | scripts/lm_eval_tuisko_native.py:196-211 | however a batch is partitioned, a faithful server's answers are the pointwise scores |
| Scoring.BatchedIsPointwise | scripts/lm_eval_tuisko_native.py:182-214 | against a faithful server a batch is scored exactly when each request could be scored alone, and every slot holds the score of its own fitted pair |
| Scoring.BatchSizeIsIrrelevant | scripts/lm_eval_tuisko_native.py:182-214 | the batch size shows in neither the scores nor the error |
| E4m3.DecodeMeaning | qual/src/oracles/codecs.rs:118-133 | a word is a sign and a magnitude word, and only 0x7f and 0xff are no number |
| E4m3.UnitsStep | qual/src/oracles/codecs.rs:123-130 | from a magnitude word to the next the value grows by one step, which doubles with every exponent |
| E4m3.ValuesIncrease | qual/src/oracles/codecs.rs:123-130 | so magnitudes are strictly increasing in the word |
| E4m3.EncodeE4m3 | qual/src/oracles/codecs.rs:157-184 | the search over all 256 words with its two skips, clamp and zero case computes the encoding |
| E4m3.EncodeMeaning | qual/src/oracles/codecs.rs:153-184 | a finite value encodes to the word of its own sign nearest to it once saturated, the even one of two as near, and nothing else encodes |
| E4m3.RoundTrip | qual/src/oracles/codecs.rs:118-184 | every word that is a number, both zeros included, encodes back to itself |
| E4m3.Saturates | qual/src/fp8_projection_oracle.rs:65-77 | a magnitude of at least 448 gets 0x7e or 0xfe, and those decode to 448 and -448 |
| E4m3.EncodeMonotone | qual/src/oracles/codecs.rs:157-184 | rounding never reorders values |
| E4m3.RoundingError | qual/src/oracles/codecs.rs:157-184 | within the finite range rounding moves a value by at most a sixteenth of itself or half the smallest step |
| CachePrecision.EncodedKeeps | qual/src/attention_qk_prepare.rs:1139-1146 | an element within 448 steps of the cache scale is kept within a sixteenth of itself or half a step, a larger one as the largest word of its sign |
| CachePrecision.AlwaysEncodes | qual/src/attention_qk_prepare.rs:1139-1146 | with the E4M3 search as codec no element of any launch is refused |
| CachePrecision.LookupKeepsElement | qual/src/attention_qk_prepare.rs:1103-1160 | end to end: when no two tokens share a location, the key and value bytes the block table leads to keep the token's own rotated key and its own value to that precision |
| Quantize.QuantizeMeaning | qual/src/fp8_projection_oracle.rs:28-55 | a row quantizes exactly when all its values are finite, and then each code rounds the value over the scale its peak calls for |
| Quantize.ScaleIsTight | qual/src/fp8_projection_oracle.rs:33-40 | the scale is positive, no value exceeds 448 over it, and unless the row is zero some value reaches 448 and gets the largest word |
| Quantize.ScaleIsEquivariant | qual/src/fp8_projection_oracle.rs:33-44 | multiplying a row that is not all zeros by c > 0 changes no code and multiplies the scale by c |
| Quantize.NegationFlipsSigns | qual/src/fp8_projection_oracle.rs:33-49 | negating a row keeps the scale, flips every sign bit and negates the represented sum |
| Quantize.RepresentationError | qual/src/fp8_projection_oracle.rs:41-44 | each value and what its word represents differ by at most a sixteenth of the value or half the smallest step of the scale |
| Quantize.RequantizingIsIdentity | qual/src/fp8_projection_oracle.rs:28-55 | quantizing what the words represent gives the same words and scale again |
| Projection.WeightsAgree | qual/src/fp8_projection_oracle.rs:11-12 | the four weight words decode to the four weight values |
| Projection.MakeWeights | qual/src/attention_output_prefill.rs:241-247 | the nested fill of the weight plane gives the closed index form |
| Projection.RowIsCyclic | qual/src/fp8_down.rs:255-264 | row r of the plane is the four words over and over, starting at r |
| Projection.WeightCorrelations | qual/src/fp8_down.rs:272-282 | one pass with four accumulators computes, for each phase, the whole dot product with the cyclic weights, and fails exactly on a word that is no number |
| Projection.CorrelationIsFullDot | qual/src/fp8_down.rs:385-388 | for every output row and width the correlation of `row & 3` is the full dot product with that row of the plane |
| Projection.EveryRowProjects | qual/src/fp8_down.rs:385-388 | the expected output is the dot product of the dequantized activations with the dequantized weight row |
| Projection.ConstantRowProjects | qual/src/fp8_gdn_input.rs:300-303 | for weight rows that repeat one word the represented sum, times weight and both scales, is the dot product of the dequantized rows |
| AttentionFixture.MakeGates | qual/src/attention_output_prefill.rs:229-240 | the three nested loops put every gate in the gate half of its packed head and leave the sentinel everywhere else |
| AttentionFixture.GateCell | qual/src/attention_output_prefill.rs:265-276 | the offset the oracle reads a gate from is where the fixture put it |
| AttentionFixture.GatedCell | qual/src/attention_output_prefill.rs:212-276 | a gated cell times `1 + exp(-gate)` is the cell's own attention: the parity's sign, four times as large beside a zero gate, times the token's factor |
| AttentionFixture.GatedPeriod | qual/src/attention_output_prefill.rs:212-276 | the gated row of a token is the gated row of token mod 8 |
| AttentionFixture.MakeOracle | qual/src/attention_output_prefill.rs:260-309 | an oracle holds its token's gated row, its codes and scale, and four correlations that are full dot products |
| AttentionFixture.MakeOracles | qual/src/attention_output_prefill.rs:260-309 | of the eight oracles entry `token & 7` is what any token's own row would give |
| AttentionFixture.SharedOracleProjects | qual/src/attention_output_prefill.rs:402-444 | for any token and output row the expected value is the dot product of that token's own dequantized row with that row of dequantized weights |
| DownFixture.RowOfToken | qual/src/fp8_down.rs:246-253 | when the width is a multiple of sixteen every token row is the pattern from its beginning times the token factor |
| DownFixture.InputCell | qual/src/fp8_down.rs:246-253 | each cell is the product of its pattern value and its token's factor, its sign that of the product |
| DownFixture.TokensShareCodes | qual/src/fp8_down.rs:246-253 | so one quantized row determines all tokens: smaller factors shrink the scale, negative ones flip signs |

## Left out

- CUDA contexts, streams, graph capture and replay, arenas, tensor maps and every eager-versus-replay comparison: foreign calls; the oracles they are compared with are what is modelled.
- Floating-point rounding, overflow, tolerances and maximum-error fields: all numeric results are over the reals, so nothing is claimed about device accuracy.
- `f32_to_bf16`, `bf16_to_f32` and the FP16 and E2M1 codecs: BF16 conversions are parameters of the paged-cache codec and exact for the fixture values used here; FP16 and E2M1 are the same search again.
- `encode_e4m3fn_scale`: the search of `E4m3.EncodeE4m3` restricted to the non-negative words.
- The tolerances of `compare_bf16_key_cache` and the other comparisons: device values are not modelled; which words it takes for inactive is.
- The conversion of positions to rotary coefficients: cosines and sines are inputs, and only lemmas that need `cos^2 + sin^2 = 1` ask for it.
- Bit masks such as `& 7` and `& (PAGE - 1)` are written as `%`, equal for the powers of two the code uses.
- Reads of `observed` device values inside the layer check: the values compared are taken as given, and only the expected side is modelled.
- `active_values` and `inactive_values` of the layer reports: closed-form sums that would only add easy members.
- Telemetry, clock policy, energy estimates, memory reports and timer failures: I/O around the sampling loop; a timing is whatever `AdaptiveSampling.Clock` reports, and an abort by a failed launch is not modelled.
- HTTP transport, JSON decoding and the tokenizer: functions of their inputs; a reply whose fields have the wrong type is not distinguished from one without a list.
- Character classes of `trim` and `rstrip`: a predicate `space` on characters.
- The benchmark twins, the other projections (`fp8_qkv.rs`, `fp8_lm_head.rs`, `fp8_swiglu.rs`, `dense_fp8_mlp.rs`) and `gdn_state_snapshot.rs`: the same shapes again.
- `src/main.rs` and the release scripts: user interface, archives and subprocesses.
- CachePrecision.EncodedKeeps: cache elements are reals, so a negative zero is stored as the positive one.
- PagedCacheOracle.Oracle: when an element cannot be encoded only the failure is stated, not how much of the planes had been written, because the original discards them.
- AdaptiveSampling.MeasureCases: states the evidence each case ends with; the metrics derived from it are left to `Statistics`.
- ContextGroups.AdjacentContextGroups: produces all groups at once where the original yields them one by one; grouping does not depend on scoring, so the order of requests to the server is the same.
- Projection.WeightCorrelations: multiplies by the weight values as the down projection does; the attention projection decodes the weight words instead, which `Projection.WeightsAgree` shows is the same.
