# Chain statistics of snap-coin-utils, in Dafny

This project models the statistics engine of `snap-coin-stats`. The engine reads the last
`block_count` blocks from a snap-coin node and reports on them:

- **block times:** mean, population variance, median, minimum and maximum of the gaps between
  consecutive timestamps;
- **per-block averages:** transactions, inputs plus outputs, and serialized bytes per block;
- **throughput:** transactions per second over the window;
- **difficulty:** the normalized block and transaction difficulty series, with their means;
- **rankings:** the top ten miners and the top ten addresses by number of occurrences.

It also models the arithmetic of the terminal bar chart of the two difficulty series, and the
two difficulty helpers of `src/main.rs`:

- normalization of a 256-bit target to `(2^256 - 1) / target`;
- the unit-prefix formatting (`K`, `M`, `G`, `T`, `P`).

Modules, one per file:

- `Bytes`, `Wrappers`: bytes, 32-byte identities and big-endian values; `Option`.
- `Difficulty` (`difficulty.dfy`): `normalize_difficulty` and `format_biguint_hr`.
- `Blocks`: transactions, blocks, and the node. The node is a height plus a map from height to
  block, and `get_block_by_height` is a lookup in it.
- `Frequency`: the `HashMap` frequency tables and `top_n`.
- `Sorting`: an in-place sort by an integer key. It stands for the two `sort_by` calls.
- `BlockTime`: `calculate_block_averages`.
- `Chain`: `calculate_chain_stats`, its single pass over the window, and the figures computed
  from it.
- `Plot`: the row loop of `plot_difficulties`.

Each loop of the source is a method with loop invariants. Each method is proved against a
specification function, for example:

- `TallyWindow` against `TallyOf`;
- `FetchTimestamps` against `Timestamps(Span(..))`;
- `PlotRows` against `RowFor`.

Lemmas state what those functions mean: counts equal occurrences, tables sum to the input and
output total, the statistics are ordered, the bars fit their column.

Edge cases where the code does something other than what a reader would expect. The model
follows the code:

- **Narrow terminals.** One would expect a terminal narrower than the 13 reserved columns to
  give bars 0 cells wide. In the code, `term_width - 7 - 3 - 3` is a `usize` subtraction, which
  underflows. `Plot.ColumnWidth` and `Plot.PlotRows` therefore require a width of at least 13.
- **Short chains.** One would expect a window of `N` blocks always to give series of exactly
  `N` entries. In the code, the window starts at `height.saturating_sub(block_count)`, so a
  chain shorter than `N` gives `min(N, height)` entries. The block-time sample has one entry
  fewer (`Chain.DescribedWindow`).
- **Degenerate divisions.** The code does not guard a zero time span or a zero target. The
  model chooses one explicit policy for each:
  - a zero time span gives `tps == None` (`Chain.TxsPerSecond`);
  - a zero target is a precondition of `Difficulty.NormalizeDifficulty`, and blocks reached by
    the pass must have non-zero targets (`Chain.WellFormed`).
- **Miner reward output.** The miner's reward is output 1 of the first transaction without
  inputs. It is the named constant `Chain.MinerRewardOutputIndex`.

## Model

| member | source | states |
|---|---|---|
| Difficulty.NormalizeDifficulty | src/main.rs:16-24 | for a non-zero target, the normalized difficulty lies between 1 and 2^256 - 1 |
| Difficulty.NormalizeIsOneIffAllOnes | src/main.rs:16-24 | with exact arithmetic, the difficulty is exactly 1 if and only if the target is the all-ones value `[255u8; 32]` |
| Difficulty.NormalizeStrictlyDecreasing | src/main.rs:16-24 | with exact arithmetic, a smaller non-zero target gives a strictly larger difficulty |
| Difficulty.MaxTargetBounds | src/main.rs:18 | the all-ones target is 256^32 - 1, and no 32-byte target is larger |
| Difficulty.ScaleToUnit | src/main.rs:33-38 | the unit loop stops at unit index ≤ 5. The value is ≥ 1, and below 1000 unless the last unit was reached. Value times 1000^unit is the difficulty. Every smaller unit would leave a value ≥ 1000 |
| Difficulty.FormatDifficulty | src/main.rs:33-45 | the printed amount is whole exactly when the scaled value is an integer, and it has the unit loop's properties |
| Difficulty.FormatHumanReadable | src/main.rs:26-46 | `format_biguint_hr` prints, in the unit chosen by the loop, an amount that times 1000^unit is the normalized difficulty of the target |
| Difficulty.Render | src/main.rs:40-45 | whole (`as u64`) form exactly when `fract() == 0`, two-decimal form otherwise; the amount keeps the value and the unit |
| Difficulty.WholeAmountBelowThousand | src/main.rs:35-42 | with exact arithmetic, an amount printed whole is below 1000, so the `as u64` cast would not saturate. At the last unit, an integer would make the odd 2^256 - 1 a multiple of 1000^5 |
| Bytes.FromBytesBE | src/main.rs:17-18 | `BigUint::from_bytes_be` of n bytes is below 256^n |
| Bytes.AllOnesValue | src/main.rs:18 | n bytes of 255 read big-endian are 256^n - 1 |
| Bytes.MaxValueIsAllOnes | src/main.rs:18 | the only n-byte value equal to 256^n - 1 is all ones |
| Frequency.Increment | src/averages.rs:180 | `*entry(k).or_default() += 1`: the table with `k` stored at its old count (0 if absent) plus one; its meaning is stated by `IncrementCounts` |
| Frequency.CountAll | src/averages.rs:179-184 | one increment per key of the sequence, in order, as the `for` loops at lines 179-184 and the miner update at line 189 do; its meaning is stated by `CountAllCounts` and `CountAllTotal` |
| Frequency.IncrementCounts | src/averages.rs:180 | `*entry(k).or_default() += 1` adds key `k` and raises its count by one, leaving every other count alone |
| Frequency.IncrementPositive | src/averages.rs:180 | an increment keeps every stored count at least 1 |
| Frequency.CountAllCounts | src/averages.rs:179-184 | after counting a sequence of keys, each key's count has grown by its number of occurrences |
| Frequency.CountAllKeys | src/averages.rs:179-184 | counting stores exactly the keys already present plus the keys counted |
| Frequency.CountAllPositive | src/averages.rs:179-184 | every stored count stays at least 1 |
| Frequency.CountAllAppend | src/averages.rs:179-184 | counting `a + b` equals counting `a` and then `b` |
| Frequency.IncrementTotal | src/averages.rs:180 | each increment adds exactly one to the sum of the counts |
| Frequency.CountAllTotal | src/averages.rs:179-184 | counting `ks` adds its length to the sum of the counts |
| Frequency.Entries | src/averages.rs:41 | `into_iter().collect()` yields each entry of the table once, in some order |
| Frequency.TopN | src/averages.rs:40-45 | `top_n` returns the `min(n, size of table)` entries with the largest counts. Keys are distinct, counts are non-increasing, and no omitted key has a larger count than a kept one |
| Frequency.SortedEntriesAreTopN | src/averages.rs:41-43 | any permutation of the entries sorted by descending count, truncated to `n`, is a top-n ranking |
| Frequency.PermutationKeepsDistinctEntries | src/averages.rs:41-42 | reordering the collected entries keeps them distinct entries of the table |
| Frequency.TopTwoOfExample | src/averages.rs:40-45 | of {A: 3, B: 3, C: 1}, the top two are A and B, whatever the tie order |
| Sorting.SortBy | src/averages.rs:42 | the vector ends sorted by the key and is a permutation of the original |
| Sorting.IndexOfLeast | src/averages.rs:42 | an index of a least-keyed element of the unsorted suffix |
| Blocks.WindowStart | src/averages.rs:107 | `height.saturating_sub(block_count)`: the window holds `min(block_count, height)` heights |
| Blocks.FirstMissingFrom | src/averages.rs:110-116 | none exactly when every height of the window is present; otherwise the lowest absent height |
| Blocks.SpanStep | src/averages.rs:110-116 | extending the window by one height appends that height's block |
| BlockTime.Mean | src/averages.rs:124-125 | the sum of the deltas divided by their number; `AverageIsSpanOverCount` and `SampleBounds` state what it is |
| BlockTime.Variance | src/averages.rs:126 | the population variance: squared deviations from the mean, summed and divided by the number of deltas (not one fewer); never negative |
| BlockTime.MedianOfSorted | src/averages.rs:129-134 | of a sorted sample: the mean of the two middle elements for an even count, the middle one for an odd count; `MedianBounds` and `MedianExamples` state what it gives |
| BlockTime.StatsOf | src/averages.rs:122-145 | the reference statistics of a timestamp sequence: mean, variance, median, first and last of the sorted deltas, and the number of deltas; `StatsBounds` states their order facts |
| BlockTime.BlockAveragesOf | src/averages.rs:98-146 | the reference outcome of `calculate_block_averages`: the three errors in the source's order, else `StatsOf` of the window's timestamps; `BlockAveragesOutcome` characterizes each case |
| BlockTime.Deltas | src/averages.rs:122 | `windows(2)` differences: one fewer than the timestamps, and the i-th is `t[i+1] - t[i]` |
| BlockTime.DeltasTelescope | src/averages.rs:122-125 | the deltas add up to the last timestamp minus the first |
| BlockTime.AverageIsSpanOverCount | src/averages.rs:122-125 | the average block time is (last - first) / (number of deltas) |
| BlockTime.SortAscending | src/averages.rs:128 | the reference sort: sorted, and a permutation of the deltas |
| BlockTime.SortedPermutationsEqual | src/averages.rs:128 | two sorted permutations of the same sample are equal, so any correct sort gives the same median, min and max |
| BlockTime.SortedCopy | src/averages.rs:128 | the in-place sort of the deltas ends equal to the reference sort |
| BlockTime.FetchTimestamps | src/averages.rs:110-116 | the fetch loop fails with the lowest missing height, or returns the window's timestamps in height order |
| BlockTime.CalculateBlockAverages | src/averages.rs:98-146 | `calculate_block_averages` returns exactly the specified outcome, errors included |
| BlockTime.BlockAveragesOutcome | src/averages.rs:102-120 | "at least 2 blocks" if and only if fewer than 2 were requested. Otherwise the lowest missing height. Success if and only if ≥ 2 were requested, the window is complete and the chain has ≥ 2 blocks; the sample is then `min(block_count, height) - 1` |
| BlockTime.StatsBounds | src/averages.rs:122-144 | min and max are deltas and bound every delta. min ≤ median ≤ max and min ≤ average ≤ max. The variance is not negative. The sample size is the number of deltas |
| BlockTime.SampleBounds | src/averages.rs:128-136 | for a sample and its sorted copy: first and last sorted elements are sample members bounding it, the median lies between them, and so does the mean |
| BlockTime.MedianBounds | src/averages.rs:129-134 | the median of a sorted sample lies between its first and last elements |
| BlockTime.MedianExamples | src/averages.rs:129-134 | the median of sorted [1, 2, 3, 4] is 2.5, and of [1, 2, 3] it is 2 |
| BlockTime.ThreeBlockExample | src/averages.rs:122-144 | timestamps 100, 110, 125: average and median 12.5, min 10, max 15, variance 6.25, sample size 2 |
| Chain.FirstCoinbase | src/averages.rs:187 | a transaction without inputs, if one is found |
| Chain.MinerOf | src/averages.rs:187-188 | the receiver of output `MinerRewardOutputIndex` (1) of the first coinbase, or none for a block without one; `MinerIsFirstCoinbaseReceiver` states what it picks |
| Chain.FirstCoinbaseIsFirst | src/averages.rs:187 | the coinbase found is the first transaction without inputs, and none is found only if there is none |
| Chain.MinerIsFirstCoinbaseReceiver | src/averages.rs:187-189 | a block credits a miner if and only if it has a transaction without inputs. The miner is the receiver of output 1 of the first such transaction |
| Chain.CoinbaseCreditsSecondOutput | src/averages.rs:187-189 | a block whose only transaction has no inputs and outputs [out0, out1] gives the miner table {out1: 1} |
| Chain.TxsIdsLength | src/averages.rs:177-185 | each input and each output adds one identity occurrence |
| Chain.TallyIds | src/averages.rs:179-184 | the inner `for` loops count every identity into the address table |
| Chain.TallyTxs | src/averages.rs:177-185 | the transaction loop counts the block's identities and adds its inputs and outputs to `total_io` |
| Chain.TallyBlock | src/averages.rs:176-194 | one iteration of the pass is one `AddBlock` step on the running figures |
| Chain.TallyOf | src/averages.rs:168-195 | the running figures after a sequence of blocks: the three totals, the miner and address tables, and the two difficulty series; the reference for the pass |
| Chain.AddBlock | src/averages.rs:173-194 | one block's contribution to the running figures; `TallyOfSnoc` shows that adding blocks one by one gives `TallyOf` |
| Chain.TallyOfSnoc | src/averages.rs:168-195 | the figures of `bs + [b]` are those of `bs` with `b` added, so one left-to-right sweep computes them |
| Chain.WindowStep | src/averages.rs:176-194 | appending a block extends each total, identity list, miner list and difficulty series by that block's share |
| Chain.TableStep | src/averages.rs:179-189 | appending a block counts its identities into the address table and its miner, if any, into the miner table |
| Chain.TallyWindow | src/averages.rs:165-195 | the pass ends with the figures of the window's blocks. It keeps the first timestamp and the last one |
| Chain.TxsPerSecond | src/averages.rs:198-205 | the throughput is undefined (`None`) exactly when the time span is zero |
| Chain.RateTimesSpan | src/averages.rs:205 | over a non-zero span, the rate times the span is the number of transactions |
| Chain.Window | src/averages.rs:153-172 | the window holds `min(block_count, height)` blocks, in height order from `height.saturating_sub(block_count)` |
| Chain.Figures | src/averages.rs:197-212 | the returned figures are the running totals over the requested block count, the rate, the series means, and top-10 rankings of both tables |
| Chain.SummarizeBlocks | src/averages.rs:153-212 | the pass and its figures summarize exactly the window's blocks |
| Chain.WindowStats | src/averages.rs:152-212 | the stats after the block-time call summarize the window `[height.saturating_sub(block_count), height)` |
| Chain.CalculateChainStats | src/averages.rs:149-213 | fails exactly when `calculate_block_averages` fails, with its error. Otherwise it describes the node's window |
| Chain.AddressIdsLength | src/averages.rs:178-184 | the address occurrences of a window number its inputs plus outputs |
| Chain.AddressCount | src/averages.rs:179-184 | an address's count is the number of inputs it owns plus outputs it receives in the window |
| Chain.AddressTableTotal | src/averages.rs:176-185 | every address count is at least 1, and the counts add up to `total_io` |
| Chain.MinersLength | src/averages.rs:187-190 | each block with a coinbase credits exactly one miner, and each other block none |
| Chain.MinerCount | src/averages.rs:187-190 | a miner's count is the number of blocks of the window that credit it |
| Chain.MinerTableTotal | src/averages.rs:187-190 | every miner count is at least 1, and the counts add up to the number of blocks with a coinbase |
| Chain.MeanReal | src/averages.rs:206-207 | the mean times the series' length is its sum; `MeanAtLeastOne` bounds it from below |
| Chain.MeanAtLeastOne | src/averages.rs:206-207 | a mean of normalized difficulties is at least 1 |
| Chain.SummarizedSeries | src/averages.rs:193-194 | the series hold the normalized block and transaction difficulty of each block, in height order, and their means are at least 1 |
| Chain.SummarizedAverages | src/averages.rs:197-204 | the per-block averages are the window totals divided by the requested block count |
| Chain.SummarizedThroughput | src/averages.rs:173-205 | `tps` is undefined exactly when the first and last timestamps coincide; otherwise it is the window's transactions over `last_ts - first_ts` |
| Chain.DescribedWindow | src/averages.rs:150-153 | a successful call gives series of `min(block_count, height)` entries, one more than the block-time sample |
| Chain.RankedCounts | src/averages.rs:208-209 | every ranked address and miner is reported with its true occurrence count in the window, which is at least 1 |
| Plot.ColumnWidth | src/averages.rs:49-54 | 33 cells when the terminal size is unknown (80 columns). Otherwise 13 + 2·w ≤ terminal width < 13 + 2·w + 2 |
| Plot.SeriesMax | src/averages.rs:55-56 | the fold maximum is at least 0, bounds every value, and is 0 or a value of the series |
| Plot.ScaleBounds | src/averages.rs:75-77 | the scaled length never exceeds the width; it is minus infinity exactly for a negative value in a series whose maximum is 0 and a column of at least one cell; values from 0 up scale to lengths from 0 up |
| Plot.Scale | src/averages.rs:75-77 | `((v / max) * width).min(width)`, with the `f64` cases of a zero maximum: `NaN.min(width)` gives the width for `v == 0`, `-inf` for a negative `v`, and for width 0 the product is `NaN` again, which `min` turns into 0; bounded by `ScaleBounds` |
| Plot.ToUsize | src/averages.rs:79-82 | `as usize` of a float: 0 for values up to 0, otherwise the integer part (truncation) |
| Plot.Round | src/averages.rs:80-82 | `f64::round`: the integer within half of `x`, halves rounded away from zero |
| Plot.BarOf | src/averages.rs:79-82 | whole cells are the floor of a non-negative scaled length; a negative or minus-infinite length draws nothing (`Bar(0, 0)`), as the saturating casts do |
| Plot.BarFor | src/averages.rs:75-82 | `Scale`, then `BarOf`: the full cells and the eighths drawn for one value; `BarFits` and `BarApproximatesScale` state what it gives |
| Plot.BarFits | src/averages.rs:75-85 | the partial glyph index is within the 9-glyph table, and the bar (full cells plus one for a partial glyph) fits the column |
| Plot.BarApproximatesScale | src/averages.rs:75-82 | for a value between 0 and a positive maximum: full cells are the floor of the scaled length, and full + partial/8 is within 1/16 cell of it |
| Plot.MaximumFillsColumn | src/averages.rs:75-82 | the series maximum, and every value of an all-zero series, fills the column with full cells |
| Plot.Repeat | src/averages.rs:84-85 | `"█".repeat(n)` is n full-block characters |
| Plot.BarText | src/averages.rs:84-85 | the bar text has the full cells plus one character for a non-empty partial glyph |
| Plot.BarTextFor | src/averages.rs:84-85 | every bar text is at most the column width |
| Plot.RowFor | src/averages.rs:87-93 | a row shows its height and two bars no wider than the column |
| Plot.PlotRows | src/averages.rs:73-94 | one row per height, in order; row i holds bars of the i-th values, each series scaled by its own maximum |
| Plot.TwoRowExample | src/averages.rs:75-85 | with maximum 2 in 33 cells: 2 fills the column, 1 is 16 cells and 4 eighths, 1.5 is 24 cells and 6 eighths |
| Plot.QuarterBarExample | src/averages.rs:49-85 | series 1, 2, 4 on a 27-column terminal: a 7-cell column, and the bar of 1 is one cell plus six eighths |

## Left out

- The node client and `async`/`await`: the node is a value (`Blocks.Provider`), and
  `get_block_by_height` becomes a map lookup (`Blocks.GetBlockByHeight`). Transport errors
  (`?` on `get_height` and `get_block_by_height`) are not modelled.
- The second fetch in `calculate_chain_stats`: both passes read the same node. So the
  "Missing block" branch of the second pass can never be taken after the first pass succeeded.
- Serialization: a block's bincode length is an abstract field (`Block.size`). The encoding
  error `?` is not modelled.
- `std_dev`: the square root is not modelled. The variance it is taken of is.
- Floating point: all arithmetic is exact (`real`, `int`). So the model has no rounding in
  `to_f64`, sums or quotients, and no `inf` or `NaN` apart from the cases written out in
  `Plot.Scale` and `Chain.TxsPerSecond`.
- Identities are the 32-byte `dump_buf` values. Their base36 display is not modelled.
- The command line, printing, the chart's header and separator rows, and `{:.2}` formatting.
  `Difficulty.Render` records which form is printed, not the characters.
- `term_size::dimensions()`: the terminal width is a parameter.
- Frequency.TopN: the order among equal counts depends on `HashMap` iteration order. The
  contract therefore admits every order of ties, and the model sorts by selection sort rather
  than Rust's stable merge sort.
- Plot.ColumnWidth: a terminal narrower than 13 columns is a precondition, because the source's
  `usize` subtraction underflows there.
- Plot.PlotRows: the difficulty series must be at least as long as the heights, because the
  source indexes them by the heights' positions.
- Difficulty.WholeAmountBelowThousand: holds of exact reals only. In `f64`, every value from
  2^53 on has `fract() == 0.0`. So at the P unit, a difficulty of about 9·10^30 or more prints as
  a whole number, and from 2^64 P on the `as u64` cast saturates (a target of 31 zero bytes then
  0x01 prints `18446744073709551615P`).
- Difficulty.NormalizeIsOneIffAllOnes: the "only if" half holds of exact reals only. In `f64`,
  every target from about 2^256 - 2^202 up rounds to the same float as the all-ones value and
  normalizes to exactly 1.0.
- Difficulty.NormalizeDifficulty: a zero target is a precondition. The source divides by it,
  giving `inf`.
- Chain.WellFormed: a coinbase with fewer than two outputs is excluded by precondition. The
  source panics on `outputs[1]`.
- Chain.TxsPerSecond: a zero span gives `None` where the source yields `inf` or `NaN`.
- Chain.SummarizedThroughput: the span is the exact difference of the timestamps. A last
  timestamp below the first, which would panic or wrap in the source's unsigned subtraction,
  gives a negative span here.
- Integer widths: `usize` overflow of the running totals is not modelled.
