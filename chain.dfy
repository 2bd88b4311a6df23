/**
 * `calculate_chain_stats` of src/averages.rs: one pass over the window's blocks that totals
 * transactions, inputs and outputs and serialized sizes, counts how often each address and each
 * miner occurs, collects the normalized block and transaction difficulties, and notes the first
 * and last timestamps; then the per-block averages, the transactions per second and the two
 * top-10 rankings.
 */
module Chain {
  import opened Wrappers
  import opened Bytes
  import opened Frequency
  import opened Difficulty
  import opened Blocks
  import opened BlockTime

  /** The coinbase output that pays the miner: the second one. */
  const MinerRewardOutputIndex: nat := 1

  /** The length of both rankings. */
  const TopCount: nat := 10

  /** The index of the first transaction without inputs (the coinbase), if any. */
  function FirstCoinbase(txs: seq<Tx>): (r: Option<nat>)
    ensures r.Some? ==> r.value < |txs| && txs[r.value].inputs == []
  {
    if txs == [] then None
    else if txs[0].inputs == [] then Some(0)
    else
      match FirstCoinbase(txs[1..])
      case None => None
      case Some(k) => Some(k + 1)
  }

  /** The coinbase found is the first transaction without inputs, and none is found only if there is none. */
  lemma {:induction false} FirstCoinbaseIsFirst(txs: seq<Tx>)
    ensures FirstCoinbase(txs).Some? ==> forall i :: 0 <= i < FirstCoinbase(txs).value ==> txs[i].inputs != []
    ensures FirstCoinbase(txs).None? <==> forall i :: 0 <= i < |txs| ==> txs[i].inputs != []
  {
    if txs != [] && txs[0].inputs != [] {
      FirstCoinbaseIsFirst(txs[1..]);
      assert forall i :: 1 <= i < |txs| ==> txs[i] == txs[1..][i - 1];
    }
  }

  /**
   * What the pass needs of a block: targets that are not zero (they are divisors), and a
   * coinbase, if there is one, with an output at the miner-reward index.
   */
  ghost predicate WellFormed(b: Block)
  {
    && FromBytesBE(b.blockTarget) != 0
    && FromBytesBE(b.txTarget) != 0
    && (FirstCoinbase(b.txs).Some? ==> MinerRewardOutputIndex < |b.txs[FirstCoinbase(b.txs).value].outputs|)
  }

  ghost predicate AllWellFormed(bs: seq<Block>)
  {
    forall i :: 0 <= i < |bs| ==> WellFormed(bs[i])
  }

  /** The receiver of the miner-reward output of the block's first coinbase. */
  function MinerOf(b: Block): (m: Option<Id>)
    requires WellFormed(b)
  {
    match FirstCoinbase(b.txs)
    case None => None
    case Some(i) => Some(b.txs[i].outputs[MinerRewardOutputIndex])
  }

  /**
   * A block credits a miner exactly when it has a transaction without inputs, and the miner is
   * the receiver of the second output of the first such transaction.
   */
  lemma MinerIsFirstCoinbaseReceiver(b: Block)
    requires WellFormed(b)
    ensures MinerOf(b).Some? <==> exists i :: 0 <= i < |b.txs| && b.txs[i].inputs == []
    ensures MinerOf(b).Some? ==> exists i ::
      && 0 <= i < |b.txs| && b.txs[i].inputs == []
      && (forall j :: 0 <= j < i ==> b.txs[j].inputs != [])
      && 1 < |b.txs[i].outputs| && MinerOf(b).value == b.txs[i].outputs[1]
  {
    FirstCoinbaseIsFirst(b.txs);
  }

  /** The identities a list of transactions touches: each one's input owners, then its receivers. */
  function TxsIds(txs: seq<Tx>): seq<Id>
  {
    if txs == [] then []
    else
      var tx := txs[|txs| - 1];
      TxsIds(txs[..|txs| - 1]) + tx.inputs + tx.outputs
  }

  /** The number of inputs and outputs of a list of transactions. */
  function IoCount(txs: seq<Tx>): nat
  {
    if txs == [] then 0
    else
      var tx := txs[|txs| - 1];
      IoCount(txs[..|txs| - 1]) + |tx.inputs| + |tx.outputs|
  }

  /** Each input and each output adds one identity occurrence. */
  lemma {:induction false} TxsIdsLength(txs: seq<Tx>)
    ensures |TxsIds(txs)| == IoCount(txs)
  {
    if txs != [] {
      TxsIdsLength(txs[..|txs| - 1]);
    }
  }

  function TotalTxs(bs: seq<Block>): nat
  {
    if bs == [] then 0 else TotalTxs(bs[..|bs| - 1]) + |bs[|bs| - 1].txs|
  }

  function TotalIo(bs: seq<Block>): nat
  {
    if bs == [] then 0 else TotalIo(bs[..|bs| - 1]) + IoCount(bs[|bs| - 1].txs)
  }

  function TotalSize(bs: seq<Block>): nat
  {
    if bs == [] then 0 else TotalSize(bs[..|bs| - 1]) + bs[|bs| - 1].size
  }

  /**
   * A block whose only transaction has no inputs and outputs paying `out0` then `out1` credits
   * `out1`, and only `out1`, exactly once.
   */
  lemma CoinbaseCreditsSecondOutput(out0: Id, out1: Id, b: Block)
    requires b.txs == [Tx([], [out0, out1])]
    requires FromBytesBE(b.blockTarget) != 0 && FromBytesBE(b.txTarget) != 0
    ensures AllWellFormed([b]) && MinerTable([b]) == map[out1 := 1]
  {
    assert FirstCoinbase(b.txs) == Some(0);
    assert WellFormed(b) && MinerOf(b) == Some(out1);
    var bs: seq<Block> := [];
    assert bs + [b] == [b];
    TableStep(bs, b);
    assert MinerTable(bs) == map[];
  }

  /** Every identity occurrence of the window, block by block. */
  function AddressIds(bs: seq<Block>): seq<Id>
  {
    if bs == [] then [] else AddressIds(bs[..|bs| - 1]) + TxsIds(bs[|bs| - 1].txs)
  }

  /** The credited miner of each block that has a coinbase, in height order. */
  function Miners(bs: seq<Block>): seq<Id>
    requires AllWellFormed(bs)
  {
    if bs == [] then []
    else
      var b := bs[|bs| - 1];
      Miners(bs[..|bs| - 1]) + match MinerOf(b) case None => [] case Some(m) => [m]
  }

  /** The number of blocks that have a coinbase. */
  function CoinbaseBlocks(bs: seq<Block>): nat
  {
    if bs == [] then 0
    else CoinbaseBlocks(bs[..|bs| - 1]) + if FirstCoinbase(bs[|bs| - 1].txs).Some? then 1 else 0
  }

  /** The address frequency table after the pass. */
  function AddressTable(bs: seq<Block>): map<Id, nat>
  {
    CountAll(map[], AddressIds(bs))
  }

  /** The miner frequency table after the pass. */
  function MinerTable(bs: seq<Block>): map<Id, nat>
    requires AllWellFormed(bs)
  {
    CountAll(map[], Miners(bs))
  }

  /** `normalize_difficulty(&block.meta.block_pow_difficulty)` for each block. */
  function BlockDifficulties(bs: seq<Block>): (ds: seq<real>)
    requires AllWellFormed(bs)
    ensures |ds| == |bs|
  {
    seq(|bs|, i requires 0 <= i < |bs| => NormalizeDifficulty(bs[i].blockTarget))
  }

  /** `normalize_difficulty(&block.meta.tx_pow_difficulty)` for each block. */
  function TxDifficulties(bs: seq<Block>): (ds: seq<real>)
    requires AllWellFormed(bs)
    ensures |ds| == |bs|
  {
    seq(|bs|, i requires 0 <= i < |bs| => NormalizeDifficulty(bs[i].txTarget))
  }

  function SumReal(s: seq<real>): real
  {
    if s == [] then 0.0 else SumReal(s[..|s| - 1]) + s[|s| - 1]
  }

  /** `series.iter().sum::<f64>() / series.len() as f64`. */
  function MeanReal(s: seq<real>): (m: real)
    requires |s| > 0
    ensures m * |s| as real == SumReal(s)
  {
    SumReal(s) / |s| as real
  }

  /**
   * `total_txs as f64 / duration`: the transactions per second over the window's time span, or
   * `None` when the span is zero, where the floating-point quotient is not a number of seconds.
   */
  function TxsPerSecond(txs: nat, duration: int): (r: Option<real>)
    ensures r.None? <==> duration == 0
  {
    if duration == 0 then None else Some(txs as real / duration as real)
  }

  /** Over a non-zero span, the rate times the span is the number of transactions. */
  lemma RateTimesSpan(txs: nat, duration: int)
    requires duration != 0
    ensures TxsPerSecond(txs, duration).value * duration as real == txs as real
  {
  }

  /** `ChainStats`; `tps` is `None` when the window's first and last timestamps coincide. */
  datatype ChainStats = ChainStats(
    blockTime: BlockAverages,
    avgTxsPerBlock: real,
    avgIoPerBlock: real,
    avgBlockSizeBytes: real,
    tps: Option<real>,
    avgBlockDifficulty: real,
    avgTxDifficulty: real,
    topMiners: seq<(Id, nat)>,
    topAddresses: seq<(Id, nat)>,
    blockDifficultySeries: seq<real>,
    txDifficultySeries: seq<real>)

  /** The blocks of the window `[height - block_count, height)`, in height order. */
  function Window(p: Provider, blockCount: nat): (bs: seq<Block>)
    requires PresentBetween(p, WindowStart(p.height, blockCount), p.height)
    ensures |bs| == Min(blockCount, p.height)
    ensures forall i :: 0 <= i < |bs| ==> bs[i] == p.blocks[WindowStart(p.height, blockCount) + i]
  {
    Span(p, WindowStart(p.height, blockCount), p.height)
  }

  /** Every block of a window that the pass reaches is well formed. */
  ghost predicate WindowWellFormed(p: Provider, blockCount: nat)
  {
    blockCount >= 2 && p.height >= 2 && PresentBetween(p, WindowStart(p.height, blockCount), p.height) ==>
      forall h :: WindowStart(p.height, blockCount) <= h < p.height ==> WellFormed(p.blocks[h])
  }

  /** `s` is what `calculate_chain_stats(client, block_count)` returns for the node `p`. */
  ghost predicate Describes(s: ChainStats, p: Provider, blockCount: nat)
  {
    && blockCount >= 2 && p.height >= 2
    && PresentBetween(p, WindowStart(p.height, blockCount), p.height)
    && BlockAveragesOf(p, blockCount).Ok?
    && s.blockTime == BlockAveragesOf(p, blockCount).value
    && AllWellFormed(Window(p, blockCount))
    && SummarizesWindow(s, Window(p, blockCount), blockCount)
  }

  /**
   * The per-block figures of `s` are those of a pass whose running figures ended as `t`, over a
   * window spanning `duration` seconds, divided by the `blockCount` requested blocks.
   */
  ghost predicate Summarizes(s: ChainStats, t: Tally, duration: int, blockCount: nat)
  {
    && blockCount >= 1 && |t.blockDiffs| > 0 && |t.txDiffs| > 0
    && s.avgTxsPerBlock == t.totalTxs as real / blockCount as real
    && s.avgIoPerBlock == t.totalIo as real / blockCount as real
    && s.avgBlockSizeBytes == t.totalSize as real / blockCount as real
    && s.tps == TxsPerSecond(t.totalTxs, duration)
    && s.blockDifficultySeries == t.blockDiffs
    && s.txDifficultySeries == t.txDiffs
    && s.avgBlockDifficulty == MeanReal(t.blockDiffs)
    && s.avgTxDifficulty == MeanReal(t.txDiffs)
    && IsTopN(s.topMiners, t.minerCount, TopCount)
    && IsTopN(s.topAddresses, t.addressCount, TopCount)
  }

  /** The per-block figures of `s` are those of the window `bs` of `blockCount` requested blocks. */
  ghost predicate SummarizesWindow(s: ChainStats, bs: seq<Block>, blockCount: nat)
  {
    && |bs| >= 1 && AllWellFormed(bs)
    && Summarizes(s, TallyOf(bs), bs[|bs| - 1].timestamp - bs[0].timestamp, blockCount)
  }

  /** `*map.entry(id).or_default() += 1` for each identity of `ids`, in order. */
  method TallyIds(table: map<Id, nat>, ids: seq<Id>) returns (r: map<Id, nat>)
    ensures r == CountAll(table, ids)
  {
    r := table;
    for i := 0 to |ids|
      invariant r == CountAll(table, ids[..i])
    {
      assert ids[..i + 1] == ids[..i] + [ids[i]];
      CountAllSnoc(table, ids[..i], ids[i]);
      r := Increment(r, ids[i]);
    }
    assert ids[..|ids|] == ids;
  }

  /** The `for tx in &block.transactions` loop: input/output totals and address counts. */
  method TallyTxs(table: map<Id, nat>, io: nat, txs: seq<Tx>) returns (r: map<Id, nat>, io': nat)
    ensures r == CountAll(table, TxsIds(txs))
    ensures io' == io + IoCount(txs)
  {
    r, io' := table, io;
    for i := 0 to |txs|
      invariant r == CountAll(table, TxsIds(txs[..i]))
      invariant io' == io + IoCount(txs[..i])
    {
      var tx := txs[i];
      assert txs[..i + 1][..i] == txs[..i];
      io' := io' + |tx.inputs| + |tx.outputs|;
      CountAllAppend(table, TxsIds(txs[..i]), tx.inputs);
      r := TallyIds(r, tx.inputs);
      CountAllAppend(table, TxsIds(txs[..i]) + tx.inputs, tx.outputs);
      r := TallyIds(r, tx.outputs);
    }
    assert txs[..|txs|] == txs;
  }

  /**
   * The pass's running figures: transaction, input/output and byte totals, the miner and
   * address frequency tables, and the two difficulty series.
   */
  datatype Tally = Tally(
    totalTxs: nat,
    totalIo: nat,
    totalSize: nat,
    minerCount: map<Id, nat>,
    addressCount: map<Id, nat>,
    blockDiffs: seq<real>,
    txDiffs: seq<real>)

  /** The running figures after the blocks `bs`. */
  function TallyOf(bs: seq<Block>): Tally
    requires AllWellFormed(bs)
  {
    Tally(TotalTxs(bs), TotalIo(bs), TotalSize(bs), MinerTable(bs), AddressTable(bs),
          BlockDifficulties(bs), TxDifficulties(bs))
  }

  /** The running figures after one more block `b`: its counts added, its identities and miner counted. */
  function AddBlock(t: Tally, b: Block): Tally
    requires WellFormed(b)
  {
    Tally(
      t.totalTxs + |b.txs|,
      t.totalIo + IoCount(b.txs),
      t.totalSize + b.size,
      match MinerOf(b) case None => t.minerCount case Some(m) => Increment(t.minerCount, m),
      CountAll(t.addressCount, TxsIds(b.txs)),
      t.blockDiffs + [NormalizeDifficulty(b.blockTarget)],
      t.txDiffs + [NormalizeDifficulty(b.txTarget)])
  }

  /** The body of the pass for one block, after its timestamp is noted. */
  method TallyBlock(t: Tally, b: Block) returns (t': Tally)
    requires WellFormed(b)
    ensures t' == AddBlock(t, b)
  {
    var totalTxs := t.totalTxs + |b.txs|;
    var addressCount, totalIo := TallyTxs(t.addressCount, t.totalIo, b.txs);

    var minerCount := t.minerCount;
    var coinbase := FirstCoinbase(b.txs);
    if coinbase.Some? {
      var out := b.txs[coinbase.value].outputs[MinerRewardOutputIndex];
      minerCount := Increment(minerCount, out);
    }

    var totalSize := t.totalSize + b.size;
    t' := Tally(totalTxs, totalIo, totalSize, minerCount, addressCount,
                t.blockDiffs + [NormalizeDifficulty(b.blockTarget)],
                t.txDiffs + [NormalizeDifficulty(b.txTarget)]);
  }

  /**
   * The figures of a window grow block by block: those of `bs + [b]` are those of `bs` with
   * `b` added, so the pass can compute them in one left-to-right sweep.
   */
  lemma TallyOfSnoc(bs: seq<Block>, b: Block)
    requires AllWellFormed(bs + [b])
    ensures AllWellFormed(bs) && WellFormed(b)
    ensures TallyOf(bs + [b]) == AddBlock(TallyOf(bs), b)
  {
    assert WellFormed(b) by {
      assert (bs + [b])[|bs|] == b;
    }
    TableStep(bs, b);
    WindowStep(bs, b);
  }

  /** One more block of `bs` read: the figures of the longer prefix. */
  lemma TallyOfPrefix(bs: seq<Block>, k: nat, t: Tally, t': Tally)
    requires AllWellFormed(bs) && k < |bs|
    requires AllWellFormed(bs[..k]) && t == TallyOf(bs[..k])
    requires t' == AddBlock(t, bs[k])
    ensures AllWellFormed(bs[..k + 1]) && t' == TallyOf(bs[..k + 1])
  {
    assert bs[..k + 1] == bs[..k] + [bs[k]];
    assert forall i :: 0 <= i < k + 1 ==> bs[..k + 1][i] == bs[i];
    TallyOfSnoc(bs[..k], bs[k]);
  }

  /** Appending a block extends each per-window quantity by that block's share. */
  lemma WindowStep(bs: seq<Block>, b: Block)
    requires AllWellFormed(bs + [b])
    ensures AllWellFormed(bs)
    ensures TotalTxs(bs + [b]) == TotalTxs(bs) + |b.txs|
    ensures TotalIo(bs + [b]) == TotalIo(bs) + IoCount(b.txs)
    ensures TotalSize(bs + [b]) == TotalSize(bs) + b.size
    ensures AddressIds(bs + [b]) == AddressIds(bs) + TxsIds(b.txs)
    ensures Miners(bs + [b]) == Miners(bs) + match MinerOf(b) case None => [] case Some(m) => [m]
    ensures BlockDifficulties(bs + [b]) == BlockDifficulties(bs) + [NormalizeDifficulty(b.blockTarget)]
    ensures TxDifficulties(bs + [b]) == TxDifficulties(bs) + [NormalizeDifficulty(b.txTarget)]
  {
    assert (bs + [b])[..|bs|] == bs;
    assert forall i :: 0 <= i < |bs| ==> bs[i] == (bs + [b])[i];
  }

  /** Appending a block counts its identities into the address table and its miner into the miner table. */
  lemma TableStep(bs: seq<Block>, b: Block)
    requires AllWellFormed(bs + [b])
    ensures AllWellFormed(bs)
    ensures AddressTable(bs + [b]) == CountAll(AddressTable(bs), TxsIds(b.txs))
    ensures MinerTable(bs + [b]) ==
      match MinerOf(b) case None => MinerTable(bs) case Some(m) => Increment(MinerTable(bs), m)
  {
    WindowStep(bs, b);
    CountAllAppend(map[], AddressIds(bs), TxsIds(b.txs));
    match MinerOf(b)
    case None =>
      assert Miners(bs) + [] == Miners(bs);
    case Some(m) =>
      CountAllSnoc(map[], Miners(bs), m);
  }

  /** `calculate_chain_stats`: the block-time statistics, then one pass over the window. */
  method CalculateChainStats(p: Provider, blockCount: nat) returns (r: Result<ChainStats>)
    requires WindowWellFormed(p, blockCount)
    ensures r.Err? <==> BlockAveragesOf(p, blockCount).Err?
    ensures r.Err? ==> r.error == BlockAveragesOf(p, blockCount).error
    ensures r.Ok? ==> Describes(r.value, p, blockCount)
  {
    var blockTime := CalculateBlockAverages(p, blockCount);
    if blockTime.Err? {
      return Err(blockTime.error);
    }
    BlockAveragesOutcome(p, blockCount);
    WindowBlocks(p, blockCount);
    var stats := WindowStats(p, blockCount, blockTime.value);
    r := Ok(stats);
  }

  /** The part of `calculate_chain_stats` after the block-time statistics: the pass and its figures. */
  method WindowStats(p: Provider, blockCount: nat, blockTime: BlockAverages) returns (s: ChainStats)
    requires blockCount >= 2 && p.height >= 2
    requires PresentBetween(p, WindowStart(p.height, blockCount), p.height)
    requires AllWellFormed(Window(p, blockCount))
    requires forall h :: WindowStart(p.height, blockCount) <= h < p.height ==>
      GetBlockByHeight(p, h) == Some(Window(p, blockCount)[h - WindowStart(p.height, blockCount)])
    ensures s.blockTime == blockTime
    ensures SummarizesWindow(s, Window(p, blockCount), blockCount)
  {
    s := SummarizeBlocks(p, WindowStart(p.height, blockCount), Window(p, blockCount), blockCount, blockTime);
  }

  /** The pass over the heights `[start, p.height)`, whose blocks are `bs`, and the figures from it. */
  method SummarizeBlocks(p: Provider, start: nat, ghost bs: seq<Block>, blockCount: nat, blockTime: BlockAverages)
    returns (s: ChainStats)
    requires start + |bs| == p.height && |bs| >= 1 && AllWellFormed(bs) && blockCount >= 1
    requires forall h :: start <= h < p.height ==> GetBlockByHeight(p, h) == Some(bs[h - start])
    ensures s.blockTime == blockTime
    ensures SummarizesWindow(s, bs, blockCount)
  {
    var t, first, last := TallyWindow(p, start, bs);
    s := Figures(blockTime, t, last.value - first.value, blockCount);
    SummarizesSame(s, t, TallyOf(bs), last.value - first.value, bs[|bs| - 1].timestamp - bs[0].timestamp, blockCount);
  }

  /** Summarizing is about the running figures and the span, whatever expressions denote them. */
  lemma SummarizesSame(s: ChainStats, t: Tally, t': Tally, duration: int, duration': int, blockCount: nat)
    requires t == t' && duration == duration'
    requires Summarizes(s, t, duration, blockCount)
    ensures Summarizes(s, t', duration', blockCount)
  {
  }

  /** The figures `calculate_chain_stats` returns once the pass has ended with `t`. */
  method Figures(blockTime: BlockAverages, t: Tally, duration: int, blockCount: nat) returns (s: ChainStats)
    requires blockCount >= 1 && |t.blockDiffs| > 0 && |t.txDiffs| > 0
    ensures s.blockTime == blockTime
    ensures Summarizes(s, t, duration, blockCount)
  {
    var blocksF := blockCount as real;
    var tps := TxsPerSecond(t.totalTxs, duration);
    var topMiners := TopN(t.minerCount, TopCount);
    var topAddresses := TopN(t.addressCount, TopCount);
    s := ChainStats(
      blockTime,
      t.totalTxs as real / blocksF,
      t.totalIo as real / blocksF,
      t.totalSize as real / blocksF,
      tps,
      MeanReal(t.blockDiffs),
      MeanReal(t.txDiffs),
      topMiners,
      topAddresses,
      t.blockDiffs,
      t.txDiffs);
  }

  /** The window's blocks are those the provider returns for its heights, and all well formed. */
  lemma WindowBlocks(p: Provider, blockCount: nat)
    requires PresentBetween(p, WindowStart(p.height, blockCount), p.height)
    requires forall h :: WindowStart(p.height, blockCount) <= h < p.height ==> WellFormed(p.blocks[h])
    ensures AllWellFormed(Window(p, blockCount))
    ensures forall h :: WindowStart(p.height, blockCount) <= h < p.height ==>
      GetBlockByHeight(p, h) == Some(Window(p, blockCount)[h - WindowStart(p.height, blockCount)])
  {
  }

  /**
   * The `for h in start..height` loop of `calculate_chain_stats`, over heights whose blocks are
   * `bs`: the running figures, and the timestamps of the first block (`first_ts.get_or_insert`
   * keeps the first one) and of the last.
   */
  method TallyWindow(p: Provider, start: nat, ghost bs: seq<Block>) returns (t: Tally, first: Option<int>, last: Option<int>)
    requires start + |bs| == p.height && AllWellFormed(bs)
    requires forall h :: start <= h < p.height ==> GetBlockByHeight(p, h) == Some(bs[h - start])
    ensures t == TallyOf(bs)
    ensures first == (if bs == [] then None else Some(bs[0].timestamp))
    ensures last == (if bs == [] then None else Some(bs[|bs| - 1].timestamp))
  {
    t := Tally(0, 0, 0, map[], map[], [], []);
    first, last := None, None;
    for h := start to p.height
      invariant AllWellFormed(bs[..h - start]) && t == TallyOf(bs[..h - start])
      invariant h == start ==> first.None? && last.None?
      invariant h > start ==> first == Some(bs[0].timestamp) && last == Some(bs[h - start - 1].timestamp)
    {
      var block := GetBlockByHeight(p, h);
      var b := block.value;
      var t' := TallyBlock(t, b);
      TallyOfPrefix(bs, h - start, t, t');
      t := t';
      if first.None? {
        first := Some(b.timestamp);
      }
      last := Some(b.timestamp);
    }
    assert bs[..|bs|] == bs;
  }

  /** The identity occurrences of a window are its inputs and outputs. */
  lemma {:induction false} AddressIdsLength(bs: seq<Block>)
    ensures |AddressIds(bs)| == TotalIo(bs)
  {
    if bs != [] {
      AddressIdsLength(bs[..|bs| - 1]);
      TxsIdsLength(bs[|bs| - 1].txs);
    }
  }

  /** An address's count is the number of inputs it owns and outputs it receives in the window. */
  lemma AddressCount(bs: seq<Block>, k: Id)
    ensures Count(AddressTable(bs), k) == multiset(AddressIds(bs))[k]
  {
    CountAllCounts(map[], AddressIds(bs), k);
  }

  /**
   * Every input owner and every output receiver is counted once: the address counts are at
   * least 1 and add up to the window's input and output total.
   */
  lemma AddressTableTotal(bs: seq<Block>)
    ensures Positive(AddressTable(bs))
    ensures Total(AddressTable(bs)) == TotalIo(bs)
  {
    AddressIdsLength(bs);
    CountAllTotal(map[], AddressIds(bs));
    CountAllPositive(map[], AddressIds(bs));
  }

  /** A prefix of well-formed blocks is well formed. */
  lemma PrefixWellFormed(bs: seq<Block>, k: nat)
    requires AllWellFormed(bs) && k <= |bs|
    ensures AllWellFormed(bs[..k])
  {
    assert forall i :: 0 <= i < k ==> bs[..k][i] == bs[i];
  }

  /** Each block with a coinbase credits exactly one miner, and each other block none. */
  lemma {:induction false} MinersLength(bs: seq<Block>)
    requires AllWellFormed(bs)
    ensures |Miners(bs)| == CoinbaseBlocks(bs)
  {
    if bs != [] {
      PrefixWellFormed(bs, |bs| - 1);
      MinersLength(bs[..|bs| - 1]);
    }
  }

  /** A miner's count is the number of blocks of the window that credit it. */
  lemma MinerCount(bs: seq<Block>, k: Id)
    requires AllWellFormed(bs)
    ensures Count(MinerTable(bs), k) == multiset(Miners(bs))[k]
  {
    CountAllCounts(map[], Miners(bs), k);
  }

  /** The miner counts are at least 1 and add up to the number of blocks with a coinbase. */
  lemma MinerTableTotal(bs: seq<Block>)
    requires AllWellFormed(bs)
    ensures Positive(MinerTable(bs))
    ensures Total(MinerTable(bs)) == CoinbaseBlocks(bs)
  {
    MinersLength(bs);
    CountAllTotal(map[], Miners(bs));
    CountAllPositive(map[], Miners(bs));
  }

  lemma {:induction false} SumRealAtLeast(s: seq<real>, lo: real)
    requires forall i :: 0 <= i < |s| ==> s[i] >= lo
    ensures SumReal(s) >= |s| as real * lo
  {
    if s != [] {
      SumRealAtLeast(s[..|s| - 1], lo);
      assert |s| as real * lo == (|s| - 1) as real * lo + lo;
    }
  }

  /** A mean of normalized difficulties, each at least 1, is at least 1. */
  lemma MeanAtLeastOne(s: seq<real>)
    requires |s| > 0 && forall i :: 0 <= i < |s| ==> s[i] >= 1.0
    ensures MeanReal(s) >= 1.0
  {
    SumRealAtLeast(s, 1.0);
    assert MeanReal(s) * |s| as real == SumReal(s);
  }

  /**
   * The difficulty series of a window's figures hold one block and one transaction difficulty
   * per block, in height order, and their averages are at least 1.
   */
  lemma SummarizedSeries(s: ChainStats, bs: seq<Block>, blockCount: nat)
    requires SummarizesWindow(s, bs, blockCount)
    ensures |s.blockDifficultySeries| == |s.txDifficultySeries| == |bs|
    ensures forall i :: 0 <= i < |bs| ==>
      s.blockDifficultySeries[i] == NormalizeDifficulty(bs[i].blockTarget) &&
      s.txDifficultySeries[i] == NormalizeDifficulty(bs[i].txTarget)
    ensures s.avgBlockDifficulty >= 1.0 && s.avgTxDifficulty >= 1.0
  {
    MeanAtLeastOne(s.blockDifficultySeries);
    MeanAtLeastOne(s.txDifficultySeries);
  }

  /**
   * The per-block averages of a window's figures are its transaction, input/output and byte
   * totals shared over the requested block count (not over the blocks the window holds).
   */
  lemma SummarizedAverages(s: ChainStats, bs: seq<Block>, blockCount: nat)
    requires SummarizesWindow(s, bs, blockCount)
    ensures blockCount >= 1
    ensures s.avgTxsPerBlock == TotalTxs(bs) as real / blockCount as real
    ensures s.avgIoPerBlock == TotalIo(bs) as real / blockCount as real
    ensures s.avgBlockSizeBytes == TotalSize(bs) as real / blockCount as real
  {
  }

  /**
   * A window's figures give the transactions of the window per second from its first to its
   * last block's timestamp, and none when those timestamps coincide.
   */
  lemma SummarizedThroughput(s: ChainStats, bs: seq<Block>, blockCount: nat)
    requires SummarizesWindow(s, bs, blockCount)
    ensures s.tps.None? <==> bs[|bs| - 1].timestamp == bs[0].timestamp
    ensures s.tps.Some? ==>
      s.tps.value == TotalTxs(bs) as real / (bs[|bs| - 1].timestamp - bs[0].timestamp) as real
  {
  }

  /**
   * A successful `calculate_chain_stats` reports on the window `[height - block_count, height)`:
   * its difficulty series hold one entry per block of it, one more than the block-time sample.
   */
  lemma DescribedWindow(s: ChainStats, p: Provider, blockCount: nat)
    requires Describes(s, p, blockCount)
    ensures |s.blockDifficultySeries| == |s.txDifficultySeries| == Min(blockCount, p.height)
    ensures |s.blockDifficultySeries| == s.blockTime.sampleSize + 1
  {
    BlockAveragesOutcome(p, blockCount);
    SummarizedSeries(s, Window(p, blockCount), blockCount);
  }

  /**
   * The ranked addresses are addresses of the window, each with its number of occurrences as an
   * input owner or output receiver; likewise the ranked miners with their number of credited blocks.
   */
  lemma RankedCounts(s: ChainStats, p: Provider, blockCount: nat)
    requires Describes(s, p, blockCount)
    ensures forall e :: e in s.topAddresses ==> e.1 == multiset(AddressIds(Window(p, blockCount)))[e.0] >= 1
    ensures forall e :: e in s.topMiners ==> e.1 == multiset(Miners(Window(p, blockCount)))[e.0] >= 1
  {
    var bs := Window(p, blockCount);
    AddressTableTotal(bs);
    MinerTableTotal(bs);
    forall e | e in s.topAddresses
      ensures e.1 == multiset(AddressIds(bs))[e.0] >= 1
    {
      AddressCount(bs, e.0);
    }
    forall e | e in s.topMiners
      ensures e.1 == multiset(Miners(bs))[e.0] >= 1
    {
      MinerCount(bs, e.0);
    }
  }
}
