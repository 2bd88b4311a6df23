/**
 * The block records read by src/averages.rs and the node that serves them. The node is a
 * height plus a map from height to block: `get_height` and `get_block_by_height` are lookups
 * in it, and both passes of `calculate_chain_stats` read the same node.
 */
module Blocks {
  import opened Wrappers
  import opened Bytes

  /** A transaction: the owner identity of each input and the receiver identity of each output. */
  datatype Tx = Tx(inputs: seq<Id>, outputs: seq<Id>)

  /**
   * A block: its timestamp, its transactions, the block and transaction proof-of-work targets
   * of its metadata, and its serialized length in bytes.
   */
  datatype Block = Block(timestamp: int, txs: seq<Tx>, blockTarget: Bytes32, txTarget: Bytes32, size: nat)

  /** The node: the chain height and the blocks it can return. */
  datatype Provider = Provider(height: nat, blocks: map<nat, Block>)

  /** `client.get_block_by_height(h)`. */
  function GetBlockByHeight(p: Provider, h: nat): (b: Option<Block>)
    ensures b.Some? <==> h in p.blocks
    ensures b.Some? ==> b.value == p.blocks[h]
  {
    if h in p.blocks then Some(p.blocks[h]) else None
  }

  /** Why a statistics call fails; no partial result is returned with any of them. */
  datatype StatsError =
    | TooFewBlocksRequested   // "At least 2 blocks required"
    | MissingBlock(height: nat)   // "Block {} missing" / "Missing block {}"
    | NotEnoughBlocks   // "Not enough blocks"

  datatype Result<T> = Ok(value: T) | Err(error: StatsError)

  function Min(a: nat, b: nat): nat
  {
    if a <= b then a else b
  }

  /** `height.saturating_sub(block_count)`: the first height of the window. */
  function WindowStart(height: nat, count: nat): (start: nat)
    ensures start <= height
    ensures height - start == Min(count, height)
  {
    if count <= height then height - count else 0
  }

  /** Every height of `[from, to)` has a block. */
  ghost predicate PresentBetween(p: Provider, from: nat, to: nat)
  {
    forall h :: from <= h < to ==> h in p.blocks
  }

  /** The lowest height of `[from, p.height)` without a block, if any. */
  function FirstMissingFrom(p: Provider, from: nat): (r: Option<nat>)
    ensures r.None? <==> PresentBetween(p, from, p.height)
    ensures r.Some? ==> from <= r.value < p.height && r.value !in p.blocks
    ensures r.Some? ==> PresentBetween(p, from, r.value)
    decreases p.height - from
  {
    if from >= p.height then None
    else if from !in p.blocks then Some(from)
    else FirstMissingFrom(p, from + 1)
  }

  /** The blocks at heights `[from, to)`, in height order. */
  function Span(p: Provider, from: nat, to: nat): (bs: seq<Block>)
    requires from <= to && PresentBetween(p, from, to)
    ensures |bs| == to - from
    ensures forall i :: 0 <= i < |bs| ==> bs[i] == p.blocks[from + i]
  {
    seq(to - from, i requires 0 <= i < to - from => p.blocks[from + i])
  }

  /** Extending a span by one height appends that height's block. */
  lemma SpanStep(p: Provider, from: nat, to: nat)
    requires from <= to && PresentBetween(p, from, to + 1)
    ensures Span(p, from, to + 1) == Span(p, from, to) + [p.blocks[to]]
  {
  }

  /** The timestamps of `bs`, in order. */
  function Timestamps(bs: seq<Block>): (ts: seq<int>)
    ensures |ts| == |bs| && forall i :: 0 <= i < |bs| ==> ts[i] == bs[i].timestamp
  {
    seq(|bs|, i requires 0 <= i < |bs| => bs[i].timestamp)
  }
}
