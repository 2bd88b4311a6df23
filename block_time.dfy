/**
 * `calculate_block_averages` of src/averages.rs: the timestamps of the last `block_count`
 * blocks, their consecutive differences, and the mean, population variance, median, minimum and
 * maximum of those differences. Timestamps are whole seconds, so the differences are integers
 * and the statistics are exact rationals.
 */
module BlockTime {
  import opened Wrappers
  import opened Blocks
  import Sorting

  /**
   * `BlockAverages`. The standard deviation is the square root of `variance`; the square root
   * itself is not modelled.
   */
  datatype BlockAverages = BlockAverages(
    average: real,
    variance: real,
    median: real,
    min: int,
    max: int,
    sampleSize: nat)

  /** `timestamps.windows(2).map(|w| w[1] - w[0])`. */
  function Deltas(ts: seq<int>): (d: seq<int>)
    ensures |d| == if |ts| == 0 then 0 else |ts| - 1
    ensures forall i :: 0 <= i < |d| ==> d[i] == ts[i + 1] - ts[i]
  {
    if |ts| < 2 then [] else seq(|ts| - 1, i requires 0 <= i < |ts| - 1 => ts[i + 1] - ts[i])
  }

  function Sum(s: seq<int>): int
  {
    if s == [] then 0 else Sum(s[..|s| - 1]) + s[|s| - 1]
  }

  /** The deltas telescope: together they span from the first timestamp to the last. */
  lemma {:induction false} DeltasTelescope(ts: seq<int>)
    requires |ts| >= 1
    ensures Sum(Deltas(ts)) == ts[|ts| - 1] - ts[0]
  {
    if |ts| >= 2 {
      var init := ts[..|ts| - 1];
      DeltasTelescope(init);
      DeltasSnoc(ts);
      var d := Deltas(ts);
      assert Sum(d) == Sum(d[..|d| - 1]) + d[|d| - 1];
    }
  }

  /** One more timestamp adds one delta at the end. */
  lemma DeltasSnoc(ts: seq<int>)
    requires |ts| >= 2
    ensures Deltas(ts)[..|ts| - 2] == Deltas(ts[..|ts| - 1])
  {
    var init := ts[..|ts| - 1];
    assert forall i :: 0 <= i < |ts| - 2 ==> Deltas(ts)[i] == Deltas(init)[i];
  }

  /** Every element in `[lo, hi]` puts the sum in `[|s| * lo, |s| * hi]`. */
  lemma {:induction false} SumBounds(s: seq<int>, lo: int, hi: int)
    requires forall i :: 0 <= i < |s| ==> lo <= s[i] <= hi
    ensures |s| * lo <= Sum(s) <= |s| * hi
  {
    if s != [] {
      SumBounds(s[..|s| - 1], lo, hi);
      assert |s| * lo == (|s| - 1) * lo + lo;
      assert |s| * hi == (|s| - 1) * hi + hi;
    }
  }

  /** `deltas.iter().sum::<f64>() / count`. */
  function Mean(d: seq<int>): real
    requires |d| > 0
  {
    Sum(d) as real / |d| as real
  }

  /** The sum of the squared deviations of `d` from `mu`. */
  function SquaredDeviations(d: seq<int>, mu: real): (r: real)
    ensures r >= 0.0
  {
    if d == [] then 0.0
    else
      var x := d[|d| - 1] as real - mu;
      SquaredDeviations(d[..|d| - 1], mu) + x * x
  }

  /** The population variance: squared deviations from the mean, divided by the count. */
  function Variance(d: seq<int>): (v: real)
    requires |d| > 0
    ensures v >= 0.0
  {
    SquaredDeviations(d, Mean(d)) / |d| as real
  }

  /** Ascending order: `SortedBy` with each value as its own key. */
  ghost predicate Sorted(s: seq<int>)
  {
    Sorting.SortedBy(s, (x: int) => x)
  }

  /** Prepending an element no larger than the head keeps a sequence sorted. */
  lemma SortedCons(a: int, t: seq<int>)
    requires Sorted(t) && (t == [] || a <= t[0])
    ensures Sorted([a] + t)
  {
    var r := [a] + t;
    forall i, j | 0 <= i < j < |r|
      ensures r[i] <= r[j]
    {
      if i > 0 {
        assert r[i] == t[i - 1] && r[j] == t[j - 1];
      } else {
        assert r[j] == t[j - 1] && t[0] <= t[j - 1];
      }
    }
  }

  function Insert(x: int, s: seq<int>): (r: seq<int>)
    requires Sorted(s)
    ensures |r| == |s| + 1 && (r[0] == x || (s != [] && r[0] == s[0]))
    ensures Sorted(r) && multiset(r) == multiset(s) + multiset{x}
  {
    if s == [] || x <= s[0] then
      SortedCons(x, s);
      [x] + s
    else
      var tail := s[1..];
      assert s == [s[0]] + tail;
      assert Sorted(tail) by {
        forall i, j | 0 <= i < j < |tail|
          ensures tail[i] <= tail[j]
        {
          assert tail[i] == s[i + 1] && tail[j] == s[j + 1];
        }
      }
      var rest := Insert(x, tail);
      assert tail != [] ==> s[0] <= tail[0];
      SortedCons(s[0], rest);
      [s[0]] + rest
  }

  /** Insertion sort: the reference for the sorted copy of the deltas. */
  function SortAscending(s: seq<int>): (r: seq<int>)
    ensures Sorted(r) && multiset(r) == multiset(s)
  {
    if s == [] then []
    else
      assert s == [s[0]] + s[1..];
      Insert(s[0], SortAscending(s[1..]))
  }

  /** A sorted permutation is unique: any sort of `s` yields `SortAscending(s)`. */
  lemma {:induction false} SortedPermutationsEqual(a: seq<int>, b: seq<int>)
    requires Sorted(a) && Sorted(b) && multiset(a) == multiset(b)
    ensures a == b
  {
    assert |a| == |b| by {
      assert |multiset(a)| == |multiset(b)|;
    }
    if a != [] {
      SameHead(a, b);
      SameTail(a, b);
      SortedTail(a);
      SortedTail(b);
      SortedPermutationsEqual(a[1..], b[1..]);
      assert a == [a[0]] + a[1..] && b == [b[0]] + b[1..];
    }
  }

  /** Sorted permutations of each other start alike. */
  lemma SameHead(a: seq<int>, b: seq<int>)
    requires Sorted(a) && Sorted(b) && multiset(a) == multiset(b) && a != []
    ensures b != [] && a[0] == b[0]
  {
    assert a[0] in multiset(b);
    HeadIsLeast(b, a[0]);
    HeadIsLeast(a, b[0]);
  }

  /** Permutations of each other with the same head have permuted tails. */
  lemma SameTail(a: seq<int>, b: seq<int>)
    requires a != [] && b != [] && a[0] == b[0] && multiset(a) == multiset(b)
    ensures multiset(a[1..]) == multiset(b[1..])
  {
    assert a == [a[0]] + a[1..] && b == [b[0]] + b[1..];
    assert multiset(a) == multiset{a[0]} + multiset(a[1..]);
    assert multiset(b) == multiset{b[0]} + multiset(b[1..]);
    assert multiset(a[1..]) == multiset(a) - multiset{a[0]};
    assert multiset(b[1..]) == multiset(b) - multiset{b[0]};
  }

  /** The head of a sorted sequence is its least element. */
  lemma HeadIsLeast(s: seq<int>, x: int)
    requires Sorted(s) && x in multiset(s)
    ensures s != [] && s[0] <= x
  {
    var i :| 0 <= i < |s| && s[i] == x;
  }

  lemma SortedTail(s: seq<int>)
    requires Sorted(s) && s != []
    ensures Sorted(s[1..])
  {
    forall i, j | 0 <= i < j < |s| - 1
      ensures s[1..][i] <= s[1..][j]
    {
      assert s[1..][i] == s[i + 1] && s[1..][j] == s[j + 1];
    }
  }

  /** The median of a sorted sample: the middle element, or the mean of the two middle ones. */
  function MedianOfSorted(s: seq<int>): real
    requires |s| >= 1
  {
    if |s| % 2 == 0 then
      var mid := |s| / 2;
      (s[mid - 1] + s[mid]) as real / 2.0
    else
      s[|s| / 2] as real
  }

  /** The statistics `calculate_block_averages` reports for the timestamps `ts`. */
  function StatsOf(ts: seq<int>): BlockAverages
    requires |ts| >= 2
  {
    var d := Deltas(ts);
    var sorted := SortAscending(d);
    BlockAverages(Mean(d), Variance(d), MedianOfSorted(sorted), sorted[0], sorted[|sorted| - 1], |d|)
  }

  /** What `calculate_block_averages(client, block_count)` returns for the node `p`. */
  function BlockAveragesOf(p: Provider, blockCount: nat): Result<BlockAverages>
  {
    if blockCount < 2 then Err(TooFewBlocksRequested)
    else
      var start := WindowStart(p.height, blockCount);
      match FirstMissingFrom(p, start)
      case Some(h) => Err(MissingBlock(h))
      case None =>
        var ts := Timestamps(Span(p, start, p.height));
        if |ts| < 2 then Err(NotEnoughBlocks) else Ok(StatsOf(ts))
  }

  /** `calculate_block_averages`: fetch the window's timestamps, then compute the statistics. */
  method CalculateBlockAverages(p: Provider, blockCount: nat) returns (r: Result<BlockAverages>)
    ensures r == BlockAveragesOf(p, blockCount)
  {
    if blockCount < 2 {
      return Err(TooFewBlocksRequested);
    }
    var start := WindowStart(p.height, blockCount);
    var fetched := FetchTimestamps(p, start);
    if fetched.Err? {
      return Err(fetched.error);
    }
    var timestamps := fetched.value;
    if |timestamps| < 2 {
      return Err(NotEnoughBlocks);
    }
    var deltas := Deltas(timestamps);
    var average := Mean(deltas);
    var variance := Variance(deltas);
    var sorted := SortedCopy(deltas);
    var median := MedianOfSorted(sorted[..]);
    r := Ok(BlockAverages(average, variance, median, sorted[0], sorted[sorted.Length - 1], sorted.Length));
  }

  /**
   * The `for h in start..height` loop: the timestamps of the blocks at `[start, p.height)`,
   * or the first height without a block.
   */
  method FetchTimestamps(p: Provider, start: nat) returns (r: Result<seq<int>>)
    requires start <= p.height
    ensures r.Err? <==> FirstMissingFrom(p, start).Some?
    ensures r.Err? ==> r.error == MissingBlock(FirstMissingFrom(p, start).value)
    ensures r.Ok? ==> PresentBetween(p, start, p.height) && r.value == Timestamps(Span(p, start, p.height))
  {
    var timestamps: seq<int> := [];
    var h := start;
    while h < p.height
      invariant start <= h <= p.height
      invariant PresentBetween(p, start, h)
      invariant timestamps == Timestamps(Span(p, start, h))
    {
      var block := GetBlockByHeight(p, h);
      if block.None? {
        FirstMissingIs(p, start, h);
        return Err(MissingBlock(h));
      }
      timestamps := timestamps + [block.value.timestamp];
      h := h + 1;
    }
    return Ok(timestamps);
  }

  /** A height without a block, above a run of present ones, is the first missing height. */
  lemma {:induction false} FirstMissingIs(p: Provider, from: nat, h: nat)
    requires from <= h < p.height && h !in p.blocks && PresentBetween(p, from, h)
    ensures FirstMissingFrom(p, from) == Some(h)
    decreases h - from
  {
    if from < h {
      FirstMissingIs(p, from + 1, h);
    }
  }

  /** `deltas.sort_by(..)`: an ascending copy, which is the reference sort of the deltas. */
  method SortedCopy(deltas: seq<int>) returns (sorted: array<int>)
    ensures fresh(sorted)
    ensures sorted[..] == SortAscending(deltas)
  {
    sorted := new int[|deltas|](i requires 0 <= i < |deltas| => deltas[i]);
    assert sorted[..] == deltas;
    Sorting.SortBy(sorted, (x: int) => x);
    SortedPermutationsEqual(sorted[..], SortAscending(deltas));
  }

  /**
   * The failure cases: fewer than 2 blocks requested, the lowest height of the window without a
   * block, or a window of fewer than 2 blocks because the chain is shorter than 2. On success
   * the sample holds one delta fewer than the window holds blocks.
   */
  lemma BlockAveragesOutcome(p: Provider, blockCount: nat)
    ensures BlockAveragesOf(p, blockCount) == Err(TooFewBlocksRequested) <==> blockCount < 2
    ensures blockCount >= 2 && FirstMissingFrom(p, WindowStart(p.height, blockCount)).Some? ==>
      BlockAveragesOf(p, blockCount) == Err(MissingBlock(FirstMissingFrom(p, WindowStart(p.height, blockCount)).value))
    ensures BlockAveragesOf(p, blockCount).Ok? <==>
      blockCount >= 2 && PresentBetween(p, WindowStart(p.height, blockCount), p.height) && p.height >= 2
    ensures BlockAveragesOf(p, blockCount).Ok? ==>
      BlockAveragesOf(p, blockCount).value.sampleSize == Min(blockCount, p.height) - 1
  {
    if blockCount >= 2 && FirstMissingFrom(p, WindowStart(p.height, blockCount)).None? {
      var ts := Timestamps(Span(p, WindowStart(p.height, blockCount), p.height));
      assert |ts| == Min(blockCount, p.height);
    }
  }

  /**
   * The order facts of the statistics: every delta lies between `min` and `max`, both are
   * deltas, and the median and the average lie between them; the variance is not negative.
   */
  lemma StatsBounds(ts: seq<int>)
    requires |ts| >= 2
    ensures var r := StatsOf(ts); var d := Deltas(ts);
      && r.sampleSize == |ts| - 1
      && (forall i :: 0 <= i < |d| ==> r.min <= d[i] <= r.max)
      && r.min in d && r.max in d
      && r.min as real <= r.median <= r.max as real
      && r.min as real <= r.average <= r.max as real
      && r.variance >= 0.0
  {
    SampleBounds(Deltas(ts));
  }

  /** The order facts for a sample `d` and its sorted copy. */
  lemma SampleBounds(d: seq<int>)
    requires |d| >= 1
    ensures var s := SortAscending(d);
      && |s| == |d|
      && (forall i :: 0 <= i < |d| ==> s[0] <= d[i] <= s[|s| - 1])
      && s[0] in d && s[|s| - 1] in d
      && s[0] as real <= MedianOfSorted(s) <= s[|s| - 1] as real
      && s[0] as real <= Mean(d) <= s[|s| - 1] as real
  {
    var s := SortAscending(d);
    assert |s| == |d| by {
      assert |multiset(s)| == |multiset(d)|;
    }
    forall i | 0 <= i < |d|
      ensures s[0] <= d[i] <= s[|s| - 1]
    {
      assert d[i] in multiset(s);
    }
    assert s[0] in multiset(d) && s[|s| - 1] in multiset(d);
    MedianBounds(s);
    SumBounds(d, s[0], s[|s| - 1]);
    MeanBounds(Sum(d), |d|, s[0], s[|s| - 1]);
  }

  lemma MedianBounds(s: seq<int>)
    requires |s| >= 1 && Sorted(s)
    ensures s[0] as real <= MedianOfSorted(s) <= s[|s| - 1] as real
  {
  }

  lemma MeanBounds(sum: int, n: nat, lo: int, hi: int)
    requires n > 0 && n * lo <= sum <= n * hi
    ensures lo as real <= sum as real / n as real <= hi as real
  {
    assert (n * lo) as real == n as real * lo as real;
    assert (n * hi) as real == n as real * hi as real;
  }

  /** The average delta is the time from the first timestamp to the last over the count. */
  lemma AverageIsSpanOverCount(ts: seq<int>)
    requires |ts| >= 2
    ensures StatsOf(ts).average == (ts[|ts| - 1] - ts[0]) as real / (|ts| - 1) as real
  {
    var d := Deltas(ts);
    DeltasTelescope(ts);
    assert Mean(d) == (ts[|ts| - 1] - ts[0]) as real / (|ts| - 1) as real;
    assert StatsOf(ts).average == Mean(d);
  }

  /** The median of sorted `[1, 2, 3, 4]` is 2.5 and that of `[1, 2, 3]` is 2. */
  lemma MedianExamples()
    ensures MedianOfSorted([1, 2, 3, 4]) == 2.5
    ensures MedianOfSorted([1, 2, 3]) == 2.0
  {
  }

  /** Timestamps 100, 110, 125: average and median 12.5, min 10, max 15, variance 6.25. */
  lemma ThreeBlockExample()
    ensures StatsOf([100, 110, 125]) == BlockAverages(12.5, 6.25, 12.5, 10, 15, 2)
  {
    var d := Deltas([100, 110, 125]);
    assert d == [10, 15];
    TwoDeltaStats();
  }

  lemma TwoDeltaStats()
    ensures Mean([10, 15]) == 12.5 && Variance([10, 15]) == 6.25
    ensures SortAscending([10, 15]) == [10, 15]
  {
    TwoDeltaMean();
    TwoDeltaVariance();
    var d := [10, 15];
    SortedPermutationsEqual(SortAscending(d), d);
  }

  lemma TwoDeltaMean()
    ensures Mean([10, 15]) == 12.5
  {
    var d := [10, 15];
    assert d[..1] == [10] && [10][..0] == [];
    assert Sum(d) == 25;
  }

  lemma TwoDeltaVariance()
    ensures Variance([10, 15]) == 6.25
  {
    var d := [10, 15];
    TwoDeltaMean();
    assert d[..1] == [10] && [10][..0] == [];
    assert SquaredDeviations(d, 12.5) == 12.5;
  }
}
