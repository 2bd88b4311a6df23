/**
 * The per-row arithmetic of `plot_difficulties` in src/averages.rs: each difficulty is scaled
 * against its own series' maximum to a bar of at most the column width, and the bar is drawn as
 * whole block glyphs followed by one glyph of 0 to 8 eighths. Floating-point division, `min`,
 * `floor`, `round` and the saturating `as usize` cast are written out over exact reals, with the
 * not-a-number and minus-infinity cases that the division by a zero maximum produces.
 */
module Plot {
  import opened Wrappers

  /** `blocks_chars`: no glyph, then one to eight eighths of a cell. */
  const Glyphs: seq<string> := ["", "\U{258F}", "\U{258E}", "\U{258D}", "\U{258C}", "\U{258B}", "\U{258A}", "\U{2589}", "\U{2588}"]

  /** The whole-cell glyph repeated for the full part of a bar. */
  const FullBlock: char := '\U{2588}'

  /** The terminal width assumed when `term_size::dimensions()` reports none. */
  const DefaultTermWidth: nat := 80

  /** The columns taken by the height column and the two separators (`7 + 3 + 3`). */
  const Reserved: nat := 13

  /**
   * `bar_max_width`: half of what the height column and separators leave of the terminal. The
   * `usize` subtraction underflows below `Reserved` columns, so the width must be at least that.
   */
  function ColumnWidth(termWidth: Option<nat>): (w: nat)
    requires termWidth.Some? ==> termWidth.value >= Reserved
    ensures termWidth.None? ==> w == 33
    ensures termWidth.Some? ==> Reserved + 2 * w <= termWidth.value < Reserved + 2 * w + 2
  {
    var t := match termWidth case Some(t) => t case None => DefaultTermWidth;
    (t - Reserved) / 2
  }

  /** `f64::max` on numbers. */
  function Max(a: real, b: real): real
  {
    if a >= b then a else b
  }

  /**
   * `series.iter().cloned().fold(0.0, f64::max)`: the largest value of the series, and 0 when
   * every value is below 0 or the series is empty.
   */
  function SeriesMax(s: seq<real>): (m: real)
    ensures m >= 0.0
    ensures forall i :: 0 <= i < |s| ==> s[i] <= m
    ensures m == 0.0 || m in s
  {
    if s == [] then 0.0
    else
      var m := SeriesMax(s[..|s| - 1]);
      assert forall i :: 0 <= i < |s| - 1 ==> s[..|s| - 1][i] == s[i];
      assert m in s[..|s| - 1] ==> m in s;
      Max(m, s[|s| - 1])
  }

  /** A bar's length in cells before it is cut into glyphs: a number, or minus infinity. */
  datatype Scaled = Cells(x: real) | MinusInfinity

  /**
   * `((v / max) * width as f64).min(width as f64)` for a value `v` of a series whose fold
   * maximum is `max`. With a zero maximum the quotient is not a number when `v` is 0, and
   * `f64::min` then returns the width; a negative `v` gives minus infinity, unless the width is
   * 0, where the product is again not a number.
   */
  function Scale(v: real, max: real, width: nat): (s: Scaled)
    requires v <= max && max >= 0.0
  {
    var w := width as real;
    if max > 0.0 then
      var x := v / max * w;
      Cells(if x <= w then x else w)
    else if v == 0.0 then Cells(w)
    else if width == 0 then Cells(0.0)
    else MinusInfinity
  }

  /**
   * A scaled length never exceeds the width; it is minus infinity only for a negative value in
   * a series whose fold maximum is 0 and a column of at least one cell; and a value from 0 up
   * scales to a length from 0 up.
   */
  lemma ScaleBounds(v: real, max: real, width: nat)
    requires v <= max && max >= 0.0
    ensures Scale(v, max, width).Cells? ==> Scale(v, max, width).x <= width as real
    ensures Scale(v, max, width).MinusInfinity? <==> max == 0.0 && v < 0.0 && width > 0
    ensures v >= 0.0 ==> Scale(v, max, width).Cells? && Scale(v, max, width).x >= 0.0
  {
    if max > 0.0 && v >= 0.0 {
      assert v / max >= 0.0;
      assert v / max * width as real >= 0.0;
    }
  }

  /** `x as usize` for a float: truncation toward zero, saturating at 0. */
  function ToUsize(x: real): (n: nat)
    ensures x <= 0.0 ==> n == 0
    ensures x > 0.0 ==> n as real <= x < n as real + 1.0
  {
    if x <= 0.0 then 0 else x.Floor
  }

  /** `f64::round`: the nearest integer, halfway cases away from zero. */
  function Round(x: real): (r: int)
    ensures x >= 0.0 ==> r as real - 0.5 <= x < r as real + 0.5
    ensures x < 0.0 ==> r as real - 0.5 < x <= r as real + 0.5
  {
    if x >= 0.0 then (x + 0.5).Floor else -((0.5 - x).Floor)
  }

  /** A bar: `full` whole cells, then the glyph of `partial` eighths. */
  datatype Bar = Bar(full: nat, partial: nat)

  /**
   * `full = scale.floor() as usize` and `partial = ((scale - full as f64) * 8.0).round() as usize`;
   * minus infinity floors and rounds to itself, which the cast saturates to 0.
   */
  function BarOf(s: Scaled): (b: Bar)
    ensures s.MinusInfinity? || s.x < 0.0 ==> b == Bar(0, 0)
    ensures s.Cells? && s.x >= 0.0 ==> b.full == s.x.Floor
  {
    match s
    case MinusInfinity => Bar(0, 0)
    case Cells(x) =>
      var full := ToUsize(x.Floor as real);
      Bar(full, ToUsize(Round((x - full as real) * 8.0) as real))
  }

  /** The bar of value `v` in a series with fold maximum `max`, in a column `width` cells wide. */
  function BarFor(v: real, max: real, width: nat): Bar
    requires v <= max && max >= 0.0
  {
    BarOf(Scale(v, max, width))
  }

  /**
   * Every bar indexes the 9-entry glyph table and fits its column: the whole cells, plus one for
   * a non-empty partial glyph, are at most the width.
   */
  lemma BarFits(v: real, max: real, width: nat)
    requires v <= max && max >= 0.0
    ensures BarFor(v, max, width).partial < |Glyphs|
    ensures BarFor(v, max, width).full + (if BarFor(v, max, width).partial > 0 then 1 else 0) <= width
  {
    var s := Scale(v, max, width);
    if s.Cells? {
      var x := s.x;
      var w := width as real;
      assert x <= w;
      if x < 0.0 {
        assert x.Floor < 0;
        NegativeRound(x * 8.0);
      } else {
        var full := x.Floor;
        var frac := x - full as real;
        assert 0.0 <= frac < 1.0;
        assert Round(frac * 8.0) == (frac * 8.0 + 0.5).Floor;
        assert full <= width;
        if full == width {
          assert frac == 0.0;
        }
      }
    }
  }

  lemma NegativeRound(y: real)
    requires y < 0.0
    ensures Round(y) <= 0
  {
  }

  /**
   * Between 0 and the maximum, a bar is the scaled value to within half an eighth of a cell:
   * the whole cells are its floor, and the eighths its rounded remainder.
   */
  lemma BarApproximatesScale(v: real, max: real, width: nat)
    requires 0.0 <= v <= max && max > 0.0
    ensures Scale(v, max, width).Cells? && 0.0 <= Scale(v, max, width).x <= width as real
    ensures var x := Scale(v, max, width).x; var b := BarFor(v, max, width);
      && b.full == x.Floor
      && (8 * b.full + b.partial) as real - 0.5 <= 8.0 * x < (8 * b.full + b.partial) as real + 0.5
  {
    ScaleBounds(v, max, width);
    var x := Scale(v, max, width).x;
    var full := x.Floor;
    var y := (x - full as real) * 8.0;
    assert 0.0 <= y;
    assert Round(y) == (y + 0.5).Floor;
  }

  /** The largest value of a series, and every value of an all-zero series, spans the whole column. */
  lemma MaximumFillsColumn(v: real, max: real, width: nat)
    requires v == max && max >= 0.0
    ensures BarFor(v, max, width) == Bar(width, 0)
  {
    if max > 0.0 {
      assert v / max == 1.0;
    }
  }

  /** `str::repeat` for a one-character string. */
  function Repeat(c: char, n: nat): (t: string)
    ensures |t| == n && forall i :: 0 <= i < n ==> t[i] == c
  {
    if n == 0 then [] else Repeat(c, n - 1) + [c]
  }

  /** The text of a bar: `"█".repeat(full)` followed by the partial glyph. */
  function BarText(b: Bar): (t: string)
    requires b.partial < |Glyphs|
    ensures |t| == b.full + (if b.partial > 0 then 1 else 0)
  {
    Repeat(FullBlock, b.full) + Glyphs[b.partial]
  }

  /** One printed row: the block height, then the block and transaction difficulty bars. */
  datatype Row = Row(height: nat, blockBar: string, txBar: string)

  /** The bar text of value `v` in a series with fold maximum `max`. */
  function BarTextFor(v: real, max: real, width: nat): (t: string)
    requires v <= max && max >= 0.0
    ensures |t| <= width
  {
    BarFits(v, max, width);
    BarText(BarFor(v, max, width))
  }

  /** The row of height `h`, whose values are `b` and `t` in series with fold maxima `maxBlock` and `maxTx`. */
  function RowFor(h: nat, b: real, t: real, maxBlock: real, maxTx: real, width: nat): (r: Row)
    requires b <= maxBlock && maxBlock >= 0.0 && t <= maxTx && maxTx >= 0.0
    ensures r.height == h && |r.blockBar| <= width && |r.txBar| <= width
  {
    Row(h, BarTextFor(b, maxBlock, width), BarTextFor(t, maxTx, width))
  }

  /** `[f(0), .., f(n - 1)]`, built from the left as the row loop builds its output. */
  function Tabulate<T>(n: nat, f: nat -> T): (s: seq<T>)
    ensures |s| == n
  {
    if n == 0 then [] else Tabulate(n - 1, f) + [f(n - 1)]
  }

  /** Entry `i` of a tabulation is `f(i)`. */
  lemma {:induction false} TabulateAt<T>(n: nat, f: nat -> T, i: nat)
    requires i < n
    ensures Tabulate(n, f)[i] == f(i)
  {
    if i < n - 1 {
      TabulateAt(n - 1, f, i);
    }
  }

  /**
   * The row loop of `plot_difficulties`, over the heights and the two difficulty series indexed
   * alike (a series shorter than the heights would be indexed out of bounds). Each series is
   * scaled by its own maximum; each row holds the height and two bars no wider than the column.
   */
  method PlotRows(heights: seq<nat>, blockDiff: seq<real>, txDiff: seq<real>, termWidth: Option<nat>)
    returns (rows: seq<Row>)
    requires termWidth.Some? ==> termWidth.value >= Reserved
    requires |blockDiff| >= |heights| && |txDiff| >= |heights|
    ensures |rows| == |heights|
    ensures forall i :: 0 <= i < |rows| ==>
      rows[i] == RowFor(heights[i], blockDiff[i], txDiff[i], SeriesMax(blockDiff), SeriesMax(txDiff), ColumnWidth(termWidth))
  {
    var width := ColumnWidth(termWidth);
    var maxBlock := SeriesMax(blockDiff);
    var maxTx := SeriesMax(txDiff);
    ghost var rowOf := (j: nat) =>
      if j < |heights| then RowFor(heights[j], blockDiff[j], txDiff[j], maxBlock, maxTx, width)
      else Row(0, [], []);
    rows := [];
    for i := 0 to |heights|
      invariant rows == Tabulate(i, rowOf)
    {
      var row := RowFor(heights[i], blockDiff[i], txDiff[i], maxBlock, maxTx, width);
      rows := rows + [row];
    }
    forall i | 0 <= i < |heights|
      ensures rows[i] == RowFor(heights[i], blockDiff[i], txDiff[i], maxBlock, maxTx, width)
    {
      TabulateAt(|heights|, rowOf, i);
    }
  }

  /** The rows of the two-block example: the harder block fills the column, the other half of it. */
  lemma TwoRowExample()
    ensures BarFor(2.0, 2.0, 33) == Bar(33, 0)
    ensures BarFor(1.0, 2.0, 33) == Bar(16, 4)
    ensures BarFor(1.5, 2.0, 33) == Bar(24, 6)
  {
    MaximumFillsColumn(2.0, 2.0, 33);
    assert 1.0 / 2.0 * 33.0 == 16.5;
    assert 1.5 / 2.0 * 33.0 == 24.75;
  }

  /**
   * The series 1, 2, 4 on a 27-column terminal: a 7-cell column, and the first bar a quarter of
   * it, 1.75 cells, drawn as one whole cell and the six-eighths glyph.
   */
  lemma QuarterBarExample()
    ensures ColumnWidth(Some(27)) == 7
    ensures SeriesMax([1.0, 2.0, 4.0]) == 4.0
    ensures BarFor(1.0, 4.0, 7) == Bar(1, 6)
  {
    var s := [1.0, 2.0, 4.0];
    assert s[..2] == [1.0, 2.0] && s[..2][..1] == [1.0] && s[..2][..1][..0] == [];
    assert 1.0 / 4.0 * 7.0 == 1.75;
  }
}
