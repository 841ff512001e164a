/** `BayerConfig` of `src/dithering/threshold/bayer_transform.rs`: the Bayer
    matrix of side `2^order`, the color map, and the periodic lookup of the
    matrix entry for a pixel. */
module BayerConfig {
  import Num
  import Grid
  import TiledRows
  import opened Outcome
  import opened Palette

  datatype Config = Config(matrix: seq<real>, colors: seq<ColorMapElement>, order: nat, sideMask: nat)
  {
    /** Side length of the square matrix. */
    function Side(): nat { Num.Pow2(order) }

    /** What `new` establishes: the matrix is `Side() x Side()` and the mask is `Side() - 1`. */
    predicate Valid()
    {
      |matrix| == Side() * Side() && sideMask == Side() - 1
    }
  }

  /** `BayerConfig::new`: panics unless the matrix has `(2^order)^2` entries. */
  function New(order: nat, matrix: seq<real>, colors: seq<ColorMapElement>): (r: Result<Config>)
    ensures r.Ok? <==> |matrix| == Num.Pow2(order) * Num.Pow2(order)
    ensures r.Ok? ==> (r.value.Valid() && r.value.order == order
                       && r.value.matrix == matrix && r.value.colors == colors)
  {
    var side := Num.Pow2(order);
    if side * side != |matrix| then Panic("bayer order does not match matrix buffer length")
    else Ok(Config(matrix, colors, order, side - 1))
  }

  /** `cache_bayer_complement`: each matrix entry subtracted from one. */
  function CacheBayerComplement(c: Config): (r: seq<real>)
    ensures |r| == |c.matrix|
    ensures forall i :: 0 <= i < |r| ==> r[i] + c.matrix[i] == 1.0
  {
    seq(|c.matrix|, i requires 0 <= i < |c.matrix| => 1.0 - c.matrix[i])
  }

  /** `bayer_idx`: `((y & mask) << order) + (x & mask)`. */
  function BayerIdx(c: Config, x: nat, y: nat): nat
  {
    Num.ShiftLeft(Num.BitAnd(y, c.sideMask), c.order) + Num.BitAnd(x, c.sideMask)
  }

  /** The masked lookup is the row-major index of `(x mod side, y mod side)`,
      and so always inside the matrix. */
  lemma BayerIdxIsModIndex(c: Config, x: nat, y: nat)
    requires c.Valid()
    ensures BayerIdx(c, x, y) == Grid.Index(x % c.Side(), y % c.Side(), c.Side())
    ensures BayerIdx(c, x, y) < |c.matrix|
  {
    Num.BitAndLowMask(x, c.order);
    Num.BitAndLowMask(y, c.order);
    Grid.IndexBelowSize(x % c.Side(), y % c.Side(), c.Side(), c.Side());
  }

  /** The lookup repeats every `side` pixels in both directions. */
  lemma BayerIdxPeriodic(c: Config, x: nat, y: nat)
    requires c.Valid()
    ensures BayerIdx(c, x + c.Side(), y) == BayerIdx(c, x, y)
    ensures BayerIdx(c, x, y + c.Side()) == BayerIdx(c, x, y)
  {
    BayerIdxIsModIndex(c, x, y);
    BayerIdxIsModIndex(c, x + c.Side(), y);
    BayerIdxIsModIndex(c, x, y + c.Side());
    ModShift(x, c.Side());
    ModShift(y, c.Side());
  }

  lemma ModShift(v: nat, d: nat)
    requires d > 0
    ensures (v + d) % d == v % d
  {
    Num.DivModUnique(v + d, d, v / d + 1, v % d);
  }

  /** The threshold a pixel is compared against: the complement of its matrix entry. */
  function Threshold(c: Config, x: nat, y: nat): real
    requires c.Valid()
  {
    BayerIdxIsModIndex(c, x, y);
    1.0 - c.matrix[BayerIdx(c, x, y)]
  }

  /** `tiled` holds `side` rows of `width` thresholds: the threshold of pixel
      `(x, y)` of any image `width` wide is found at row `y mod side`, column `x`. */
  predicate IsTiledPattern(c: Config, width: nat, tiled: seq<real>)
    requires c.Valid()
  {
    |tiled| == c.Side() * width &&
    forall y: nat, x: nat :: y < c.Side() && x < width ==>
      Grid.Index(x, y, width) < |tiled| && tiled[Grid.Index(x, y, width)] == Threshold(c, x, y)
  }

  /** `cache_tiled_pattern`. */
  method CacheTiledPattern(c: Config, width: nat) returns (tiled: seq<real>)
    requires c.Valid()
    ensures IsTiledPattern(c, width, tiled)
  {
    ghost var calls;
    tiled, calls := TiledRows.PrecomputeTiledRows(c.Side(), width, (x: nat, y: nat, i: nat) => Threshold(c, x, y));
  }

  /** Row `y mod side` of the pattern is the threshold row of every image row `y`. */
  lemma TiledPatternRow(c: Config, width: nat, tiled: seq<real>, x: nat, y: nat)
    requires c.Valid() && IsTiledPattern(c, width, tiled) && x < width
    ensures Grid.Index(x, y % c.Side(), width) < |tiled|
    ensures tiled[Grid.Index(x, y % c.Side(), width)] == Threshold(c, x, y)
  {
    var s := c.Side();
    var row := y % s;
    assert row < s;
    assert tiled[Grid.Index(x, row, width)] == Threshold(c, x, row);
    Num.DivModUnique(row, s, 0, row);
    BayerIdxIsModIndex(c, x, y);
    BayerIdxIsModIndex(c, x, row);
  }
}
