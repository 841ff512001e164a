/** `ThresholdType::get_threshold` of `src/dithering/threshold/mod.rs`: the
    per-pixel threshold of the ordered dither, looked up in a Bayer matrix or
    the blue-noise tile by position modulo the table's side. The constant
    tables are parameters; the random draw of `Rand` is a parameter too. */
module ThresholdLookup {
  import Num
  import Grid
  import opened Outcome
  import opened Palette
  import BayerConfig

  datatype ThresholdType = Rand | Bayer0 | Bayer1 | Bayer2 | Bayer3 | BlueNoise

  /** The constant tables `BAYER0` to `BAYER3` and `BLUE_NOISE`. */
  datatype Tables = Tables(bayer0: seq<real>, bayer1: seq<real>, bayer2: seq<real>, bayer3: seq<real>,
                           blueNoise: seq<real>)
  {
    /** The tables' sizes: 2x2, 4x4, 8x8 and 16x16 Bayer matrices and a
        128x128 blue-noise tile. */
    predicate Standard()
    {
      |bayer0| == 4 && |bayer1| == 16 && |bayer2| == 64 && |bayer3| == 256 && |blueNoise| == 16384
    }
  }

  /** Side of the square table of a Bayer type (0 for the other types). */
  function BayerSide(t: ThresholdType): nat
  {
    match t
    case Bayer0 => 2
    case Bayer1 => 4
    case Bayer2 => 8
    case Bayer3 => 16
    case _ => 0
  }

  /** Order (log2 of the side) of a Bayer type's table. */
  function BayerOrder(t: ThresholdType): nat
  {
    match t
    case Bayer0 => 1
    case Bayer1 => 2
    case Bayer2 => 3
    case Bayer3 => 4
    case _ => 0
  }

  /** The table a Bayer type reads. */
  function BayerTable(t: ThresholdType, tables: Tables): seq<real>
  {
    match t
    case Bayer0 => tables.bayer0
    case Bayer1 => tables.bayer1
    case Bayer2 => tables.bayer2
    case Bayer3 => tables.bayer3
    case _ => []
  }

  predicate IsBayer(t: ThresholdType)
  {
    t.Bayer0? || t.Bayer1? || t.Bayer2? || t.Bayer3?
  }

  /** Side of the blue-noise tile. */
  const NoiseSide: nat := 128

  /** `(y % s) * s + x % s`: the row-major index of the position modulo `s`,
      always inside an `s` x `s` table. */
  function ModIndex(x: nat, y: nat, s: nat): (i: nat)
    requires s > 0
    ensures i < s * s
    ensures i == Grid.Index(x % s, y % s, s)
  {
    Grid.IndexBelowSize(x % s, y % s, s, s);
    y % s * s + x % s
  }

  /** `get_threshold(x, y)`; `draw` stands for the random number `Rand` draws. */
  function GetThreshold(t: ThresholdType, tables: Tables, x: nat, y: nat, draw: real): real
    requires tables.Standard()
  {
    match t
    case Rand => draw
    case Bayer0 => 1.0 - tables.bayer0[ModIndex(x, y, 2)]
    case Bayer1 => 1.0 - tables.bayer1[ModIndex(x, y, 4)]
    case Bayer2 => 1.0 - tables.bayer2[ModIndex(x, y, 8)]
    case Bayer3 => 1.0 - tables.bayer3[ModIndex(x, y, 16)]
    case BlueNoise => tables.blueNoise[ModIndex(x, y, NoiseSide)]
  }

  /** Each Bayer type's side is `2^order`, and its table has `side^2` entries. */
  lemma BayerShape(t: ThresholdType, tables: Tables)
    requires IsBayer(t) && tables.Standard()
    ensures BayerSide(t) == Num.Pow2(BayerOrder(t))
    ensures |BayerTable(t, tables)| == BayerSide(t) * BayerSide(t)
  {
    assert Num.Pow2(1) == 2 && Num.Pow2(2) == 4 && Num.Pow2(3) == 8 && Num.Pow2(4) == 16;
  }

  /** A Bayer arm gives `1 - matrix[bayer_idx(x, y)]` of the configuration
      built from the same table at order `log2 s`, whatever the random draw. */
  lemma BayerLookupIsConfigThreshold(t: ThresholdType, tables: Tables, colors: seq<ColorMapElement>,
                                     x: nat, y: nat, draw: real)
    requires IsBayer(t) && tables.Standard()
    ensures BayerConfig.New(BayerOrder(t), BayerTable(t, tables), colors).Ok?
    ensures GetThreshold(t, tables, x, y, draw)
      == BayerConfig.Threshold(BayerConfig.New(BayerOrder(t), BayerTable(t, tables), colors).value, x, y)
  {
    BayerShape(t, tables);
    var c := BayerConfig.New(BayerOrder(t), BayerTable(t, tables), colors).value;
    BayerConfig.BayerIdxIsModIndex(c, x, y);
  }

  /** Bayer and blue-noise thresholds repeat with the table's side in both
      directions. */
  lemma LookupPeriodic(t: ThresholdType, tables: Tables, x: nat, y: nat, draw: real)
    requires !t.Rand? && tables.Standard()
    ensures var s := if t.BlueNoise? then NoiseSide else BayerSide(t);
      GetThreshold(t, tables, x + s, y, draw) == GetThreshold(t, tables, x, y, draw) &&
      GetThreshold(t, tables, x, y + s, draw) == GetThreshold(t, tables, x, y, draw)
  {
    var s := if t.BlueNoise? then NoiseSide else BayerSide(t);
    BayerConfig.ModShift(x, s);
    BayerConfig.ModShift(y, s);
  }

  /** Only `Rand` uses the random draw. */
  lemma DrawIgnored(t: ThresholdType, tables: Tables, x: nat, y: nat, d: real, e: real)
    requires !t.Rand? && tables.Standard()
    ensures GetThreshold(t, tables, x, y, d) == GetThreshold(t, tables, x, y, e)
  {
  }
}
