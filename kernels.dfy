/** The per-pixel classification kernels of
    `src/dithering/threshold/multi_impl.rs`. Each kernel walks the output
    buffer row by row and writes to every pixel the color of the palette
    entry chosen by the threshold test `v < t * scale + offset`, where `v` is
    the input value of the pixel and `t` its threshold from the tiled cache.
    The three kernels differ in how they evaluate the test: one entry at a
    time, all entries at once as a lane mask, or the palette in chunks of
    `lanes` entries. The rows are processed in parallel in the source; here
    they are processed one after the other, and each row is written by a
    method that reads nothing of the output. */
module MultiImpl {
  import Num
  import Grid
  import opened Outcome
  import opened Pixel
  import opened Palette
  import opened BayerConfig

  /** The test of one palette entry (exact arithmetic on reals). */
  predicate Passes(e: ColorMapElement, v: real, t: real)
  {
    v < t * e.scale + e.offset
  }

  /** Indices of the palette entries whose test passes. */
  function PassSet(colors: seq<ColorMapElement>, v: real, t: real): set<nat>
  {
    set k: nat | k < |colors| && Passes(colors[k], v, t)
  }

  /** `simd_lt(..).to_bitmask()`: the set of lanes whose comparison holds. */
  function LaneMask(v: real, t: real, scale: seq<real>, offset: seq<real>): set<nat>
  {
    set l: nat | l < |scale| && l < |offset| && v < t * scale[l] + offset[l]
  }

  /** The least member of `s` in `[from, n)`, or `n` when there is none. */
  function FirstIn(s: set<nat>, n: nat, from: nat): (r: nat)
    requires from <= n
    ensures from <= r <= n
    ensures r < n ==> r in s
    ensures forall j :: from <= j < r ==> j !in s
    decreases n - from
  {
    if from == n then n
    else if from in s then from
    else FirstIn(s, n, from + 1)
  }

  /** Any index with the properties of `FirstIn`'s result is that result. */
  lemma {:induction false} FirstInUnique(s: set<nat>, n: nat, from: nat, r: nat)
    requires from <= r <= n
    requires r < n ==> r in s
    requires forall j :: from <= j < r ==> j !in s
    ensures FirstIn(s, n, from) == r
    decreases n - from
  {
    if from < r {
      FirstInUnique(s, n, from + 1, r);
    }
  }

  /** The palette entry every kernel selects: the first one whose test
      passes, or the last one when none does. */
  function FirstMatch(colors: seq<ColorMapElement>, v: real, t: real): (k: nat)
    requires |colors| > 0
    ensures k < |colors|
    ensures forall j :: 0 <= j < k ==> !Passes(colors[j], v, t)
    ensures Passes(colors[k], v, t) || k == |colors| - 1
  {
    var s := PassSet(colors, v, t);
    var f := FirstIn(s, |colors|, 0);
    assert forall j :: 0 <= j < |colors| ==> (j in s <==> Passes(colors[j], v, t));
    if f < |colors| then
      assert f in s;
      f
    else |colors| - 1
  }

  /** `scalar_par`'s choice for one pixel. */
  function ScalarColor(colors: seq<ColorMapElement>, v: real, t: real): RGB
    requires |colors| > 0
  {
    colors[FirstMatch(colors, v, t)].color
  }

  /** `fixed_par`'s choice for one pixel: palette entries are enumerated and
      entry `k` is taken when lane `k` of the comparison mask is set. */
  function FixedColor(colors: seq<ColorMapElement>, v: real, t: real, scale: seq<real>, offset: seq<real>): RGB
    requires |colors| > 0
  {
    var k := FirstIn(LaneMask(v, t, scale, offset), |colors|, 0);
    if k < |colors| then colors[k].color else colors[|colors| - 1].color
  }

  /** One chunk of the palette for the chunked kernel: `size` usable lanes
      and the scales and offsets of the chunk's entries. */
  datatype PassData = PassData(size: nat, scale: seq<real>, offset: seq<real>)

  /** How the chunked scan ends: at a palette index, after the last chunk
      without a hit, or at an index outside `pass_data` or the palette. */
  datatype Scan = Found(index: nat) | Exhausted | OutOfBounds

  /** `fit_par`'s scan for one pixel, from chunk `iter` on. */
  function FitScan(colors: seq<ColorMapElement>, v: real, t: real, passes: seq<PassData>,
                   lanes: nat, iters: nat, iter: nat): (r: Scan)
    ensures r.Found? ==> r.index < |colors|
    decreases iters - iter
  {
    if iter >= iters then Exhausted
    else if iter >= |passes| then OutOfBounds
    else
      var pool := passes[iter];
      var lane := FirstIn(LaneMask(v, t, pool.scale, pool.offset), pool.size, 0);
      if lane < pool.size then
        if iter * lanes + lane < |colors| then Found(iter * lanes + lane) else OutOfBounds
      else FitScan(colors, v, t, passes, lanes, iters, iter + 1)
  }

  /** `fit_par`'s result for one pixel; an out-of-range index panics. */
  function FitColor(colors: seq<ColorMapElement>, v: real, t: real, passes: seq<PassData>,
                    lanes: nat, iters: nat): Result<RGB>
    requires |colors| > 0
  {
    match FitScan(colors, v, t, passes, lanes, iters, 0)
    case Found(k) => Ok(colors[k].color)
    case Exhausted => Ok(colors[|colors| - 1].color)
    case OutOfBounds => Result.Panic("index out of bounds")
  }

  /** Two sets that agree on `[from, n)` have the same first member there. */
  lemma FirstInAgree(a: set<nat>, b: set<nat>, n: nat, from: nat)
    requires from <= n
    requires forall j :: from <= j < n ==> (j in a <==> j in b)
    ensures FirstIn(a, n, from) == FirstIn(b, n, from)
  {
    FirstInUnique(b, n, from, FirstIn(a, n, from));
  }

  /** A stretch without members can be skipped. */
  lemma FirstInSkip(s: set<nat>, n: nat, from: nat, to: nat)
    requires from <= to <= n
    requires forall j :: from <= j < to ==> j !in s
    ensures FirstIn(s, n, from) == FirstIn(s, n, to)
  {
    FirstInUnique(s, n, from, FirstIn(s, n, to));
  }

  /** With one lane per palette entry holding that entry's scale and offset,
      the lowest set lane is the first passing entry: `fixed_par` and
      `scalar_par` choose the same color. */
  lemma FixedColorIsScalar(colors: seq<ColorMapElement>, v: real, t: real, scale: seq<real>, offset: seq<real>)
    requires |colors| > 0 && |scale| >= |colors| && |offset| >= |colors|
    requires forall i :: 0 <= i < |colors| ==> scale[i] == colors[i].scale && offset[i] == colors[i].offset
    ensures FixedColor(colors, v, t, scale, offset) == ScalarColor(colors, v, t)
  {
    var mask, pass := LaneMask(v, t, scale, offset), PassSet(colors, v, t);
    forall j | 0 <= j < |colors|
      ensures j in mask <==> j in pass
    {
      assert j in mask <==> Passes(colors[j], v, t);
    }
    FirstInAgree(mask, pass, |colors|, 0);
  }

  /** `usize::div_ceil`. */
  function CeilDiv(n: nat, d: nat): nat
    requires d > 0
  {
    (n + d - 1) / d
  }

  /** Number of usable lanes of chunk `i` when `n` palette entries are split
      into chunks of `lanes`: a full chunk, except the last one, which holds
      the remainder (a full chunk when there is none). */
  function ChunkSize(n: nat, lanes: nat, i: nat): nat
    requires lanes > 0
  {
    if i == CeilDiv(n, lanes) - 1 then
      if n % lanes == 0 then lanes else n % lanes
    else lanes
  }

  /** The chunks tile the palette: each holds 1 to `lanes` entries, every
      chunk but the last is full, and the last one ends at the palette's end. */
  lemma ChunkLayout(n: nat, lanes: nat, i: nat)
    requires lanes > 0 && i < CeilDiv(n, lanes)
    ensures 1 <= ChunkSize(n, lanes, i) <= lanes
    ensures i * lanes + ChunkSize(n, lanes, i) <= n
    ensures i + 1 == CeilDiv(n, lanes) ==> i * lanes + ChunkSize(n, lanes, i) == n
    ensures i + 1 < CeilDiv(n, lanes) ==> ChunkSize(n, lanes, i) == lanes
  {
    var q, r := n / lanes, n % lanes;
    assert n == lanes * q + r;
    assert (i + 1) * lanes == i * lanes + lanes;
    if r == 0 {
      Num.DivModUnique(n + lanes - 1, lanes, q, lanes - 1);
      assert CeilDiv(n, lanes) == q;
      Num.MulMonotone(lanes, i + 1, q);
    } else {
      Num.DivModUnique(n + lanes - 1, lanes, q + 1, r - 1);
      assert CeilDiv(n, lanes) == q + 1;
      if i < q {
        Num.MulMonotone(lanes, i + 1, q);
      } else {
        assert i * lanes == q * lanes;
      }
    }
  }

  /** A non-empty palette needs at least one chunk. */
  lemma CeilDivPositive(n: nat, d: nat)
    requires d > 0 && n > 0
    ensures CeilDiv(n, d) > 0
  {
    Num.DivModUnique(n + d - 1, d, (n + d - 1) / d, (n + d - 1) % d);
    if (n + d - 1) / d == 0 {
      assert false;
    }
  }

  /** Chunk `i` of the pass data describes palette entries
      `[i * lanes, i * lanes + size)`, and its padding lanes hold zero. */
  predicate ChunkOf(p: PassData, colors: seq<ColorMapElement>, lanes: nat, i: nat)
    requires lanes > 0
  {
    p.size == ChunkSize(|colors|, lanes, i) && |p.scale| == lanes && |p.offset| == lanes &&
    i * lanes + p.size <= |colors| &&
    forall l :: 0 <= l < lanes ==>
      if l < p.size then p.scale[l] == colors[i * lanes + l].scale && p.offset[l] == colors[i * lanes + l].offset
      else p.scale[l] == 0.0 && p.offset[l] == 0.0
  }

  /** What `SimdFit::new` computes: one chunk per `lanes` palette entries. */
  predicate ChunksPalette(passes: seq<PassData>, colors: seq<ColorMapElement>, lanes: nat)
  {
    lanes > 0 && |passes| == CeilDiv(|colors|, lanes) &&
    forall i :: 0 <= i < |passes| ==> ChunkOf(passes[i], colors, lanes, i)
  }

  /** Palette index where chunk `iter` starts; the palette's end past the last chunk. */
  function ChunkStart(n: nat, lanes: nat, chunks: nat, iter: nat): nat
  {
    if iter < chunks then iter * lanes else n
  }

  function ScanOf(f: nat, n: nat): Scan
  {
    if f < n then Found(f) else Exhausted
  }

  /** Chunk `iter` starts at `iter * lanes`, holds `size` entries of the
      palette, and the next chunk (or the palette's end) follows it. */
  lemma ChunkBounds(colors: seq<ColorMapElement>, passes: seq<PassData>, lanes: nat, iter: nat)
    requires ChunksPalette(passes, colors, lanes) && iter < |passes|
    ensures iter * lanes + passes[iter].size <= |colors|
    ensures ChunkStart(|colors|, lanes, |passes|, iter + 1) == iter * lanes + passes[iter].size
  {
    assert ChunkOf(passes[iter], colors, lanes, iter);
    ChunkLayout(|colors|, lanes, iter);
    assert (iter + 1) * lanes == iter * lanes + lanes;
  }

  /** A usable lane of chunk `iter` is set exactly when its palette entry passes. */
  lemma ChunkMask(colors: seq<ColorMapElement>, v: real, t: real, pool: PassData, lanes: nat, iter: nat)
    requires lanes > 0 && ChunkOf(pool, colors, lanes, iter)
    ensures forall l :: 0 <= l < pool.size ==>
      (l in LaneMask(v, t, pool.scale, pool.offset) <==> iter * lanes + l in PassSet(colors, v, t))
  {
    forall l | 0 <= l < pool.size
      ensures l in LaneMask(v, t, pool.scale, pool.offset) <==> iter * lanes + l in PassSet(colors, v, t)
    {
      assert l in LaneMask(v, t, pool.scale, pool.offset) <==> Passes(colors[iter * lanes + l], v, t);
    }
  }

  /** One chunk of the scan: its lowest set usable lane is the first passing
      entry from the chunk's start when there is one; otherwise no entry of
      the chunk passes and the search continues at the next chunk's start. */
  lemma ChunkStep(colors: seq<ColorMapElement>, v: real, t: real,
                  passes: seq<PassData>, lanes: nat, iter: nat)
    requires ChunksPalette(passes, colors, lanes) && iter < |passes|
    ensures iter * lanes <= ChunkStart(|colors|, lanes, |passes|, iter + 1) <= |colors|
    ensures var pool := passes[iter];
            var lane := FirstIn(LaneMask(v, t, pool.scale, pool.offset), pool.size, 0);
            var pass := PassSet(colors, v, t);
            if lane < pool.size then
              iter * lanes + lane < |colors| &&
              FirstIn(pass, |colors|, iter * lanes) == iter * lanes + lane
            else
              FirstIn(pass, |colors|, iter * lanes)
                == FirstIn(pass, |colors|, ChunkStart(|colors|, lanes, |passes|, iter + 1))
  {
    var n, pass := |colors|, PassSet(colors, v, t);
    var pool := passes[iter];
    ChunkBounds(colors, passes, lanes, iter);
    ChunkMask(colors, v, t, pool, lanes, iter);
    var base, mask := iter * lanes, LaneMask(v, t, pool.scale, pool.offset);
    var lane := FirstIn(mask, pool.size, 0);
    forall j | base <= j < base + lane
      ensures j !in pass
    {
      assert j - base !in mask;
    }
    if lane < pool.size {
      FirstInUnique(pass, n, base, base + lane);
    } else {
      FirstInSkip(pass, n, base, base + pool.size);
    }
  }

  /** From chunk `iter` on, the chunked scan finds the first passing palette
      entry at or after the chunk's start, and never leaves the palette. */
  lemma {:induction false} FitScanAgrees(colors: seq<ColorMapElement>, v: real, t: real,
                                         passes: seq<PassData>, lanes: nat, iter: nat)
    requires ChunksPalette(passes, colors, lanes) && iter <= |passes|
    ensures ChunkStart(|colors|, lanes, |passes|, iter) <= |colors|
    ensures FitScan(colors, v, t, passes, lanes, |passes|, iter)
         == ScanOf(FirstIn(PassSet(colors, v, t), |colors|, ChunkStart(|colors|, lanes, |passes|, iter)), |colors|)
    decreases |passes| - iter
  {
    var pass := PassSet(colors, v, t);
    if iter < |passes| {
      ChunkStep(colors, v, t, passes, lanes, iter);
      var pool := passes[iter];
      var lane := FirstIn(LaneMask(v, t, pool.scale, pool.offset), pool.size, 0);
      assert ChunkStart(|colors|, lanes, |passes|, iter) == iter * lanes;
      if lane < pool.size {
        assert FitScan(colors, v, t, passes, lanes, |passes|, iter) == Found(iter * lanes + lane);
      } else {
        assert FitScan(colors, v, t, passes, lanes, |passes|, iter)
            == FitScan(colors, v, t, passes, lanes, |passes|, iter + 1);
        FitScanAgrees(colors, v, t, passes, lanes, iter + 1);
      }
    } else {
      assert FirstIn(pass, |colors|, |colors|) == |colors|;
    }
  }

  /** With the pass data of `SimdFit::new`, `fit_par` never indexes outside
      the palette and chooses the same color as `scalar_par`. */
  lemma FitColorIsScalar(colors: seq<ColorMapElement>, v: real, t: real, passes: seq<PassData>, lanes: nat)
    requires |colors| > 0 && ChunksPalette(passes, colors, lanes)
    ensures FitColor(colors, v, t, passes, lanes, |passes|) == Ok(ScalarColor(colors, v, t))
  {
    CeilDivPositive(|colors|, lanes);
    FitScanAgrees(colors, v, t, passes, lanes, 0);
  }

  /** The three kernels, with the data each one is given besides the image. */
  datatype Kernel =
    | ScalarKernel
    | FixedKernel(scale: seq<real>, offset: seq<real>)
    | FitKernel(passes: seq<PassData>, lanes: nat, iters: nat)

  /** The color a kernel writes for input value `v` and threshold `t`. */
  function PixelColor(k: Kernel, colors: seq<ColorMapElement>, v: real, t: real): Result<RGB>
    requires |colors| > 0
  {
    match k
    case ScalarKernel => Ok(ScalarColor(colors, v, t))
    case FixedKernel(scale, offset) => Ok(FixedColor(colors, v, t, scale, offset))
    case FitKernel(passes, lanes, iters) => FitColor(colors, v, t, passes, lanes, iters)
  }

  /** Inner loop of `scalar_par`: scan the palette, stop at the first passing entry. */
  method ClassifyScalar(colors: seq<ColorMapElement>, v: real, t: real) returns (color: RGB)
    requires |colors| > 0
    ensures color == ScalarColor(colors, v, t)
  {
    ghost var pass := PassSet(colors, v, t);
    color := colors[|colors| - 1].color;
    for k := 0 to |colors|
      invariant forall j :: 0 <= j < k ==> j !in pass
    {
      if v < t * colors[k].scale + colors[k].offset {
        assert k in pass;
        FirstInUnique(pass, |colors|, 0, k);
        color := colors[k].color;
        return;
      }
    }
    FirstInUnique(pass, |colors|, 0, |colors|);
  }

  /** Inner loop of `fixed_par`: compare all lanes at once, then take the
      palette entry of the lowest set lane. */
  method ClassifyFixed(colors: seq<ColorMapElement>, v: real, t: real, scale: seq<real>, offset: seq<real>)
    returns (color: RGB)
    requires |colors| > 0
    ensures color == FixedColor(colors, v, t, scale, offset)
  {
    var result := LaneMask(v, t, scale, offset);
    color := colors[|colors| - 1].color;
    for lane := 0 to |colors|
      invariant forall j :: 0 <= j < lane ==> j !in result
    {
      if lane in result {
        FirstInUnique(result, |colors|, 0, lane);
        color := colors[lane].color;
        return;
      }
    }
    FirstInUnique(result, |colors|, 0, |colors|);
  }

  /** Inner loops of `fit_par`: chunk by chunk, the lowest set usable lane
      selects palette entry `iter * lanes + lane`. */
  method ClassifyFit(colors: seq<ColorMapElement>, v: real, t: real, passes: seq<PassData>, lanes: nat, iters: nat)
    returns (r: Result<RGB>)
    requires |colors| > 0
    ensures r == FitColor(colors, v, t, passes, lanes, iters)
  {
    var color := colors[|colors| - 1].color;
    label compute: for iter := 0 to iters
      invariant FitScan(colors, v, t, passes, lanes, iters, 0) == FitScan(colors, v, t, passes, lanes, iters, iter)
    {
      if iter >= |passes| {
        assert FitScan(colors, v, t, passes, lanes, iters, iter) == OutOfBounds;
        return Result.Panic("index out of bounds");
      }
      var pool := passes[iter];
      var result := LaneMask(v, t, pool.scale, pool.offset);
      var colorOffset := iter * lanes;
      for lane := 0 to pool.size
        invariant forall j :: 0 <= j < lane ==> j !in result
      {
        if lane in result {
          FirstInUnique(result, pool.size, 0, lane);
          if colorOffset + lane >= |colors| {
            assert FitScan(colors, v, t, passes, lanes, iters, iter) == OutOfBounds;
            return Result.Panic("index out of bounds");
          }
          color := colors[colorOffset + lane].color;
          assert FitScan(colors, v, t, passes, lanes, iters, iter) == Found(colorOffset + lane);
          break compute;
        }
      }
      FirstInUnique(result, pool.size, 0, pool.size);
    }
    r := Ok(color);
  }

  method Classify(k: Kernel, colors: seq<ColorMapElement>, v: real, t: real) returns (r: Result<RGB>)
    requires |colors| > 0
    ensures r == PixelColor(k, colors, v, t)
  {
    match k {
      case ScalarKernel =>
        var color := ClassifyScalar(colors, v, t);
        r := Ok(color);
      case FixedKernel(scale, offset) =>
        var color := ClassifyFixed(colors, v, t, scale, offset);
        r := Ok(color);
      case FitKernel(passes, lanes, iters) =>
        r := ClassifyFit(colors, v, t, passes, lanes, iters);
    }
  }

  /** Start of the tiled row of image row `y` as the kernels compute it:
      `(y & side_mask) << order`, a multiple of the matrix side. */
  function SourceTiledRowStart(c: Config, y: nat): nat
  {
    Num.ShiftLeft(Num.BitAnd(y, c.sideMask), c.order)
  }

  /** Start of the tiled row of image row `y` in the cache that
      `cache_tiled_pattern` lays out: row `y mod side`, rows `width` apart. */
  function TiledRowStart(c: Config, y: nat, width: nat): nat
  {
    Num.BitAnd(y, c.sideMask) * width
  }

  /** Where a kernel looks for the tiled row of an image row: `SideApart` is
      the kernels as written, rows one matrix side apart; `WidthApart` is the
      layout `cache_tiled_pattern` produces, rows one image width apart. */
  datatype RowLayout = SideApart | WidthApart

  function RowStart(layout: RowLayout, c: Config, y: nat, width: nat): nat
  {
    match layout
    case SideApart => SourceTiledRowStart(c, y)
    case WidthApart => TiledRowStart(c, y, width)
  }

  /** The whole tiled row `tiled[start..start + width]` exists. */
  predicate SliceOk(layout: RowLayout, c: Config, tiled: seq<real>, width: nat, y: nat)
  {
    RowStart(layout, c, y, width) + width <= |tiled|
  }

  /** The color written to output slot `i` (row `i / width`, column
      `i % width`), or a panic when an index leaves `in_buf` or the cache. */
  function PixelResult(layout: RowLayout, k: Kernel, c: Config, inBuf: seq<real>, width: nat, tiled: seq<real>, i: nat)
    : Result<RGB>
    requires |c.colors| > 0 && width > 0
  {
    var start := RowStart(layout, c, i / width, width);
    if i >= |inBuf| || start + i % width >= |tiled| then Result.Panic("index out of bounds")
    else PixelColor(k, c.colors, inBuf[i], tiled[start + i % width])
  }

  /** The kernel runs to completion: the palette is non-empty, the width is
      not zero, every row's tiled slice exists and no pixel panics. */
  predicate KernelDefined(layout: RowLayout, k: Kernel, c: Config, inBuf: seq<real>, width: nat, n: nat,
                          tiled: seq<real>)
  {
    |c.colors| > 0 && width > 0 &&
    (forall y :: 0 <= y < CeilDiv(n, width) ==> SliceOk(layout, c, tiled, width, y)) &&
    (forall i :: 0 <= i < n ==> PixelResult(layout, k, c, inBuf, width, tiled, i).Ok?)
  }

  /** Pixel `x` of row `y` is output slot `y * width + x`: its result reads
      input slot `y * width + x` and column `x` of row `y`'s tiled slice. */
  lemma PixelAt(layout: RowLayout, k: Kernel, c: Config, inBuf: seq<real>, width: nat, tiled: seq<real>,
                y: nat, x: nat, start: nat)
    requires |c.colors| > 0 && x < width && start == y * width
    ensures PixelResult(layout, k, c, inBuf, width, tiled, start + x)
      == if start + x >= |inBuf| || RowStart(layout, c, y, width) + x >= |tiled| then Result.Panic("index out of bounds")
         else PixelColor(k, c.colors, inBuf[start + x], tiled[RowStart(layout, c, y, width) + x])
  {
    Grid.IndexSplits(x, y, width);
  }

  /** The body of the per-row closure: slices row `y`'s thresholds out of
      the cache, then fills output row `y`, which starts at slot `start` (the
      last row may be shorter than `width`), and touches no other slot. */
  method RunRow(layout: RowLayout, k: Kernel, c: Config, inBuf: seq<real>, width: nat, out: array<RGB>,
                tiled: seq<real>, y: nat, start: nat)
    returns (ok: bool)
    requires |c.colors| > 0 && width > 0 && start == y * width && start < out.Length
    modifies out
    ensures forall i :: 0 <= i < out.Length && !(start <= i < start + width) ==> out[i] == old(out[i])
    ensures ok <==> (SliceOk(layout, c, tiled, width, y) &&
                     forall i :: start <= i < start + width && i < out.Length ==>
                       PixelResult(layout, k, c, inBuf, width, tiled, i).Ok?)
    ensures ok ==> forall i :: start <= i < start + width && i < out.Length ==>
      PixelResult(layout, k, c, inBuf, width, tiled, i) == Ok(out[i])
  {
    var tiledStart := RowStart(layout, c, y, width);
    if tiledStart + width > |tiled| {
      return false;
    }
    var rowLen := if out.Length - start < width then out.Length - start else width;
    for x := 0 to rowLen
      invariant forall i :: 0 <= i < out.Length && !(start <= i < start + x) ==> out[i] == old(out[i])
      invariant forall i :: start <= i < start + x ==> PixelResult(layout, k, c, inBuf, width, tiled, i) == Ok(out[i])
    {
      var pixelIdx := start + x;
      PixelAt(layout, k, c, inBuf, width, tiled, y, x, start);
      if pixelIdx >= |inBuf| {
        return false;
      }
      var color := Classify(k, c.colors, inBuf[pixelIdx], tiled[tiledStart + x]);
      if color.Panic? {
        return false;
      }
      out[pixelIdx] := color.value;
    }
    ok := true;
  }

  /** Rows of a buffer of `n` slots split into chunks of `width`. */
  lemma RowCount(n: nat, width: nat, y: nat)
    requires width > 0
    ensures y * width < n ==> y < CeilDiv(n, width)
    ensures y * width >= n ==> CeilDiv(n, width) <= y
  {
    var q := CeilDiv(n, width);
    Num.DivModUnique(n + width - 1, width, q, (n + width - 1) % width);
    if y >= q {
      Num.MulMonotone(width, q, y);
    }
    if q >= y + 1 {
      Num.MulMonotone(width, y + 1, q);
    }
  }

  /** The kernels' shared walk over the output rows, `chunks_mut(width)`
      enumerated, with the tiled rows found by `layout`. */
  method RunKernel(layout: RowLayout, k: Kernel, c: Config, inBuf: seq<real>, width: nat, out: array<RGB>,
                   tiled: seq<real>)
    returns (ok: bool)
    modifies out
    ensures ok <==> KernelDefined(layout, k, c, inBuf, width, out.Length, tiled)
    ensures ok ==> forall i :: 0 <= i < out.Length ==> PixelResult(layout, k, c, inBuf, width, tiled, i) == Ok(out[i])
  {
    if |c.colors| == 0 || width == 0 {
      return false;
    }
    var y, start := 0, 0;
    while start < out.Length
      invariant start == y * width
      invariant forall y' :: 0 <= y' < y ==> SliceOk(layout, c, tiled, width, y')
      invariant forall i :: 0 <= i < start && i < out.Length ==>
        PixelResult(layout, k, c, inBuf, width, tiled, i) == Ok(out[i])
      decreases out.Length - start
    {
      var rowOk := RunRow(layout, k, c, inBuf, width, out, tiled, y, start);
      RowCount(out.Length, width, y);
      if !rowOk {
        return false;
      }
      y, start := y + 1, start + width;
      assert start == y * width;
    }
    RowCount(out.Length, width, y);
    ok := true;
  }

  /** `scalar_par` as written. */
  method ScalarPar(inBuf: seq<real>, width: nat, out: array<RGB>, tiled: seq<real>, c: Config)
    returns (ok: bool)
    modifies out
    ensures ok <==> KernelDefined(SideApart, ScalarKernel, c, inBuf, width, out.Length, tiled)
    ensures ok ==> forall i :: 0 <= i < out.Length ==>
      PixelResult(SideApart, ScalarKernel, c, inBuf, width, tiled, i) == Ok(out[i])
  {
    ok := RunKernel(SideApart, ScalarKernel, c, inBuf, width, out, tiled);
  }

  /** `fixed_par` as written, given the lane scales and offsets. */
  method FixedPar(inBuf: seq<real>, width: nat, out: array<RGB>, tiled: seq<real>, c: Config,
                  scale: seq<real>, offset: seq<real>)
    returns (ok: bool)
    modifies out
    ensures ok <==> KernelDefined(SideApart, FixedKernel(scale, offset), c, inBuf, width, out.Length, tiled)
    ensures ok ==> forall i :: 0 <= i < out.Length ==>
      PixelResult(SideApart, FixedKernel(scale, offset), c, inBuf, width, tiled, i) == Ok(out[i])
  {
    ok := RunKernel(SideApart, FixedKernel(scale, offset), c, inBuf, width, out, tiled);
  }

  /** `fit_par` as written, given the pass data and the number of passes. */
  method FitPar(inBuf: seq<real>, width: nat, out: array<RGB>, tiled: seq<real>, c: Config,
                passes: seq<PassData>, lanes: nat, iters: nat)
    returns (ok: bool)
    modifies out
    ensures ok <==> KernelDefined(SideApart, FitKernel(passes, lanes, iters), c, inBuf, width, out.Length, tiled)
    ensures ok ==> forall i :: 0 <= i < out.Length ==>
      PixelResult(SideApart, FitKernel(passes, lanes, iters), c, inBuf, width, tiled, i) == Ok(out[i])
  {
    ok := RunKernel(SideApart, FitKernel(passes, lanes, iters), c, inBuf, width, out, tiled);
  }

  /** The two layouts find every row at the same place exactly when the
      matrix is 1x1 or the image is one matrix side wide. */
  predicate LayoutsAgree(c: Config, width: nat)
  {
    c.order == 0 || width == c.Side()
  }

  /** The layout finds every tiled row where the cache holds it. */
  ghost predicate ReadsCacheRows(layout: RowLayout, c: Config, width: nat)
  {
    forall y: nat :: RowStart(layout, c, y, width) == TiledRowStart(c, y, width)
  }

  /** Where the layouts agree, the kernels' row start is the cache's. */
  lemma SourceRowStartAgrees(c: Config, y: nat, width: nat)
    requires c.Valid() && LayoutsAgree(c, width)
    ensures RowStart(SideApart, c, y, width) == RowStart(WidthApart, c, y, width)
  {
    if c.order == 0 {
      Num.BitAndLowMask(y, 0);
      assert Num.Pow2(0) == 1;
    }
  }

  /** Elsewhere, row 1 already starts at different places: one matrix side
      into the cache as written, one image width into it as laid out. */
  lemma SourceRowStartDiffers(c: Config, width: nat)
    requires c.Valid() && !LayoutsAgree(c, width)
    ensures RowStart(SideApart, c, 1, width) == c.Side()
    ensures RowStart(WidthApart, c, 1, width) == width
    ensures RowStart(SideApart, c, 1, width) != RowStart(WidthApart, c, 1, width)
  {
    Num.BitAndLowMask(1, c.order);
    Num.Pow2Monotone(1, c.order);
    assert Num.Pow2(1) == 2;
  }

  /** The kernels as written find every tiled row exactly when the two
      layouts agree; the `WidthApart` layout always does. */
  lemma ReadsCacheRowsExactly(c: Config, width: nat)
    requires c.Valid()
    ensures ReadsCacheRows(WidthApart, c, width)
    ensures ReadsCacheRows(SideApart, c, width) <==> LayoutsAgree(c, width)
  {
    if LayoutsAgree(c, width) {
      forall y: nat
        ensures RowStart(SideApart, c, y, width) == TiledRowStart(c, y, width)
      {
        SourceRowStartAgrees(c, y, width);
      }
    } else {
      SourceRowStartDiffers(c, width);
    }
  }

  /** Reading the cache at the row start of the `WidthApart` layout plus `x`
      gives the threshold of pixel `(x, y)`, and every row's slice lies
      inside the cache; with the `SideApart` start this holds where the
      layouts agree. */
  lemma TiledLookup(layout: RowLayout, c: Config, width: nat, tiled: seq<real>, x: nat, y: nat)
    requires c.Valid() && IsTiledPattern(c, width, tiled) && x < width
    requires ReadsCacheRows(layout, c, width)
    ensures SliceOk(layout, c, tiled, width, y)
    ensures tiled[RowStart(layout, c, y, width) + x] == Threshold(c, x, y)
  {
    Num.BitAndLowMask(y, c.order);
    var row := y % c.Side();
    assert TiledRowStart(c, y, width) + x == Grid.Index(x, row, width);
    Grid.IndexBelowSize(width - 1, row, width, c.Side());
    TiledPatternRow(c, width, tiled, x, y);
  }

  /** The kernel data each strategy builds from the palette: one lane per
      entry for the fixed kernel, `SimdFit::new`'s chunks for the chunked one. */
  predicate MatchesPalette(k: Kernel, colors: seq<ColorMapElement>)
  {
    match k
    case ScalarKernel => true
    case FixedKernel(scale, offset) =>
      && |scale| >= |colors| && |offset| >= |colors|
      && (forall i :: 0 <= i < |colors| ==> scale[i] == colors[i].scale && offset[i] == colors[i].offset)
    case FitKernel(passes, lanes, iters) => ChunksPalette(passes, colors, lanes) && iters == |passes|
  }

  /** Main property of the kernels: given the tiled cache of a valid
      configuration and the kernel data built from its palette, every kernel
      that reads the cache rows where they are runs to completion on an input
      at least as long as the output, and pixel `(x, y)` receives the color
      of the first palette entry that passes against the threshold
      `1 - matrix[bayer_idx(x, y)]`, or the last entry's color. The kernels
      as written (`SideApart`) do so where the layouts agree. */
  lemma KernelComputesDither(layout: RowLayout, k: Kernel, c: Config, inBuf: seq<real>, width: nat, n: nat,
                             tiled: seq<real>)
    requires c.Valid() && |c.colors| > 0 && width > 0 && n <= |inBuf|
    requires IsTiledPattern(c, width, tiled) && MatchesPalette(k, c.colors)
    requires ReadsCacheRows(layout, c, width)
    ensures KernelDefined(layout, k, c, inBuf, width, n, tiled)
    ensures forall i :: 0 <= i < n ==>
              PixelResult(layout, k, c, inBuf, width, tiled, i)
                == Ok(ScalarColor(c.colors, inBuf[i], Threshold(c, i % width, i / width)))
  {
    forall y | 0 <= y < CeilDiv(n, width)
      ensures SliceOk(layout, c, tiled, width, y)
    {
      TiledLookup(layout, c, width, tiled, 0, y);
    }
    forall i | 0 <= i < n
      ensures PixelResult(layout, k, c, inBuf, width, tiled, i)
        == Ok(ScalarColor(c.colors, inBuf[i], Threshold(c, i % width, i / width)))
    {
      PixelIsDither(layout, k, c, inBuf, width, tiled, i);
    }
    assert forall i :: 0 <= i < n ==> PixelResult(layout, k, c, inBuf, width, tiled, i).Ok?;
  }

  /** One pixel of `KernelComputesDither`. */
  lemma PixelIsDither(layout: RowLayout, k: Kernel, c: Config, inBuf: seq<real>, width: nat, tiled: seq<real>, i: nat)
    requires c.Valid() && |c.colors| > 0 && width > 0 && i < |inBuf|
    requires IsTiledPattern(c, width, tiled) && MatchesPalette(k, c.colors)
    requires ReadsCacheRows(layout, c, width)
    ensures PixelResult(layout, k, c, inBuf, width, tiled, i)
      == Ok(ScalarColor(c.colors, inBuf[i], Threshold(c, i % width, i / width)))
  {
    var x, y := i % width, i / width;
    TiledLookup(layout, c, width, tiled, x, y);
    var v, t := inBuf[i], tiled[RowStart(layout, c, y, width) + x];
    match k
    case ScalarKernel =>
    case FixedKernel(scale, offset) => FixedColorIsScalar(c.colors, v, t, scale, offset);
    case FitKernel(passes, lanes, iters) => FitColorIsScalar(c.colors, v, t, passes, lanes);
  }

  /** The 2x2 Bayer matrix with the black/white palette. */
  const Example2x2: Config := Config([0.0, 0.5, 0.75, 0.25], DefaultColorMap, 1, 1)

  lemma Example2x2Valid()
    ensures Example2x2.Side() == 2 && Example2x2.Valid()
  {
    assert Num.Pow2(1) == 2;
  }

  /** The thresholds of the 2x2 example: the threshold of pixel `(x, y)`
      depends on `x mod 2` and `y`. */
  lemma Example2x2Thresholds(x: nat, y: nat)
    requires y < 2
    ensures Example2x2.Valid()
    ensures Threshold(Example2x2, x, y)
         == if y == 0 then (if x % 2 == 0 then 1.0 else 0.5) else (if x % 2 == 0 then 0.25 else 0.75)
  {
    var c := Example2x2;
    Example2x2Valid();
    Example2x2Idx(x, y);
    var i := BayerIdx(c, x, y);
    var xm := x % 2;
    assert Threshold(c, x, y) == 1.0 - c.matrix[i];
    if y == 0 {
      if xm == 0 { assert i == 0; } else { assert i == 1; }
    } else {
      if xm == 0 { assert i == 2; } else { assert i == 3; }
    }
  }

  /** The masked lookup of the 2x2 example. */
  lemma Example2x2Idx(x: nat, y: nat)
    requires y < 2
    ensures BayerIdx(Example2x2, x, y) == y * 2 + x % 2
  {
    Example2x2Valid();
    BayerIdxIsModIndex(Example2x2, x, y);
  }

  const Example2x2Wide: seq<real> := [1.0, 0.5, 1.0, 0.5, 0.25, 0.75, 0.25, 0.75]

  lemma Example2x2WideAt(x: nat, y: nat)
    requires y < 2 && x < 4
    ensures Example2x2.Valid()
    ensures Grid.Index(x, y, 4) < 8 && Example2x2Wide[Grid.Index(x, y, 4)] == Threshold(Example2x2, x, y)
  {
    Example2x2Thresholds(x, y);
    Example2x2WideValue(x, y);
  }

  /** Entry `(x, y)` of the wide cache, by row and column parity. */
  lemma Example2x2WideValue(x: nat, y: nat)
    requires y < 2 && x < 4
    ensures Grid.Index(x, y, 4) < 8
    ensures Example2x2Wide[Grid.Index(x, y, 4)]
         == if y == 0 then (if x % 2 == 0 then 1.0 else 0.5) else (if x % 2 == 0 then 0.25 else 0.75)
  {
    var wide := Example2x2Wide;
    if y == 0 {
      assert Grid.Index(x, y, 4) == x;
      if x == 0 { assert wide[0] == 1.0; }
      else if x == 1 { assert wide[1] == 0.5; }
      else if x == 2 { assert wide[2] == 1.0; }
      else { assert wide[3] == 0.5; }
    } else {
      assert Grid.Index(x, y, 4) == 4 + x;
      if x == 0 { assert wide[4] == 0.25; }
      else if x == 1 { assert wide[5] == 0.75; }
      else if x == 2 { assert wide[6] == 0.25; }
      else { assert wide[7] == 0.75; }
    }
  }

  /** The cache of the 2x2 example for an image 4 pixels wide. */
  lemma Example2x2WideCache()
    ensures Example2x2.Valid()
    ensures IsTiledPattern(Example2x2, 4, Example2x2Wide)
  {
    Example2x2Valid();
    forall y: nat, x: nat | y < 2 && x < 4
      ensures Grid.Index(x, y, 4) < 8 && Example2x2Wide[Grid.Index(x, y, 4)] == Threshold(Example2x2, x, y)
    {
      Example2x2WideAt(x, y);
    }
  }

  /** The cache of the 2x2 example for an image 1 pixel wide. */
  lemma Example2x2NarrowCache()
    ensures Example2x2.Valid()
    ensures IsTiledPattern(Example2x2, 1, [1.0, 0.25])
  {
    Example2x2Valid();
    forall y: nat, x: nat | y < 2 && x < 1
      ensures Grid.Index(x, y, 1) < 2 && [1.0, 0.25][Grid.Index(x, y, 1)] == Threshold(Example2x2, x, y)
    {
      Example2x2Thresholds(x, y);
    }
  }

  /** On the black/white palette, value 0.5 is black below threshold 1.0 and
      white at threshold 0.25. */
  lemma DefaultMapAtHalf()
    ensures ScalarColor(DefaultColorMap, 0.5, 1.0) == RGB(0.0, 0.0, 0.0, 1.0)
    ensures ScalarColor(DefaultColorMap, 0.5, 0.25) == RGB(1.0, 1.0, 1.0, 1.0)
  {
    var pass := PassSet(DefaultColorMap, 0.5, 1.0);
    assert 0 in pass;
    FirstInUnique(pass, 2, 0, 0);
    var pass' := PassSet(DefaultColorMap, 0.5, 0.25);
    assert 0 !in pass' && 1 !in pass';
    FirstInUnique(pass', 2, 0, 2);
  }

  /** Eight pixels of value 0.5: a 4x2 gray image. */
  const HalfGray8: seq<real> := [0.5, 0.5, 0.5, 0.5, 0.5, 0.5, 0.5, 0.5]

  /** The kernels as written, on a 4-pixel-wide image dithered with the 2x2
      matrix, read row 1's thresholds from cache row 0: the row start
      `(1 & 1) << 1 = 2` lands inside row 0, so pixel `(0, 1)` of a uniform
      0.5 image comes out black, where its threshold 0.25 makes it white, as
      the `WidthApart` layout gives. */
  lemma SourceRowStartMisreads()
    ensures Example2x2.Valid() && IsTiledPattern(Example2x2, 4, Example2x2Wide)
    ensures Threshold(Example2x2, 0, 1) == 0.25
    ensures ScalarColor(DefaultColorMap, 0.5, 0.25) == RGB(1.0, 1.0, 1.0, 1.0)
    ensures PixelResult(SideApart, ScalarKernel, Example2x2, HalfGray8, 4, Example2x2Wide, 4)
         == Ok(RGB(0.0, 0.0, 0.0, 1.0))
    ensures PixelResult(WidthApart, ScalarKernel, Example2x2, HalfGray8, 4, Example2x2Wide, 4)
         == Ok(RGB(1.0, 1.0, 1.0, 1.0))
  {
    Example2x2WideCache();
    Example2x2Thresholds(0, 1);
    DefaultMapAtHalf();
    assert Num.BitAnd(1, 1) == 1 && Num.Pow2(1) == 2;
    assert Example2x2Wide[2] == 1.0 && Example2x2Wide[4] == 0.25;
  }

  /** On a 1-pixel-wide, 2-pixel-tall image the kernels as written slice
      `tiled[2..3]` out of the 2-entry cache for row 1 and panic, while the
      `WidthApart` layout completes. */
  lemma SourceRowStartLeavesCache()
    ensures Example2x2.Valid() && IsTiledPattern(Example2x2, 1, [1.0, 0.25])
    ensures !KernelDefined(SideApart, ScalarKernel, Example2x2, [0.5, 0.5], 1, 2, [1.0, 0.25])
    ensures KernelDefined(WidthApart, ScalarKernel, Example2x2, [0.5, 0.5], 1, 2, [1.0, 0.25])
  {
    Example2x2NarrowCache();
    assert Num.BitAnd(1, 1) == 1 && Num.Pow2(1) == 2;
    assert CeilDiv(2, 1) == 2;
    assert !SliceOk(SideApart, Example2x2, [1.0, 0.25], 1, 1);
    KernelComputesDither(WidthApart, ScalarKernel, Example2x2, [0.5, 0.5], 1, 2, [1.0, 0.25]);
  }
}
