/** Strategy selection and the transforms of
    `src/dithering/threshold/bayer_transform.rs`: `BayerStrategy` (`auto`,
    `lanes_fit`, `build`, `name`, `Display`), the kernel data that
    `SimdFixed::new` and `SimdFit::new` precompute, and the transform that
    `build` returns, whose `prepare` rebuilds the tiled cache. The hardware
    lane width that `auto` detects is a parameter. */
module BayerTransform {
  import Num
  import Texture
  import opened Outcome
  import opened Palette
  import opened Pixel
  import opened BayerConfig
  import opened MultiImpl

  datatype Strategy = Scalar | Simd(lanes: nat) | SimdFixed(lanes: nat)

  /** Lane counts `build` has an implementation for. */
  predicate SupportedLanes(l: nat)
  {
    l == 2 || l == 4 || l == 8 || l == 16
  }

  // Decimal rendering for `Display`.

  function DigitChar(d: nat): char
    requires d < 10
  {
    ('0' as int + d) as char
  }

  predicate AllDigits(s: string)
  {
    forall i :: 0 <= i < |s| ==> '0' <= s[i] <= '9'
  }

  /** `n` in decimal, as `write!("{}")` renders a `usize`. */
  function Decimal(n: nat): (s: string)
    ensures |s| >= 1 && AllDigits(s)
  {
    if n < 10 then [DigitChar(n)] else Decimal(n / 10) + [DigitChar(n % 10)]
  }

  /** Value of a string of decimal digits. */
  function DecimalValue(s: string): nat
    requires AllDigits(s)
  {
    if |s| == 0 then 0 else DecimalValue(s[..|s| - 1]) * 10 + (s[|s| - 1] as int - '0' as int)
  }

  /** Reading back a rendered number gives the number. */
  lemma {:induction false} DecimalRoundTrip(n: nat)
    ensures DecimalValue(Decimal(n)) == n
  {
    if n >= 10 {
      var s := Decimal(n);
      assert s[..|s| - 1] == Decimal(n / 10);
      DecimalRoundTrip(n / 10);
    }
  }

  /** `Display`: "scalar", "simd{lanes}", "simd-fixed{lanes}". */
  function Display(s: Strategy): string
  {
    match s
    case Scalar => "scalar"
    case Simd(l) => "simd" + Decimal(l)
    case SimdFixed(l) => "simd-fixed" + Decimal(l)
  }

  /** `name`: the strategy's kind without its lane count; it is how
      `Display` starts. */
  function Name(s: Strategy): (r: string)
    ensures s.Scalar? ==> r == Display(s)
    ensures !s.Scalar? ==> Display(s) == r + Decimal(s.lanes)
  {
    match s
    case Scalar => "scalar"
    case Simd(_) => "simd"
    case SimdFixed(_) => "simd-fixed"
  }

  /** Different strategies display differently, lanes included. */
  lemma DisplayInjective(s: Strategy, t: Strategy)
    requires Display(s) == Display(t)
    ensures s == t
  {
    if s.Simd? && t.Simd? {
      assert Decimal(s.lanes) == Display(s)[4..] == Display(t)[4..] == Decimal(t.lanes);
      DecimalRoundTrip(s.lanes);
      DecimalRoundTrip(t.lanes);
    } else if s.SimdFixed? && t.SimdFixed? {
      assert Decimal(s.lanes) == Display(s)[10..] == Display(t)[10..] == Decimal(t.lanes);
      DecimalRoundTrip(s.lanes);
      DecimalRoundTrip(t.lanes);
    } else if s.SimdFixed? && t.Simd? {
      FixedDisplaysApart(s.lanes, t.lanes);
    } else if s.Simd? && t.SimdFixed? {
      FixedDisplaysApart(t.lanes, s.lanes);
    } else {
      ScalarDisplaysApart(s);
      ScalarDisplaysApart(t);
    }
  }

  /** Only the scalar strategy displays as "scalar". */
  lemma ScalarDisplaysApart(s: Strategy)
    ensures Display(s) == "scalar" ==> s.Scalar?
  {
    if !s.Scalar? {
      assert Display(s)[1] == 'i';
    }
  }

  /** "simd-fixed…" has a dash where "simd…" has a digit. */
  lemma FixedDisplaysApart(a: nat, b: nat)
    ensures Display(SimdFixed(a)) != Display(Simd(b))
  {
    assert Display(SimdFixed(a))[4] == '-';
    assert Display(Simd(b))[4] == Decimal(b)[0];
  }

  /** What `lanes_fit(n)` returns: the largest power of two not above `n`,
      and 0 for 0. */
  function LanesFitValue(n: nat): nat
  {
    if n == 0 then 0 else Num.Pow2(Num.Log2(n))
  }

  /** `LanesFitValue(n)` is a power of two within `(n / 2, n]`, and no power
      of two at most `n` is larger. */
  lemma LanesFitIsLargestPow2(n: nat, k: nat)
    requires n > 0
    ensures LanesFitValue(n) <= n < 2 * LanesFitValue(n)
    ensures Num.Pow2(k) <= n ==> Num.Pow2(k) <= LanesFitValue(n)
  {
    Num.Log2Bounds(n);
    if Num.Log2(n) < k {
      Num.Pow2Monotone(Num.Log2(n) + 1, k);
    } else {
      Num.Pow2Monotone(k, Num.Log2(n));
    }
  }

  /** `lanes_fit`: start from `closest_pow_2(lane_hint)` and halve until the
      value is at most `lane_hint`. */
  method LanesFit(laneHint: nat) returns (lanes: nat)
    requires laneHint < Num.Pow2(Num.UsizeBits)
    ensures lanes == LanesFitValue(laneHint)
  {
    Num.ClosestPow2Shape(laneHint, Num.UsizeBits);
    lanes := Num.ClosestPow2(laneHint, Num.UsizeBits);
    if laneHint > 0 {
      Num.Log2Bounds(laneHint);
    }
    while lanes > laneHint
      invariant laneHint == 0 ==> lanes <= 1
      invariant laneHint > 0 ==> (lanes == Num.Pow2(Num.Log2(laneHint)) || lanes == Num.Pow2(Num.Log2(laneHint) + 1))
      decreases lanes
    {
      lanes := lanes / 2;
    }
  }

  /** The documented values: 3 gives 2, 5 and 7 give 4, 12 gives 8, 24 gives 16. */
  lemma LanesFitExamples()
    ensures LanesFitValue(3) == 2 && LanesFitValue(5) == 4 && LanesFitValue(7) == 4
    ensures LanesFitValue(12) == 8 && LanesFitValue(24) == 16
  {
    assert Num.Log2(3) == 1;
    assert Num.Log2(5) == 2 by { assert Num.Log2(2) == 1; }
    assert Num.Log2(7) == 2 by { assert Num.Log2(3) == 1; }
    assert Num.Log2(12) == 3 by { assert Num.Log2(6) == 2 by { assert Num.Log2(3) == 1; } }
    assert Num.Log2(24) == 4 by {
      assert Num.Log2(12) == 3 by { assert Num.Log2(6) == 2 by { assert Num.Log2(3) == 1; } }
    }
  }

  /** `auto` for a palette of `paletteSize` entries on hardware whose
      detected lane width is `laneHint`. */
  function Auto(paletteSize: nat, laneHint: nat): Strategy
  {
    if paletteSize < 2 then Scalar
    else if paletteSize == laneHint then SimdFixed(laneHint)
    else
      var lanes := LanesFitValue(paletteSize);
      if lanes < 2 || lanes > 16 then Scalar else Simd(lanes)
  }

  /** What `auto` selects: the fixed strategy exactly when the palette has
      the hardware's width (and at least 2 entries); the fitting strategy
      exactly for the other palettes of 2 to 31 entries, with the largest
      supported power of two not above the palette size; scalar otherwise. */
  lemma AutoSelects(n: nat, laneHint: nat)
    ensures Auto(n, laneHint).SimdFixed? <==> (n >= 2 && n == laneHint)
    ensures Auto(n, laneHint).SimdFixed? ==> Auto(n, laneHint).lanes == laneHint
    ensures Auto(n, laneHint).Simd? <==> (2 <= n < 32 && n != laneHint)
    ensures Auto(n, laneHint).Simd? ==>
      (SupportedLanes(Auto(n, laneHint).lanes) && Auto(n, laneHint).lanes <= n < 2 * Auto(n, laneHint).lanes)
  {
    if n >= 2 {
      var l := Num.Log2(n);
      Num.Log2Bounds(n);
      LanesFitIsLargestPow2(n, 1);
      assert Num.Pow2(1) == 2;
      if n < 32 {
        assert Num.Pow2(5) == 32;
        if l >= 5 {
          Num.Pow2Monotone(5, l);
        }
        assert l < 5;
        assert l == 1 || l == 2 || l == 3 || l == 4;
        assert Num.Pow2(2) == 4 && Num.Pow2(3) == 8 && Num.Pow2(4) == 16;
      } else {
        LanesFitIsLargestPow2(n, 5);
        assert Num.Pow2(5) == 32;
      }
    }
  }

  /** `build` succeeds for the scalar strategy, and for a SIMD strategy of a
      supported lane count; the fixed one also needs one palette entry per lane. */
  predicate BuildOk(s: Strategy, colors: seq<ColorMapElement>)
  {
    s.Scalar? || (SupportedLanes(s.lanes) && (s.SimdFixed? ==> |colors| == s.lanes))
  }

  /** Whatever `auto` selects can be built when the detected width is one
      `build` supports, or 0 when detection found nothing. */
  lemma AutoBuilds(colors: seq<ColorMapElement>, laneHint: nat)
    requires laneHint == 0 || SupportedLanes(laneHint)
    ensures BuildOk(Auto(|colors|, laneHint), colors)
  {
    AutoSelects(|colors|, laneHint);
  }

  /** `SimdFixed::new`: panics unless the palette has exactly `lanes`
      entries; lane `i` then holds entry `i`'s scale and offset. */
  method SimdFixedNew(colors: seq<ColorMapElement>, lanes: nat) returns (r: Result<(seq<real>, seq<real>)>)
    ensures r.Ok? <==> |colors| == lanes
    ensures r.Ok? ==> (|r.value.0| == lanes && |r.value.1| == lanes &&
      forall i :: 0 <= i < lanes ==> r.value.0[i] == colors[i].scale && r.value.1[i] == colors[i].offset)
  {
    if |colors| != lanes {
      return Result.Panic("color map size must equal SIMD_LANES for fixed strategy");
    }
    var scaleArray := new real[lanes](_ => 0.0);
    var offsetArray := new real[lanes](_ => 0.0);
    for i := 0 to |colors|
      invariant forall j :: 0 <= j < i ==> scaleArray[j] == colors[j].scale && offsetArray[j] == colors[j].offset
    {
      scaleArray[i] := colors[i].scale;
      offsetArray[i] := colors[i].offset;
    }
    r := Ok((scaleArray[..], offsetArray[..]));
  }

  /** `SimdFit::new`: `ceil(n / lanes)` passes; pass `iter` covers palette
      entries `[iter * lanes, iter * lanes + size)`, where `size` is `lanes`
      except in the last pass, which takes the remainder, and its padding
      lanes hold 0. */
  method SimdFitNew(colors: seq<ColorMapElement>, lanes: nat) returns (passes: seq<PassData>, iters: nat)
    requires lanes > 0
    ensures iters == CeilDiv(|colors|, lanes) == |passes|
    ensures ChunksPalette(passes, colors, lanes)
  {
    iters := CeilDiv(|colors|, lanes);
    var data := new PassData[iters](_ => PassData(0, [], []));
    for iter := 0 to iters
      invariant forall i :: 0 <= i < iter ==> ChunkOf(data[i], colors, lanes, i)
    {
      ChunkLayout(|colors|, lanes, iter);
      var rangeSize := if iter == iters - 1 then (if |colors| % lanes == 0 then lanes else |colors| % lanes) else lanes;
      var remainder := lanes - rangeSize;
      var rangeStart := iter * lanes;
      var range := colors[rangeStart..rangeStart + rangeSize];
      var scale := seq(rangeSize, l requires 0 <= l < rangeSize => range[l].scale) + seq(remainder, _ => 0.0);
      var offset := seq(rangeSize, l requires 0 <= l < rangeSize => range[l].offset) + seq(remainder, _ => 0.0);
      data[iter] := PassData(rangeSize, scale, offset);
    }
    passes := data[..];
  }

  /** Total of the pass sizes of the first `k` passes. */
  function SizeSum(passes: seq<PassData>, k: nat): nat
    requires k <= |passes|
  {
    if k == 0 then 0 else SizeSum(passes, k - 1) + passes[k - 1].size
  }

  /** The passes cover the palette exactly: the sizes add up to its length,
      and every pass but the last is full. */
  lemma {:induction false} PassSizesSum(passes: seq<PassData>, colors: seq<ColorMapElement>, lanes: nat, k: nat)
    requires ChunksPalette(passes, colors, lanes) && k <= |passes|
    ensures SizeSum(passes, k) == if k == |passes| then |colors| else k * lanes
  {
    if k > 0 {
      PassSizesSum(passes, colors, lanes, k - 1);
      ChunkLayout(|colors|, lanes, k - 1);
      assert (k - 1) * lanes + lanes == k * lanes;
    } else if |passes| == 0 {
      assert CeilDiv(|colors|, lanes) == 0;
      if |colors| > 0 {
        CeilDivPositive(|colors|, lanes);
      }
    }
  }

  /** The transform `build` returns (`BayerTransformImpl` with one of its
      `Scalar`, `SimdFit<L>` or `SimdFixed<L>` variants): the configuration,
      the kernel with its precomputed data, and the tiled cache, empty until
      `prepare` fills it. */
  class BayerTransformImpl {
    const config: Config
    const kernel: Kernel
    var bayer: seq<real>

    /** What `build` establishes: a valid configuration and kernel data
        computed from its palette. */
    predicate Valid()
      reads this
    {
      config.Valid() && MatchesPalette(kernel, config.colors)
    }

    constructor New(config: Config, kernel: Kernel)
      ensures this.config == config && this.kernel == kernel && bayer == []
    {
      this.config, this.kernel := config, kernel;
      bayer := [];
    }

    /** Each variant's `prepare`: rebuilds the cache for the input width
        only. The two shapes are equal by a debug assertion. */
    method Prepare(inShape: Texture.Shape, outShape: Texture.Shape)
      requires config.Valid() && inShape == outShape
      modifies this
      ensures IsTiledPattern(config, inShape.width, bayer)
    {
      bayer := CacheTiledPattern(config, inShape.width);
    }

    /** Each variant's `apply`: its kernel over the input, with the input's
        width and the current cache, reading each tiled row where the
        kernels as written look for it; hands both views back. */
    method Apply(input: Texture.TextureSlice<real>, output: Texture.TextureMutSlice<RGB>)
      returns (ok: bool, rin: Texture.TextureSlice<real>, rout: Texture.TextureMutSlice<RGB>)
      modifies output.buffer
      ensures rin == input && rout == output
      ensures ok <==> KernelDefined(SideApart, kernel, config, input.buffer, input.width, output.buffer.Length, bayer)
      ensures ok ==> forall i :: 0 <= i < output.buffer.Length ==>
        PixelResult(SideApart, kernel, config, input.buffer, input.width, bayer, i) == Ok(output.buffer[i])
    {
      ok := RunKernel(SideApart, kernel, config, input.buffer, input.width, output.buffer, bayer);
      rin, rout := input, output;
    }

    /** `apply` with the kernels reading each tiled row where
        `cache_tiled_pattern` put it, one image width apart. */
    method ApplyCorrected(input: Texture.TextureSlice<real>, output: Texture.TextureMutSlice<RGB>)
      returns (ok: bool, rin: Texture.TextureSlice<real>, rout: Texture.TextureMutSlice<RGB>)
      modifies output.buffer
      ensures rin == input && rout == output
      ensures ok <==> KernelDefined(WidthApart, kernel, config, input.buffer, input.width, output.buffer.Length, bayer)
      ensures ok ==> forall i :: 0 <= i < output.buffer.Length ==>
        PixelResult(WidthApart, kernel, config, input.buffer, input.width, bayer, i) == Ok(output.buffer[i])
    {
      ok := RunKernel(WidthApart, kernel, config, input.buffer, input.width, output.buffer, bayer);
      rin, rout := input, output;
    }

    /** `once`: `prepare` with the two views' shapes, then `apply`. With a
        palette, a positive width, an input covering the output and an image
        whose tiled rows the kernels as written find (by
        `ReadsCacheRowsExactly`, a 1x1 matrix or an image exactly one matrix
        side wide), every output pixel `(x, y)` gets the first palette
        entry that passes against `1 - matrix[bayer_idx(x, y)]`, or the last
        entry. */
    method Once(input: Texture.TextureSlice<real>, output: Texture.TextureMutSlice<RGB>)
      returns (ok: bool, rin: Texture.TextureSlice<real>, rout: Texture.TextureMutSlice<RGB>)
      requires Valid() && input.ShapeOf() == output.ShapeOf()
      modifies this, output.buffer
      ensures rin == input && rout == output
      ensures IsTiledPattern(config, input.width, bayer)
      ensures ok <==> KernelDefined(SideApart, kernel, config, input.buffer, input.width, output.buffer.Length, bayer)
      ensures |config.colors| > 0 && input.width > 0 && output.buffer.Length <= |input.buffer|
              && ReadsCacheRows(SideApart, config, input.width) ==>
        (ok && forall i :: 0 <= i < output.buffer.Length ==>
          output.buffer[i] == ScalarColor(config.colors, input.buffer[i], Threshold(config, i % input.width, i / input.width)))
    {
      Prepare(input.ShapeOf(), output.ShapeOf());
      ok, rin, rout := Apply(input, output);
      if |config.colors| > 0 && input.width > 0 && output.buffer.Length <= |input.buffer|
         && ReadsCacheRows(SideApart, config, input.width) {
        KernelComputesDither(SideApart, kernel, config, input.buffer, input.width, output.buffer.Length, bayer);
      }
    }
  }

  /** `build`: the kernel data of the strategy, or a panic for an
      unsupported lane count (and, from `SimdFixed::new`, for a palette
      that is not one entry per lane). */
  method Build(s: Strategy, config: Config) returns (r: Result<BayerTransformImpl>)
    requires config.Valid()
    ensures r.Ok? <==> BuildOk(s, config.colors)
    ensures r.Ok? ==> (fresh(r.value) && r.value.Valid() && r.value.config == config && r.value.bayer == [])
    ensures r.Ok? && s.Scalar? ==> r.value.kernel == ScalarKernel
    ensures r.Ok? && s.Simd? ==> (r.value.kernel.FitKernel? && r.value.kernel.lanes == s.lanes)
    ensures r.Ok? && s.SimdFixed? ==> r.value.kernel.FixedKernel?
  {
    if !BuildOk(s, config.colors) {
      if s.SimdFixed? && SupportedLanes(s.lanes) {
        return Result.Panic("color map size must equal SIMD_LANES for fixed strategy");
      }
      return Result.Panic("Unsupported lane configuration " + Display(s));
    }
    var kernel;
    match s {
      case Scalar =>
        kernel := ScalarKernel;
      case Simd(lanes) =>
        var passes, iters := SimdFitNew(config.colors, lanes);
        kernel := FitKernel(passes, lanes, iters);
      case SimdFixed(lanes) =>
        var fixed := SimdFixedNew(config.colors, lanes);
        kernel := FixedKernel(fixed.value.0, fixed.value.1);
    }
    var t := new BayerTransformImpl.New(config, kernel);
    r := Ok(t);
  }

  /** The lane count `lanes_fit` would give if it kept the value within the
      hardware width `laneHint`, as its comment says: the power of two
      closest to the palette size, halved until it fits. */
  function LanesFitWithin(paletteSize: nat, laneHint: nat): nat
    requires paletteSize < Num.Pow2(Num.UsizeBits)
  {
    var closest := Num.ClosestPow2(paletteSize, Num.UsizeBits);
    if closest <= laneHint then closest else LanesFitValue(laneHint)
  }

  /** `auto` with `lanes_fit` bounded by the hardware width. */
  function AutoWithin(paletteSize: nat, laneHint: nat): Strategy
    requires paletteSize < Num.Pow2(Num.UsizeBits)
  {
    if paletteSize < 2 then Scalar
    else if paletteSize == laneHint then SimdFixed(laneHint)
    else
      var lanes := LanesFitWithin(paletteSize, laneHint);
      if lanes < 2 || lanes > 16 then Scalar else Simd(lanes)
  }

  /** A power of two between 2 and 16 is a supported lane count. */
  lemma SmallPow2Supported(k: nat)
    requires k >= 1 && Num.Pow2(k) <= 16
    ensures SupportedLanes(Num.Pow2(k))
  {
    assert Num.Pow2(1) == 2 && Num.Pow2(2) == 4 && Num.Pow2(3) == 8 && Num.Pow2(4) == 16;
    assert Num.Pow2(5) == 32;
    if k >= 5 {
      Num.Pow2Monotone(5, k);
      assert false;
    }
  }

  /** Fitting a supported lane count leaves it unchanged. */
  lemma LanesFitOfSupported(l: nat)
    requires SupportedLanes(l)
    ensures LanesFitValue(l) == l
  {
    var j := if l == 2 then 1 else if l == 4 then 2 else if l == 8 then 3 else 4;
    assert Num.Pow2(1) == 2 && Num.Pow2(2) == 4 && Num.Pow2(3) == 8 && Num.Pow2(4) == 16;
    assert l == Num.Pow2(j);
    Num.Log2OfPow2(j);
  }

  /** The closest power of two to a palette of at least two entries is
      itself at least two. */
  lemma ClosestOfPaletteAtLeastTwo(n: nat) returns (k: nat)
    requires 2 <= n < Num.Pow2(Num.UsizeBits)
    ensures k >= 1 && Num.ClosestPow2(n, Num.UsizeBits) == Num.Pow2(k)
  {
    Num.ClosestPow2Shape(n, Num.UsizeBits);
    Num.Log2Bounds(n);
    if Num.Log2(n) == 0 {
      assert false;
    }
    k := if Num.ClosestPow2(n, Num.UsizeBits) == Num.Pow2(Num.Log2(n)) then Num.Log2(n) else Num.Log2(n) + 1;
  }

  /** The hardware-bounded fit of a palette of at least two entries is a
      supported lane count no wider than the hint. */
  lemma LanesFitWithinSupported(n: nat, laneHint: nat)
    requires 2 <= n < Num.Pow2(Num.UsizeBits) && SupportedLanes(laneHint)
    ensures SupportedLanes(LanesFitWithin(n, laneHint)) && LanesFitWithin(n, laneHint) <= laneHint
  {
    var k := ClosestOfPaletteAtLeastTwo(n);
    if Num.Pow2(k) <= laneHint {
      SmallPow2Supported(k);
    } else {
      LanesFitOfSupported(laneHint);
    }
  }

  /** With the width bound, every palette of at least 2 entries gets a SIMD
      strategy on supported hardware, its lanes never exceed the hardware
      width, and it can be built. */
  lemma AutoWithinUsesHardware(colors: seq<ColorMapElement>, laneHint: nat)
    requires |colors| >= 2 && SupportedLanes(laneHint) && |colors| < Num.Pow2(Num.UsizeBits)
    ensures !AutoWithin(|colors|, laneHint).Scalar?
    ensures AutoWithin(|colors|, laneHint).lanes <= laneHint
    ensures BuildOk(AutoWithin(|colors|, laneHint), colors)
  {
    if |colors| != laneHint {
      LanesFitWithinSupported(|colors|, laneHint);
      var lanes := LanesFitWithin(|colors|, laneHint);
      assert AutoWithin(|colors|, laneHint) == Simd(lanes);
    }
  }

  /** Whatever the bounded `auto` selects can be built when the detected
      width is one `build` supports, or 0. */
  lemma AutoWithinBuilds(colors: seq<ColorMapElement>, laneHint: nat)
    requires |colors| < Num.Pow2(Num.UsizeBits)
    requires laneHint == 0 || SupportedLanes(laneHint)
    ensures BuildOk(AutoWithin(|colors|, laneHint), colors)
  {
    if |colors| >= 2 {
      if laneHint == 0 {
        Num.ClosestPow2Shape(|colors|, Num.UsizeBits);
        Num.Log2Bounds(|colors|);
      } else {
        AutoWithinUsesHardware(colors, laneHint);
      }
    }
  }

  /** As written, `lanes_fit` sees only the palette size: a 32-entry palette
      falls back to scalar on 16-lane hardware, and a 12-entry palette gets
      8 lanes on 4-lane hardware. */
  lemma AutoIgnoresHardwareWidth()
    ensures Auto(32, 16) == Scalar
    ensures Auto(12, 4) == Simd(8)
    ensures Num.Pow2(Num.UsizeBits) > 32 && AutoWithin(32, 16) == Simd(16) && AutoWithin(12, 4) == Simd(4)
  {
    AutoExamples();
    AutoWithinExamples();
  }

  /** `Auto` on a 32-entry palette with a 16-lane hint and on a 12-entry
      palette with a 4-lane hint. */
  lemma AutoExamples()
    ensures Auto(32, 16) == Scalar && Auto(12, 4) == Simd(8)
  {
    Num.Log2Small();
    assert Num.Pow2(3) == 8 && Num.Pow2(5) == 32;
    assert LanesFitValue(32) == 32 && LanesFitValue(12) == 8;
  }

  /** `AutoWithin` on the same two palettes and hints. */
  lemma AutoWithinExamples()
    ensures Num.Pow2(Num.UsizeBits) > 32 && AutoWithin(32, 16) == Simd(16) && AutoWithin(12, 4) == Simd(4)
  {
    Num.Pow2Monotone(6, Num.UsizeBits);
    assert Num.Pow2(6) == 64;
    Num.ClosestPow2OfPow2(5, Num.UsizeBits);
    assert Num.Pow2(5) == 32;
    Num.ClosestPow2Examples();
    LanesFitOfSupported(16);
    LanesFitOfSupported(4);
    assert LanesFitWithin(32, 16) == 16 && LanesFitWithin(12, 4) == 4;
  }
}
