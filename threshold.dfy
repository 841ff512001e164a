/** `ThresholdType` of `src/dithering/threshold.rs`: the configuration each
    threshold type builds, the transform it selects, and the one-shot
    `dither` of an RGB buffer. The hardware lane width is a parameter, and
    the constant tables are the ones of `ThresholdLookup`. */
module Thresholding {
  import Num
  import Pixel
  import Texture
  import opened Outcome
  import opened Palette
  import opened BayerConfig
  import opened MultiImpl
  import opened BayerTransform
  import opened ThresholdLookup

  /** `to_transform_config` as written: Bayer0 to Bayer2 at orders 1, 2
      and 3, Bayer3 at order 3 as well; `Rand` and `BlueNoise` are
      unimplemented. */
  function SourceTransformConfig(t: ThresholdType, tables: Tables, colors: seq<ColorMapElement>): (r: Result<Config>)
    ensures r.Ok? ==> (IsBayer(t) && r.value.Valid() && r.value.matrix == BayerTable(t, tables) && r.value.colors == colors)
  {
    match t
    case Rand => Result.Panic("not implemented: requires pre-processing")
    case Bayer0 => New(1, tables.bayer0, colors)
    case Bayer1 => New(2, tables.bayer1, colors)
    case Bayer2 => New(3, tables.bayer2, colors)
    case Bayer3 => New(3, tables.bayer3, colors)
    case BlueNoise => Result.Panic("not implemented: generate blue noise")
  }

  /** With the standard tables, Bayer0 to Bayer2 configure at orders 1, 2
      and 3, while Bayer3's 16x16 table does not fit order 3 and its
      configuration panics, as do `Rand` and `BlueNoise`. */
  lemma SourceConfigOrders(tables: Tables, colors: seq<ColorMapElement>)
    requires tables.Standard()
    ensures SourceTransformConfig(Bayer0, tables, colors).Ok? && SourceTransformConfig(Bayer0, tables, colors).value.order == 1
    ensures SourceTransformConfig(Bayer1, tables, colors).Ok? && SourceTransformConfig(Bayer1, tables, colors).value.order == 2
    ensures SourceTransformConfig(Bayer2, tables, colors).Ok? && SourceTransformConfig(Bayer2, tables, colors).value.order == 3
    ensures SourceTransformConfig(Bayer3, tables, colors).Panic?
    ensures SourceTransformConfig(Rand, tables, colors).Panic? && SourceTransformConfig(BlueNoise, tables, colors).Panic?
  {
    assert Num.Pow2(1) == 2 && Num.Pow2(2) == 4 && Num.Pow2(3) == 8;
  }

  /** `to_transform_config` with each Bayer type at the order of its own
      table (Bayer3 at order 4). */
  function TransformConfig(t: ThresholdType, tables: Tables, colors: seq<ColorMapElement>): (r: Result<Config>)
    ensures r.Ok? ==> (IsBayer(t) && r.value.Valid() && r.value.matrix == BayerTable(t, tables) && r.value.colors == colors)
  {
    match t
    case Rand => Result.Panic("not implemented: requires pre-processing")
    case Bayer3 => New(4, tables.bayer3, colors)
    case BlueNoise => Result.Panic("not implemented: generate blue noise")
    case _ => SourceTransformConfig(t, tables, colors)
  }

  /** With the standard tables, every Bayer type configures, and the
      configuration's threshold for `(x, y)` is `get_threshold(x, y)` of the
      same type; the other types panic. */
  lemma TransformConfigMatchesLookup(t: ThresholdType, tables: Tables, colors: seq<ColorMapElement>,
                                     x: nat, y: nat, draw: real)
    requires tables.Standard()
    ensures TransformConfig(t, tables, colors).Ok? <==> IsBayer(t)
    ensures IsBayer(t) ==>
      Threshold(TransformConfig(t, tables, colors).value, x, y) == GetThreshold(t, tables, x, y, draw)
  {
    if IsBayer(t) {
      BayerLookupIsConfigThreshold(t, tables, colors, x, y, draw);
    }
  }

  /** `to_transform` as written can build the transform: the configuration
      of `to_transform_config` exists and the strategy `auto` selects has an
      implementation. */
  predicate Transformable(t: ThresholdType, tables: Tables, colors: seq<ColorMapElement>, laneHint: nat)
  {
    SourceTransformConfig(t, tables, colors).Ok? && BuildOk(Auto(|colors|, laneHint), colors)
  }

  /** `to_transform`: `auto` on the configuration, then `build` with it. */
  method ToTransform(t: ThresholdType, tables: Tables, colors: seq<ColorMapElement>, laneHint: nat)
    returns (r: Result<BayerTransformImpl>)
    ensures r.Ok? <==> Transformable(t, tables, colors, laneHint)
    ensures r.Ok? ==> (fresh(r.value) && r.value.Valid() && r.value.bayer == []
                       && r.value.config == SourceTransformConfig(t, tables, colors).value)
  {
    var config := SourceTransformConfig(t, tables, colors);
    if config.Panic? {
      return Result.Panic(config.reason);
    }
    r := Build(Auto(|colors|, laneHint), config.value);
  }

  /** With the standard tables and a detected width `build` supports,
      `to_transform` as written builds exactly for Bayer0 to Bayer2. */
  lemma SourceTransformableExactly(t: ThresholdType, tables: Tables, colors: seq<ColorMapElement>, laneHint: nat)
    requires tables.Standard() && (laneHint == 0 || SupportedLanes(laneHint))
    ensures Transformable(t, tables, colors, laneHint) <==> (t == Bayer0 || t == Bayer1 || t == Bayer2)
  {
    SourceConfigOrders(tables, colors);
    AutoBuilds(colors, laneHint);
  }

  /** The corrected `to_transform` can build the transform: every Bayer type
      configures at its own order and the lane count stays within the
      hardware width. */
  predicate CorrectedTransformable(t: ThresholdType, tables: Tables, colors: seq<ColorMapElement>, laneHint: nat)
    requires |colors| < Num.Pow2(Num.UsizeBits)
  {
    TransformConfig(t, tables, colors).Ok? && BuildOk(AutoWithin(|colors|, laneHint), colors)
  }

  /** `to_transform` with the corrected configuration and strategy
      selection. A palette's length fits a `usize`. */
  method ToCorrectedTransform(t: ThresholdType, tables: Tables, colors: seq<ColorMapElement>, laneHint: nat)
    returns (r: Result<BayerTransformImpl>)
    requires |colors| < Num.Pow2(Num.UsizeBits)
    ensures r.Ok? <==> CorrectedTransformable(t, tables, colors, laneHint)
    ensures r.Ok? ==> (fresh(r.value) && r.value.Valid() && r.value.bayer == []
                       && r.value.config == TransformConfig(t, tables, colors).value)
  {
    var config := TransformConfig(t, tables, colors);
    if config.Panic? {
      return Result.Panic(config.reason);
    }
    r := Build(AutoWithin(|colors|, laneHint), config.value);
  }

  /** The grayscale buffer `dither` collects: one luma per pixel. */
  function GrayscaleOf(pixels: seq<Pixel.RGB>): (g: seq<real>)
    ensures |g| == |pixels|
  {
    seq(|pixels|, i requires 0 <= i < |pixels| => Pixel.Grayscale(pixels[i]))
  }

  /** An empty tiled cache has no row for a non-empty image. */
  lemma EmptyCacheFails(layout: RowLayout, k: Kernel, c: Config, inBuf: seq<real>, width: nat, n: nat)
    ensures KernelDefined(layout, k, c, inBuf, width, n, []) <==> (|c.colors| > 0 && width > 0 && n == 0)
  {
    if |c.colors| > 0 && width > 0 {
      if n > 0 {
        CeilDivPositive(n, width);
        assert !SliceOk(layout, c, [], width, 0);
      } else {
        RowCount(0, width, 0);
      }
    }
  }

  /** `dither` as written: builds the transform and applies it without
      `prepare`, so the tiled cache is empty and the kernel finds no row
      for any pixel; it completes only on an empty buffer. */
  method SourceDither(t: ThresholdType, tables: Tables, data: array<Pixel.RGB>, width: nat, height: nat,
                      colors: seq<ColorMapElement>, laneHint: nat)
    returns (ok: bool)
    modifies data
    ensures ok <==> (Transformable(t, tables, colors, laneHint) && width > 0 && |colors| > 0 && data.Length == 0)
  {
    var transform := ToTransform(t, tables, colors, laneHint);
    if transform.Panic? || width == 0 {
      return false;
    }
    var grayscale := GrayscaleOf(data[..]);
    var input := Texture.TextureSlice(width, height, grayscale);
    var output := Texture.TextureMutSlice(width, height, data);
    var applied, rin, rout := transform.value.Apply(input, output);
    EmptyCacheFails(SideApart, transform.value.kernel, transform.value.config, grayscale, width, data.Length);
    ok := applied;
  }

  /** `dither` corrected: the corrected transform, then `prepare` before
      an `apply` that reads the cache rows where they are. Every pixel
      becomes the first palette color that passes for its grayscale value
      against the threshold at its position, or the last color. */
  method Dither(t: ThresholdType, tables: Tables, data: array<Pixel.RGB>, width: nat, height: nat,
                colors: seq<ColorMapElement>, laneHint: nat)
    returns (ok: bool)
    requires |colors| < Num.Pow2(Num.UsizeBits)
    modifies data
    ensures ok <==> (CorrectedTransformable(t, tables, colors, laneHint) && width > 0 && |colors| > 0)
    ensures ok ==> forall i :: 0 <= i < data.Length ==>
      data[i] == ScalarColor(colors, Pixel.Grayscale(old(data[i])),
                             Threshold(TransformConfig(t, tables, colors).value, i % width, i / width))
  {
    var transform := ToCorrectedTransform(t, tables, colors, laneHint);
    if transform.Panic? || width == 0 {
      return false;
    }
    ok := PrepareAndApply(transform.value, data, width, height);
  }

  /** The corrected transform step of `dither` once the transform is built:
      the grayscale texture, the shapes, `prepare`, then the corrected
      `apply` into the image. */
  method PrepareAndApply(impl: BayerTransformImpl, data: array<Pixel.RGB>, width: nat, height: nat)
    returns (ok: bool)
    requires impl.Valid() && width > 0
    modifies impl, data
    ensures ok <==> |impl.config.colors| > 0
    ensures ok ==> forall i :: 0 <= i < data.Length ==>
      data[i] == ScalarColor(impl.config.colors, Pixel.Grayscale(old(data[i])),
                             Threshold(impl.config, i % width, i / width))
  {
    var grayscale := GrayscaleOf(data[..]);
    var input := Texture.TextureSlice(width, height, grayscale);
    var output := Texture.TextureMutSlice(width, height, data);
    impl.Prepare(input.ShapeOf(), output.ShapeOf());
    var applied, rin, rout := impl.ApplyCorrected(input, output);
    if |impl.config.colors| > 0 {
      KernelComputesDither(WidthApart, impl.kernel, impl.config, grayscale, width, data.Length, impl.bayer);
    }
    ok := applied;
    if ok {
      AppliedIsDither(impl.kernel, impl.config, grayscale, width, data[..], impl.bayer);
    }
  }

  /** What the kernel wrote, pixel by pixel, reading the cache rows where
      they are, is the scalar dither of the grayscale input. */
  lemma AppliedIsDither(k: Kernel, c: Config, gray: seq<real>, width: nat, out: seq<Pixel.RGB>, tiled: seq<real>)
    requires c.Valid() && |c.colors| > 0 && width > 0 && |out| <= |gray|
    requires IsTiledPattern(c, width, tiled) && MatchesPalette(k, c.colors)
    requires forall i :: 0 <= i < |out| ==> PixelResult(WidthApart, k, c, gray, width, tiled, i) == Ok(out[i])
    ensures forall i :: 0 <= i < |out| ==>
      out[i] == ScalarColor(c.colors, gray[i], Threshold(c, i % width, i / width))
  {
    KernelComputesDither(WidthApart, k, c, gray, width, |out|, tiled);
  }

  /** With the standard tables and a detected width `build` supports, the
      corrected `dither` of a Bayer type with a non-empty palette succeeds
      on every image of positive width. */
  lemma DitherSucceeds(t: ThresholdType, tables: Tables, colors: seq<ColorMapElement>, laneHint: nat)
    requires tables.Standard() && IsBayer(t) && |colors| > 0 && |colors| < Num.Pow2(Num.UsizeBits)
    requires laneHint == 0 || SupportedLanes(laneHint)
    ensures CorrectedTransformable(t, tables, colors, laneHint)
  {
    TransformConfigMatchesLookup(t, tables, colors, 0, 0, 0.0);
    AutoWithinBuilds(colors, laneHint);
  }
}
