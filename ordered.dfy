/** The older ordered dither of `src/dithering/mod.rs`: every pixel of an
    RGB buffer is replaced, in place and in index order, by the palette color
    its red channel selects against `get_threshold` at its position. The
    random numbers `Rand` draws are a parameter: `draw(i, k)` is the number
    drawn for pixel `i` and palette entry `k`. */
module Ordered {
  import Pixel
  import opened Outcome
  import opened Palette
  import opened MultiImpl
  import opened ThresholdLookup
  import Thresholding
  import BayerConfig

  datatype DitheringType = Ordered(threshold: ThresholdType) | ErrorDiffusion

  /** The thresholds the helper compares palette entries against: one
      `get_threshold` call per entry, entry `k` with draw `draw(k)`. */
  function EntryThresholds(t: ThresholdType, tables: Tables, x: nat, y: nat, draw: nat -> real): nat -> real
    requires tables.Standard()
  {
    (k: nat) => GetThreshold(t, tables, x, y, draw(k))
  }

  /** The entry `dither_ordered_helper` returns when its scan reaches entry
      `from`: the first entry from there on whose test passes against its
      threshold, or the last. */
  function HelperMatch(colors: seq<ColorMapElement>, value: real, thresholds: nat -> real, from: nat): (k: nat)
    requires from < |colors|
    ensures from <= k < |colors|
    ensures forall j :: from <= j < k ==> !Passes(colors[j], value, thresholds(j))
    ensures Passes(colors[k], value, thresholds(k)) || k == |colors| - 1
    decreases |colors| - from
  {
    if Passes(colors[from], value, thresholds(from)) || from == |colors| - 1 then from
    else HelperMatch(colors, value, thresholds, from + 1)
  }

  /** Any entry with the properties of `HelperMatch`'s result is that result. */
  lemma {:induction false} HelperMatchUnique(colors: seq<ColorMapElement>, value: real, thresholds: nat -> real,
                                             from: nat, k: nat)
    requires from <= k < |colors|
    requires forall j :: from <= j < k ==> !Passes(colors[j], value, thresholds(j))
    requires Passes(colors[k], value, thresholds(k)) || k == |colors| - 1
    ensures HelperMatch(colors, value, thresholds, from) == k
    decreases k - from
  {
    if from < k {
      HelperMatchUnique(colors, value, thresholds, from + 1, k);
    }
  }

  /** `dither_ordered_helper`: scans the palette in order and returns the
      first color whose test passes, else the last color; an empty palette
      panics in `last().unwrap()`. */
  method DitherOrderedHelper(value: real, colors: seq<ColorMapElement>, t: ThresholdType, tables: Tables,
                             x: nat, y: nat, draw: nat -> real)
    returns (r: Result<Pixel.RGB>)
    requires tables.Standard()
    ensures r.Ok? <==> |colors| > 0
    ensures r.Ok? ==> r.value == colors[HelperMatch(colors, value, EntryThresholds(t, tables, x, y, draw), 0)].color
  {
    var thresholds := EntryThresholds(t, tables, x, y, draw);
    var index := 0;
    while index < |colors|
      invariant index <= |colors|
      invariant forall j :: 0 <= j < index ==> !Passes(colors[j], value, thresholds(j))
    {
      if value < thresholds(index) * colors[index].scale + colors[index].offset {
        HelperMatchUnique(colors, value, thresholds, 0, index);
        return Ok(colors[index].color);
      }
      index := index + 1;
    }
    if |colors| == 0 {
      return Result.Panic("called `Option::unwrap()` on a `None` value");
    }
    HelperMatchUnique(colors, value, thresholds, 0, |colors| - 1);
    r := Ok(colors[|colors| - 1].color);
  }

  /** The new color of pixel `i` of an image `width` wide whose old red
      channel is `value`. */
  function OrderedPixel(colors: seq<ColorMapElement>, t: ThresholdType, tables: Tables, width: nat,
                        draw: (nat, nat) -> real, i: nat, value: real): Pixel.RGB
    requires tables.Standard() && |colors| > 0 && width > 0
  {
    colors[HelperMatch(colors, value, EntryThresholds(t, tables, i % width, i / width, (k: nat) => draw(i, k)), 0)].color
  }

  /** `dither_ordered`: rewrites `data[0]`, `data[1]`, ... in turn, each
      from its own old red channel and position; `order` lists the indices
      written, in the order written. Division by a zero width panics. */
  method DitherOrdered(data: array<Pixel.RGB>, width: nat, t: ThresholdType, tables: Tables,
                       colors: seq<ColorMapElement>, draw: (nat, nat) -> real)
    returns (ok: bool, ghost order: seq<nat>)
    requires tables.Standard()
    modifies data
    ensures ok <==> (data.Length == 0 || (width > 0 && |colors| > 0))
    ensures forall k :: 0 <= k < |order| ==> order[k] == k
    ensures ok ==> |order| == data.Length
    ensures ok && data.Length > 0 ==> (width > 0 && |colors| > 0 && forall i :: 0 <= i < data.Length ==>
      data[i] == OrderedPixel(colors, t, tables, width, draw, i, old(data[i]).r))
  {
    order := [];
    var index := 0;
    while index < data.Length
      invariant index <= data.Length && |order| == index
      invariant forall k :: 0 <= k < |order| ==> order[k] == k
      invariant index > 0 ==> width > 0 && |colors| > 0
      invariant forall i :: index <= i < data.Length ==> data[i] == old(data[i])
      invariant forall i :: 0 <= i < index ==>
        width > 0 && |colors| > 0 && data[i] == OrderedPixel(colors, t, tables, width, draw, i, old(data[i]).r)
    {
      if width == 0 {
        return false, order;
      }
      var i := index;
      var color := DitherOrderedHelper(data[index].r, colors, t, tables, index % width, index / width,
                                       (k: nat) => draw(i, k));
      if color.Panic? {
        return false, order;
      }
      data[index] := color.value;
      order := order + [index];
      index := index + 1;
    }
    ok := true;
  }

  /** `dither`: error diffusion is not implemented and panics; an ordered
      type runs `dither_ordered`. */
  method Dither(data: array<Pixel.RGB>, width: nat, height: nat, kind: DitheringType, tables: Tables,
                colors: seq<ColorMapElement>, draw: (nat, nat) -> real)
    returns (ok: bool)
    requires tables.Standard()
    modifies data
    ensures ok <==> (kind.Ordered? && (data.Length == 0 || (width > 0 && |colors| > 0)))
    ensures ok && data.Length > 0 ==> (width > 0 && |colors| > 0 && forall i :: 0 <= i < data.Length ==>
      data[i] == OrderedPixel(colors, kind.threshold, tables, width, draw, i, old(data[i]).r))
  {
    match kind {
      case ErrorDiffusion =>
        ok := false;
      case Ordered(t) =>
        ghost var order;
        ok, order := DitherOrdered(data, width, t, tables, colors, draw);
    }
  }

  /** For every type but `Rand` the helper ignores the draws, and its choice
      is the kernels' choice against the one threshold at the pixel. */
  lemma HelperIsFirstMatch(colors: seq<ColorMapElement>, value: real, t: ThresholdType, tables: Tables,
                           x: nat, y: nat, draw: nat -> real)
    requires tables.Standard() && |colors| > 0 && !t.Rand?
    ensures HelperMatch(colors, value, EntryThresholds(t, tables, x, y, draw), 0)
      == FirstMatch(colors, value, GetThreshold(t, tables, x, y, 0.0))
  {
    var th := GetThreshold(t, tables, x, y, 0.0);
    var thresholds := EntryThresholds(t, tables, x, y, draw);
    forall j: nat
      ensures thresholds(j) == th
    {
      DrawIgnored(t, tables, x, y, draw(j), 0.0);
    }
    HelperMatchUnique(colors, value, thresholds, 0, FirstMatch(colors, value, th));
  }

  /** For a Bayer type, the older in-place dither gives each pixel the color
      the corrected dithering engine gives it: the kernels' choice against
      the threshold of the corrected configuration (Bayer3 at the order of
      its table), read from the cache rows where they are stored. */
  lemma OrderedAgreesWithEngine(colors: seq<ColorMapElement>, t: ThresholdType, tables: Tables, width: nat,
                                draw: (nat, nat) -> real, i: nat, value: real)
    requires tables.Standard() && IsBayer(t) && |colors| > 0 && width > 0
    ensures Thresholding.TransformConfig(t, tables, colors).Ok?
    ensures OrderedPixel(colors, t, tables, width, draw, i, value)
      == ScalarColor(colors, value, BayerConfig.Threshold(Thresholding.TransformConfig(t, tables, colors).value,
                                                          i % width, i / width))
  {
    var x, y := i % width, i / width;
    HelperIsFirstMatch(colors, value, t, tables, x, y, (k: nat) => draw(i, k));
    Thresholding.TransformConfigMatchesLookup(t, tables, colors, x, y, 0.0);
  }
}
