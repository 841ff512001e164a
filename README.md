# Ordered dithering engine of ditherpunker, in Dafny

This project models the ordered-dithering core of ditherpunker, a Rust image
ditherer. An image is first reduced to one luminance value per pixel. Each
pixel's value is then compared with a per-pixel threshold taken from a Bayer
matrix tiled over the image. The pixel gets the first palette colour whose test
`value < threshold * scale + offset` passes, or the last colour when none does.

The model covers these parts:

- The Bayer configuration (`BayerConfig`): the masked matrix lookup and the
  cache of threshold rows tiled to the image width.
- The three per-pixel kernels of `multi_impl.rs` (scalar, fixed-lane and
  chunked-lane). SIMD vectors are sequences and lane bitmasks are sets. The
  kernels are modelled as written, looking for tiled row `y` at
  `(y & mask) << order`. They are also modelled corrected, looking for it
  where `cache_tiled_pattern` stores it, one image width apart.
- Strategy selection (`auto`, `lanes_fit`, `build`) and the transform that
  `build` returns.
- The `ThresholdType` entry point (`to_transform_config`, `to_transform`,
  `dither`) and `get_threshold`.
- The older in-place ordered dither of `src/dithering/mod.rs`.
- The grayscale transform, textures and their views, the transform contract
  (`prepare`, `apply`, `once`) and the two-stage `Pipeline`.
- The grid iterators, `precompute_tiled_rows`, `closest_pow_2`, and the RGB
  colour helpers.

Mutable state is modelled as such:

- Textures and transforms are classes whose methods modify their fields.
- Output buffers are arrays that the kernels fill row by row.
- The grid iterators are classes with a cursor.

Every kernel is proved to compute the same colour as the scalar reference scan.
The corrected kernels are proved to give each pixel the first passing palette
colour against the threshold at its position, and so is the corrected `dither`.
The kernels as written do so only for a 1x1 matrix or an image exactly one
matrix side wide. Elsewhere they read the wrong row or slice past the cache.
`dither` as written completes only on an empty buffer (see Findings).

Floating-point values (`f32`, `f64`) are exact reals. Threads (rayon) become a
sequential loop over the rows. The SIMD width the hardware reports is a
parameter, `laneHint`.

## Model

| member | source | states |
|---|---|---|
| Num.Pow2 | src/utils/num.rs:5-29 | a power of two is at least 1 |
| Num.Log2Bounds | src/utils/num.rs:5-29 | `2^log2(n) <= n < 2^(log2(n)+1)`: the position of the highest set bit brackets `n` |
| Num.Pow2Monotone | src/utils/num.rs:5-29 | powers of two grow with the exponent |
| Num.Log2OfPow2 | src/utils/num.rs:5-29 | the highest set bit of `2^k` is bit `k` |
| Num.BitAndLowMask | src/dithering/threshold/bayer_transform.rs:36-45 | masking with `2^k - 1` is the remainder modulo `2^k`, the identity the side mask relies on |
| Num.BitOrShifted | src/utils/pixel.rs:74-80 | or-ing a value below `2^k` into a multiple of `2^k` adds it |
| Num.BitOrScaled | src/utils/pixel.rs:74-80 | bitwise or commutes with a common left shift |
| Num.ClosestPow2Shape | src/utils/num.rs:5-29 | zero maps to 1; otherwise the result is the power of two just below or just above `n`; it fits the integer type; at the top bit it is the lower one |
| Num.ClosestPow2IsClosest | src/utils/num.rs:5-29 | no power of two that fits the type is strictly closer to `n` |
| Num.ClosestPow2PrefersLower | src/utils/num.rs:24-28 | on a tie between the neighbouring powers, the lower one is returned |
| Num.ClosestPow2OfPow2 | src/utils/num.rs:5-29 | a power of two is its own closest power of two |
| Num.ClosestPow2Examples | src/utils/num.rs:5-29 | the documented values: 0 gives 1, 6 gives 4, 12 gives 8, 24 gives 16 |
| Grid.IndexSplits | src/utils/iterator.rs:36-52 | splitting a flat pixel index by the width gives back column and row |
| Grid.IndexInGrid | src/utils/iterator.rs:121-160 | every index below `width * height` is the index of a pixel inside the grid |
| Grid.IndexBefore | src/utils/iterator.rs:36-52 | row-major order of pixels is the order of their flat indices |
| Grid.RowMajorUnique | src/utils/iterator.rs:36-52 | two complete row-major listings of the same grid are equal |
| Pixel.AddThenSub | src/utils/pixel.rs:15-39 | subtracting what was added restores the colour channels; addition is commutative |
| Pixel.AlphaRules | src/utils/pixel.rs:15-39 | a sum keeps the larger alpha and a difference the smaller |
| Pixel.Clamp | src/utils/pixel.rs:102-113 | the result lies in [0, 1], equals the input inside it, and saturates at each end |
| Pixel.AddLuminosity | src/utils/pixel.rs:96-100 | r, g and b each rise by the amount; alpha is unchanged |
| Pixel.SetValue | src/utils/pixel.rs:102-106 | r, g and b become one value: the argument inside `[0, 1]`, 0 below it, 1 above it; alpha is unchanged |
| Pixel.SetRgba | src/utils/pixel.rs:108-113 | the result is normalized; each channel is the argument's channel inside `[0, 1]`, 0 below it, 1 above it |
| Pixel.Grayscale | src/utils/pixel.rs:82-84 | the luma of a normalized colour is in [0, 1] |
| Pixel.FromU8 | src/utils/pixel.rs:44-51 | colours built from bytes are normalized |
| Pixel.TrimStart | src/utils/pixel.rs:53-64 | the result is no longer than the input and does not start with white space |
| Pixel.TrimStartIsSuffix | src/utils/pixel.rs:53-64 | the trimmed string is a suffix of the input, and everything removed is white space |
| Pixel.TrimEnd | src/utils/pixel.rs:53-64 | the result is no longer than the input and does not end with white space |
| Pixel.TrimEndIsPrefix | src/utils/pixel.rs:53-64 | the trimmed string is a prefix of the input, and everything removed is white space |
| Pixel.ToLower | src/utils/pixel.rs:54 | lower-casing keeps the length and maps each character |
| Pixel.RemoveHashes | src/utils/pixel.rs:54 | no '#' remains, a string without '#' is unchanged, and a single '#' vanishes while any other single character stays |
| Pixel.RemoveHashesAppend | src/utils/pixel.rs:54 | removing the hashes of a concatenation removes them from each part |
| Pixel.ParseHexPair | src/utils/pixel.rs:55-61 | a two-character field parses exactly when it is two hex digits or a '+' and a digit; the value is a byte |
| Pixel.FromCleanHex | src/utils/pixel.rs:55-62 | a cleaned string shorter than 6 panics on slicing; otherwise it parses exactly when all three fields do; a parsed colour is normalized and opaque |
| Pixel.FromCleanHexIgnoresTail | src/utils/pixel.rs:55-57 | only the first six cleaned characters matter |
| Pixel.CleanHexOfPlain | src/utils/pixel.rs:54 | six characters that are neither white space nor '#' clean to their lower-case form |
| Pixel.TrimKeeps | src/utils/pixel.rs:54 | a string that neither starts nor ends with white space is its own trim |
| Pixel.ChannelByte | src/utils/pixel.rs:66-72 | `(v * 255) as u8` is a byte, and for a unit channel it is the integer part of `v * 255` |
| Pixel.UpperHex | src/utils/pixel.rs:71 | `{:X}` of a byte has one character exactly when the byte is below 16 |
| Pixel.ToHex | src/utils/pixel.rs:66-72 | `to_hex` prints between 3 and 6 characters |
| Pixel.ToHexIsPaddedIffWide | src/utils/pixel.rs:66-72 | `to_hex` equals the zero-padded form exactly when every channel byte is at least 16 |
| Pixel.ToHexOfBlackDoesNotParse | src/utils/pixel.rs:53-72 | black prints as "000", which `from_hex` cannot read back |
| Pixel.FromHexOfPaddedHex | src/utils/pixel.rs:53-72 | round trip: the zero-padded hex of a byte-valued colour parses back to that colour, opaque |
| Pixel.PaddedHexOfBytes | src/utils/pixel.rs:66-72 | the padded hex of a byte-valued colour spells its three bytes |
| Pixel.FromHexOfPaddedBytes | src/utils/pixel.rs:53-64 | three padded hex bytes parse to those bytes over 255 |
| Pixel.ChannelByteOfByte | src/utils/pixel.rs:44-51 | a channel `k/255` converts back to byte `k` |
| Pixel.ToI32OfNormalized | src/utils/pixel.rs:74-80 | for a normalized colour `to_i32` is `0xRRGGBB` over the channel bytes |
| Pixel.PackI32Unpacks | src/utils/pixel.rs:74-80 | each channel byte can be read back from the packed value |
| Pixel.ChannelI32OfUnit | src/utils/pixel.rs:74-80 | on a channel in [0, 1] the `i32` and `u8` conversions agree |
| Pixel.PackBytes | src/utils/pixel.rs:74-80 | the shifts and ors of `to_i32` add the bytes at their positions, without overlap |
| BayerConfig.New | src/dithering/threshold/bayer_transform.rs:49-64 | succeeds exactly when the matrix has `(2^order)^2` entries; the result keeps the order, matrix and palette with mask `2^order - 1` |
| BayerConfig.CacheBayerComplement | src/dithering/threshold/bayer_transform.rs:67-69 | each entry plus its matrix entry is 1 |
| BayerConfig.BayerIdxIsModIndex | src/dithering/threshold/bayer_transform.rs:80-82 | the masked, shifted index is the row-major index of `(x mod side, y mod side)` and lies inside the matrix |
| BayerConfig.BayerIdxPeriodic | src/dithering/threshold/bayer_transform.rs:80-82 | the lookup repeats every `side` pixels in both directions |
| BayerConfig.CacheTiledPattern | src/dithering/threshold/bayer_transform.rs:72-76 | the cache holds `side` rows of `width` thresholds, entry `(x, y)` being the threshold of that pixel |
| BayerConfig.TiledPatternRow | src/dithering/threshold/bayer_transform.rs:72-76 | row `y mod side` of the cache holds the thresholds of every image row `y` |
| TiledRows.PrecomputeTiledRows | src/utils/transform.rs:8-22 | the cache has `tile * row` entries, entry `(x, y)` is `map(x, y, idx)`, and the map is called in row-major order with the running index |
| MultiImpl.FirstIn | src/dithering/threshold/multi_impl.rs:81-87 | the lowest set bit of a mask in a range: a member, with none below it |
| MultiImpl.FirstInUnique | src/dithering/threshold/multi_impl.rs:81-87 | any index with those properties is the one `FirstIn` returns |
| MultiImpl.FirstMatch | src/dithering/threshold/multi_impl.rs:37-42 | the chosen palette entry fails nothing before it and passes, or is the last entry |
| MultiImpl.FitScan | src/dithering/threshold/multi_impl.rs:124-137 | an index the chunked scan finds is inside the palette |
| MultiImpl.FixedColorIsScalar | src/dithering/threshold/multi_impl.rs:50-92 | with one lane per entry, the fixed-lane kernel picks the scalar kernel's colour |
| MultiImpl.ChunkLayout | src/dithering/threshold/bayer_transform.rs:683-730 | chunks hold 1 to `lanes` entries, all full but the last, and together cover the palette |
| MultiImpl.CeilDivPositive | src/dithering/threshold/multi_impl.rs:95-142 | a non-empty palette needs at least one chunk |
| MultiImpl.ChunkBounds | src/dithering/threshold/bayer_transform.rs:683-730 | each chunk starts at `iter * lanes` and ends inside the palette, where the next one starts |
| MultiImpl.ChunkMask | src/dithering/threshold/multi_impl.rs:127-136 | a usable lane of a chunk is set exactly when its palette entry passes |
| MultiImpl.ChunkStep | src/dithering/threshold/multi_impl.rs:125-137 | one chunk's lowest usable set lane is the first passing entry in that chunk |
| MultiImpl.FitScanAgrees | src/dithering/threshold/multi_impl.rs:95-142 | from any chunk on, the chunked scan finds the first passing entry from that chunk's start |
| MultiImpl.FitColorIsScalar | src/dithering/threshold/multi_impl.rs:95-142 | with the pass data of `SimdFit::new`, the chunked kernel never indexes out of range and picks the scalar kernel's colour |
| MultiImpl.ClassifyScalar | src/dithering/threshold/multi_impl.rs:37-42 | the inner loop returns the first passing entry's colour, or the last colour |
| MultiImpl.ClassifyFixed | src/dithering/threshold/multi_impl.rs:75-87 | the lane comparison and mask scan return the fixed-lane choice |
| MultiImpl.ClassifyFit | src/dithering/threshold/multi_impl.rs:121-137 | the chunk loop returns the chunked choice, or the out-of-range panic |
| MultiImpl.Classify | src/dithering/threshold/multi_impl.rs:14-142 | dispatch gives each kernel's choice for one pixel |
| MultiImpl.PixelAt | src/dithering/threshold/multi_impl.rs:31-38 | with either row layout, output slot `y * width + x` reads input `y * width + x` and entry `x` of row `y`'s tiled slice |
| MultiImpl.RunRow | src/dithering/threshold/multi_impl.rs:26-45 | one row, with its tiled slice found by the given layout (as written, `(y & mask) << order`), fails exactly when that slice or an input pixel is missing; otherwise each slot gets its pixel's colour; other rows are untouched |
| MultiImpl.RowCount | src/dithering/threshold/multi_impl.rs:23-25 | `chunks_mut(width)` yields a row `y` exactly when `y * width` is inside the buffer |
| MultiImpl.RunKernel | src/dithering/threshold/multi_impl.rs:14-47 | the row walk with the given layout succeeds exactly when every row has its data, and then each output slot holds its pixel's colour |
| MultiImpl.ScalarPar | src/dithering/threshold/multi_impl.rs:14-47 | `scalar_par` as written, with tiled rows one matrix side apart: completes exactly when defined, writing each pixel's first passing colour against the entry it reads |
| MultiImpl.FixedPar | src/dithering/threshold/multi_impl.rs:50-92 | `fixed_par` as written, with tiled rows one matrix side apart: completes exactly when defined, writing each pixel's fixed-lane colour |
| MultiImpl.FitPar | src/dithering/threshold/multi_impl.rs:95-142 | `fit_par` as written, with tiled rows one matrix side apart: completes exactly when defined, writing each pixel's chunked colour |
| MultiImpl.TiledLookup | src/dithering/threshold/bayer_transform.rs:71-76 | in the cache `cache_tiled_pattern` writes, a layout that finds the rows where they are stored gives row `y` a whole slice whose entry `x` is pixel `(x, y)`'s threshold |
| MultiImpl.KernelComputesDither | src/dithering/threshold/multi_impl.rs:14-142 | given the tiled cache and the kernel data `build` makes, every kernel that reads the rows where they are stored runs and writes the first passing colour against the pixel's threshold; that is always the corrected layout, and the layout as written only where `ReadsCacheRowsExactly` allows |
| MultiImpl.PixelIsDither | src/dithering/threshold/multi_impl.rs:14-142 | the same for one pixel: it gets the first passing colour against its threshold |
| MultiImpl.SourceRowStartAgrees | src/dithering/threshold/multi_impl.rs:27-29 | for a 1x1 matrix or an image one matrix side wide, the row start as written is where the cache stores the row |
| MultiImpl.SourceRowStartDiffers | src/dithering/threshold/multi_impl.rs:27-29 | for any other matrix and width, row 1 starts one matrix side into the cache as written but is stored one image width in |
| MultiImpl.ReadsCacheRowsExactly | src/dithering/threshold/multi_impl.rs:27-29 | the kernels as written find every tiled row exactly for a 1x1 matrix or an image one matrix side wide; the corrected layout always does |
| MultiImpl.Example2x2Thresholds | src/dithering/threshold/bayer_transform.rs:80-82 | the 2x2 example's thresholds by position |
| MultiImpl.Example2x2WideCache | src/dithering/threshold/bayer_transform.rs:72-76 | the 2x2 example's cache for a 4-pixel-wide image |
| MultiImpl.Example2x2NarrowCache | src/dithering/threshold/bayer_transform.rs:72-76 | the 2x2 example's cache for a 1-pixel-wide image |
| MultiImpl.DefaultMapAtHalf | src/dithering/threshold/multi_impl.rs:37-42 | on black and white, 0.5 becomes black at threshold 1 and white at threshold 0.25 |
| MultiImpl.SourceRowStartMisreads | src/dithering/threshold/multi_impl.rs:27-29 | as written, pixel (0, 1) of a uniform 0.5 image 4 pixels wide comes out black on the 2x2 matrix, where the corrected layout gives the white its threshold 0.25 calls for |
| MultiImpl.SourceRowStartLeavesCache | src/dithering/threshold/multi_impl.rs:27-29 | as written, the kernel on a 1-pixel-wide, 2-pixel-tall image panics slicing past the cache; the corrected layout completes |
| BayerTransform.Decimal | src/dithering/threshold/bayer_transform.rs:100-108 | a lane count renders as a non-empty digit string |
| BayerTransform.DecimalRoundTrip | src/dithering/threshold/bayer_transform.rs:100-108 | reading the rendered number back gives the number |
| BayerTransform.Name | src/dithering/threshold/bayer_transform.rs:184-190 | `name` is the `Display` string without its lane count |
| BayerTransform.DisplayInjective | src/dithering/threshold/bayer_transform.rs:100-108 | different strategies display differently, lanes included |
| BayerTransform.ScalarDisplaysApart | src/dithering/threshold/bayer_transform.rs:100-108 | only the scalar strategy displays as "scalar" |
| BayerTransform.FixedDisplaysApart | src/dithering/threshold/bayer_transform.rs:100-108 | "simd-fixed" names never clash with "simd" names |
| BayerTransform.LanesFitIsLargestPow2 | src/dithering/threshold/bayer_transform.rs:172-180 | `lanes_fit(n)` is the largest power of two not above `n` |
| BayerTransform.LanesFit | src/dithering/threshold/bayer_transform.rs:172-180 | the halving loop from `closest_pow_2` ends at that power of two |
| BayerTransform.LanesFitExamples | src/dithering/threshold/bayer_transform.rs:172-180 | 3 gives 2, 5 and 7 give 4, 12 gives 8, 24 gives 16 |
| BayerTransform.AutoSelects | src/dithering/threshold/bayer_transform.rs:112-142 | fixed lanes exactly when the palette matches the hint (at least 2 entries); fitted lanes exactly for other palettes of 2 to 31 entries; scalar otherwise |
| BayerTransform.AutoBuilds | src/dithering/threshold/bayer_transform.rs:112-167 | what `auto` selects can always be built on a supported hint |
| BayerTransform.SimdFixedNew | src/dithering/threshold/bayer_transform.rs:323-347 | panics unless the palette has exactly `lanes` entries; the lanes hold each entry's scale and offset |
| BayerTransform.SimdFitNew | src/dithering/threshold/bayer_transform.rs:683-730 | `ceil(n / lanes)` passes, chunk `i` covering entries `[i * lanes, i * lanes + size)` |
| BayerTransform.PassSizesSum | src/dithering/threshold/bayer_transform.rs:683-730 | the pass sizes add up to the palette length |
| BayerTransform.BayerTransformImpl.New | src/dithering/threshold/bayer_transform.rs:258-263 | a new transform holds the configuration with an empty cache |
| BayerTransform.BayerTransformImpl.Prepare | src/dithering/threshold/bayer_transform.rs:289-296 | `prepare` rebuilds the tiled cache for the input width |
| BayerTransform.BayerTransformImpl.Apply | src/dithering/threshold/bayer_transform.rs:209-287 | `apply` as written runs the variant's kernel with tiled rows one matrix side apart: it completes exactly when that kernel is defined, then writes its colours |
| BayerTransform.BayerTransformImpl.ApplyCorrected | src/dithering/threshold/bayer_transform.rs:209-287 | `apply` with the corrected kernels, which read tiled rows one image width apart: completes exactly when defined, then writes their colours |
| BayerTransform.BayerTransformImpl.Once | src/transform/traits.rs:24-35 | `once` prepares, then applies as written: it completes exactly when the kernel is defined; when the kernels find the cache rows and the palette is non-empty, every pixel gets the first passing colour at its threshold |
| BayerTransform.Build | src/dithering/threshold/bayer_transform.rs:148-167 | succeeds exactly for scalar and for 2, 4, 8 or 16 lanes (fixed lanes needing a matching palette); the kernel matches the strategy |
| BayerTransform.SmallPow2Supported | src/dithering/threshold/bayer_transform.rs:148-167 | 2, 4, 8 and 16 are the lane counts with an implementation |
| BayerTransform.LanesFitOfSupported | src/dithering/threshold/bayer_transform.rs:172-180 | fitting a supported lane count leaves it unchanged |
| BayerTransform.ClosestOfPaletteAtLeastTwo | src/utils/num.rs:5-29 | the closest power of two to a palette of at least two entries is at least 2 |
| BayerTransform.LanesFitWithinSupported | src/dithering/threshold/bayer_transform.rs:137-141 | bounded by a supported hint, the fit is a supported count not above the hint |
| BayerTransform.AutoWithinUsesHardware | src/dithering/threshold/bayer_transform.rs:112-142 | with the hint as bound, every palette of 2 or more entries gets a buildable SIMD strategy within the hardware width |
| BayerTransform.AutoWithinBuilds | src/dithering/threshold/bayer_transform.rs:112-167 | the bounded selection can always be built |
| BayerTransform.AutoIgnoresHardwareWidth | src/dithering/threshold/bayer_transform.rs:137 | as written, a 32-entry palette on 16 lanes falls back to scalar and a 12-entry palette gets 8 lanes on 4-lane hardware |
| ThresholdLookup.ModIndex | src/dithering/threshold/mod.rs:24-28 | the index `y % s * s + x % s` lies inside the table |
| ThresholdLookup.BayerShape | src/dithering/threshold/mod.rs:24-27 | each Bayer table has side `2^order` and `side^2` entries |
| ThresholdLookup.BayerLookupIsConfigThreshold | src/dithering/threshold/mod.rs:24-27 | `get_threshold` of a Bayer type is the threshold of the configuration built from its table |
| ThresholdLookup.LookupPeriodic | src/dithering/threshold/mod.rs:24-28 | Bayer and blue-noise thresholds repeat with the table's side |
| ThresholdLookup.DrawIgnored | src/dithering/threshold/mod.rs:21-30 | only `Rand` depends on the random draw |
| Thresholding.SourceTransformConfig | src/dithering/threshold.rs:52-61 | a successful configuration is valid and holds the type's table and the palette |
| Thresholding.SourceConfigOrders | src/dithering/threshold.rs:52-61 | as written, Bayer0 to Bayer2 configure; Bayer3's 16x16 table at order 3 panics, and so do `Rand` and `BlueNoise` |
| Thresholding.TransformConfig | src/dithering/threshold.rs:52-61 | a successful configuration is valid and holds the type's table and the palette |
| Thresholding.TransformConfigMatchesLookup | src/dithering/threshold.rs:52-61 | every Bayer type configures, with thresholds equal to `get_threshold`; the others panic |
| Thresholding.ToTransform | src/dithering/threshold.rs:44-50 | `to_transform` as written (`to_transform_config`, then `auto`): the transform exists exactly when that configuration exists and the selected strategy builds |
| Thresholding.SourceTransformableExactly | src/dithering/threshold.rs:44-61 | as written, with the standard tables and a supported hint, the transform builds exactly for Bayer0 to Bayer2 |
| Thresholding.ToCorrectedTransform | src/dithering/threshold.rs:44-61 | corrected `to_transform` (Bayer3 at order 4, lanes bounded by the hardware width): the transform exists exactly when that configuration exists and the strategy builds |
| Thresholding.GrayscaleOf | src/dithering/threshold.rs:29-42 | one luma value per pixel |
| Thresholding.EmptyCacheFails | src/dithering/threshold.rs:29-42 | with an empty cache the kernels complete only on an empty image |
| Thresholding.SourceDither | src/dithering/threshold.rs:29-42 | as written, `dither` completes exactly when the transform builds (never for Bayer3), the width and palette are non-empty and the buffer is empty |
| Thresholding.Dither | src/dithering/threshold.rs:29-42 | corrected `dither` (corrected transform, `prepare`, corrected kernels) succeeds exactly when the transform builds and the width and palette are non-empty; each pixel gets the first passing colour for its luma at its threshold |
| Thresholding.PrepareAndApply | src/dithering/threshold.rs:33-41 | the corrected transform step of `dither`: `prepare`, then the corrected `apply`; it dithers every pixel when the palette is non-empty |
| Thresholding.AppliedIsDither | src/dithering/threshold.rs:33-41 | what the corrected kernels wrote is the scalar dither of the grayscale input |
| Thresholding.DitherSucceeds | src/dithering/threshold.rs:29-61 | on a supported hint, the corrected transform builds for every Bayer type with a non-empty palette |
| Ordered.HelperMatch | src/dithering/mod.rs:50-66 | the helper's entry fails nothing before it and passes, or is the last entry |
| Ordered.HelperMatchUnique | src/dithering/mod.rs:50-66 | any entry with those properties is the helper's |
| Ordered.DitherOrderedHelper | src/dithering/mod.rs:50-66 | the scan returns that entry's colour, and panics on an empty palette |
| Ordered.DitherOrdered | src/dithering/mod.rs:29-48 | pixels are rewritten in index order; the call completes exactly when the buffer is empty or the width and palette are not; each pixel gets the helper's colour for its old red channel at `(i % width, i / width)` |
| Ordered.Dither | src/dithering/mod.rs:16-27 | error diffusion panics; ordered dithering behaves as `dither_ordered` |
| Ordered.HelperIsFirstMatch | src/dithering/mod.rs:50-66 | for every type but `Rand`, the helper's choice is the engine's first match |
| Ordered.OrderedAgreesWithEngine | src/dithering/mod.rs:29-66 | for a Bayer type, the older dither and the corrected transform engine pick the same colour for each pixel value: the first passing colour at the threshold of the corrected configuration (Bayer3 at order 4) |
| Grayscale.ChunkInside | src/transform/grayscale.rs:108-120 | pixel `i`'s chunk lies inside the input |
| Grayscale.Converted | src/transform/grayscale.rs:108-120 | keeps the output length |
| Grayscale.ScalarImpl | src/transform/grayscale.rs:108-120 | completes exactly when the output holds all complete chunks; slot `i` becomes pixel `i`'s luma, the rest is untouched |
| Grayscale.RowsConverted | src/transform/grayscale.rs:123-142 | keeps the output length |
| Grayscale.RowsInside | src/transform/grayscale.rs:123-142 | the converted rows fit both buffers |
| Grayscale.ConvertRow | src/transform/grayscale.rs:131-141 | one row's slots become their pixels' luma; nothing else changes |
| Grayscale.ConvertRows | src/transform/grayscale.rs:123-142 | the first `rows` rows are converted, the rest untouched |
| Grayscale.ScalarParImpl | src/transform/grayscale.rs:123-142 | completes exactly on a positive width and converts the rows both buffers hold |
| Grayscale.RowsAgreeWithPixels | src/transform/grayscale.rs:271-293 | on exactly sized buffers, row-wise and pixel-wise conversion agree |
| Grayscale.Auto | src/transform/grayscale.rs:14-22 | rows in parallel exactly from 450 pixels of width and 202500 pixels |
| Grayscale.GrayscaleTransformImpl.Build | src/transform/grayscale.rs:24-29 | keeps the chosen strategy |
| Grayscale.GrayscaleTransformImpl.Apply | src/transform/grayscale.rs:37-103 | each strategy writes its conversion and completes under its own condition |
| Grayscale.StrategiesAgree | src/transform/grayscale.rs:271-293 | both strategies give every pixel its luma, and equal buffers |
| Texture.TextureSlice.ShapeOf | src/texture.rs:16-19 | the shape is the view's width and height |
| Texture.TextureMutSlice.ShapeOf | src/texture.rs:16-19 | the shape is the view's width and height |
| Texture.Texture.New | src/texture.rs:108-116 | a fresh `w * h` buffer of default values |
| Texture.Texture.NewPlanar | src/transform/pipe.rs:99-105 | the 3-argument `Texture::new` the pipeline calls: a fresh `w * h * planes` buffer of default values |
| Texture.Texture.FromValues | src/texture.rs:93-106 | a fresh buffer holding a copy of the values |
| Texture.Texture.ShapeOf | src/texture.rs:16-19 | the shape is the texture's width and height |
| Texture.Texture.AsTextureSlice | src/texture.rs:76-82 | a shared view of the same shape and contents |
| Texture.Texture.AsTextureMutSlice | src/texture.rs:84-90 | an exclusive view of the same shape over the owned buffer |
| Texture.Texture.CopyFromSlice | src/texture.rs:118-124 | copies exactly when the lengths match, and otherwise changes nothing |
| Texture.FromSlice | src/texture.rs:93-106 | succeeds exactly when the slice has `w * h` elements, owning a copy |
| TransformTraits.Mapped | src/transform/traits.rs:11-19 | a pointwise transform writes `f` of each input element and leaves slots past the input |
| TransformTraits.MappedComposes | src/transform/pipe.rs:117-125 | two pointwise transforms in a row act as their composition |
| TransformTraits.Stage.Prepare | src/transform/traits.rs:21-22 | `prepare` records both shapes |
| TransformTraits.Stage.Apply | src/transform/traits.rs:11-19 | `apply` maps the input into the output and returns both views |
| TransformTraits.Stage.Once | src/transform/traits.rs:24-35 | `once` prepares with the two views' shapes, then applies |
| TransformPipe.Pipeline.WithBuffer | src/transform/pipe.rs:83-89 | stores the two transforms and the given intermediate |
| TransformPipe.Pipeline.New | src/transform/pipe.rs:99-105 | a fresh default intermediate of the given shape |
| TransformPipe.Pipeline.Apply | src/transform/pipe.rs:117-125 | input through the first transform into the intermediate, then through the second into the output |
| TransformPipe.Pipeline.Prepare | src/transform/pipe.rs:128-132 | the intermediate's shape is the first's output shape and the second's input shape |
| TransformPipe.Pipe | src/transform/pipe.rs:19-31 | delegates to `Pipeline::new` |
| TransformPipe.PipeWithBuffer | src/transform/pipe.rs:33-43 | delegates to `Pipeline::with_buffer` |
| TransformPipe.PipeWithShape | src/transform/pipe.rs:45-55 | a pipeline over a fresh default texture of the shape |
| TransformPipe.PipeThrough | src/transform/pipe.rs:172-183 | piping views through a transform applies it |
| TransformPipe.PipelineCascadesApply | src/transform/pipe.rs:193-205 | two `+1` stages turn zeros into twos |
| TransformPipe.PipelineCascadesPrepare | src/transform/pipe.rs:208-218 | `prepare` hands the 4x4 intermediate shape to both stages |
| GridIteration.GridIterator.New | src/utils/iterator.rs:21-29 | the cursor starts at pixel 0 |
| GridIteration.GridIterator.Next | src/utils/iterator.rs:36-52 | yields the cursor and advances it in row-major order, and yields nothing once past the last row |
| GridIteration.GridIterator.Len | src/utils/iterator.rs:63-65 | the remaining count, or a subtraction overflow past the end |
| GridIteration.GridIterator.SizeHint | src/utils/iterator.rs:55-58 | the exact bounds `(len, Some(len))` |
| GridIteration.PrefixStep | src/utils/iterator.rs:36-52 | each step extends the row-major listing by one pixel |
| GridIteration.Drain | src/utils/iterator.rs:36-65 | a drained iterator lists every pixel in row-major order with `len` counting down; width 0 yields one item per row |
| GridIteration.DrainGrid | src/utils/iterator.rs:36-65 | the positive-width drain is row-major with exact lengths |
| GridIteration.DrainColumnless | src/utils/iterator.rs:36-52 | on width 0, the iterator yields `(0, y, y)` for each row |
| GridIteration.FromGrid | src/utils/iterator.rs:68-72 | keeps width and height |
| GridIteration.ParGridWorker.New | src/utils/iterator.rs:127-133 | a worker starts without state |
| GridIteration.ParGridWorker.Step | src/utils/iterator.rs:134-156 | yields `(idx % width, idx / width, idx)` unless the index went backwards |
| GridIteration.RunWorker | src/utils/iterator.rs:121-160 | one thread's run succeeds exactly on ascending indices |
| GridIteration.ParIter | src/utils/iterator.rs:121-160 | one thread over the whole range lists the grid in row-major order |
| GridIteration.WalksAgree | src/utils/iterator.rs:10-160 | the sequential and the parallel walk give the same items |

## Left out

- Floating point: `f32` and `f64` are exact reals. Rounding and NaN are not modelled.
- Threads and SIMD:
  - The rayon row loops run sequentially, in row order.
  - SIMD vectors are sequences and lane bitmasks are sets.
  - CPU-feature detection, `multiversion` and `suggested_simd_width` are replaced by the `laneHint` parameter.
- The constant tables `BAYER0` to `BAYER3` and `BLUE_NOISE` (`src/dithering/threshold/matrices.rs`, `bayer.rs`) are not part of this model. They are a `Tables` parameter, and only their sizes are assumed.
- The random draw of `ThresholdType::Rand` (`rand::rng()`) is a parameter.
- Image I/O: decoding, encoding and conversion to and from the `image` crate are not modelled.
- Integer widths:
  - Only two kinds of value are bounded by a `requires`. The `u32` product `w * h` in Texture.Texture.New and Texture.FromSlice must stay below 2^32. Palette lengths and lane hints must fit a `usize` where `closest_pow_2` needs that bound.
  - Wrap-around is modelled only in `to_i32`.
  - Other `usize` arithmetic is unbounded in the model, so the debug-build overflow panic or release-build wrap-around it would hit is not modelled. Such values do not arise for images that fit in memory. Each affected member has its own line below.
- BayerConfig.New: `1 << order` and `side * side` are unbounded, where the source overflows from order 32 (64-bit `usize`) up.
- GridIteration.GridIterator.Len: `width * height` is unbounded, where the source overflows for a grid of more than 2^64 cells.
- GridIteration.GridIterator.SizeHint: it is built on `Len`, so it is unbounded in the same way.
- GridIteration.ParIter: the range `0..width * height` is unbounded in the same way.
- Grayscale.Auto: the area `width * height` it compares with 202500 is unbounded.
- TiledRows.PrecomputeTiledRows: the buffer size `tileSize * rowSize` is unbounded.
- `debug_assert` checks become `requires`, such as equal shapes in `prepare` and the plane count in the grayscale functions.
- `DitheringType::ErrorDiffusion`'s payload is dropped; only its panic is modelled.
- Transforms:
  - A general `TextureTransform` is the pointwise `Stage` class, the shape of the repository's test transform.
  - A `Pipeline` is not itself usable as a stage in another pipeline.
- `Texture::new_uninitialized` and `colors_len` are not modelled; uninitialised buffers are filled with a default value.
- Grayscale.GrayscaleTransformImpl.Apply: the source calls `input.planes()`, which `TextureSlice` does not have; the plane count is a parameter.
- `src/dithering/threshold.rs` and `multi_impl.rs` name the configuration `ThresholdConfig` and the strategy `ThresholdImpl`, from a `threshold_transform` module that is not part of this model. Both are modelled as `BayerConfig` and `BayerStrategy` of `bayer_transform.rs`, which have the same fields and operations.
- The threshold entry point is modelled with the 3-argument `TextureSlice::new` of `src/texture.rs:202-210`, not the 4-argument call in `src/dithering/threshold.rs`.
- GridIteration.Drain: on width 0 the iterator yields one item per row, and `len` then overflows; this is stated as written rather than excluded.
- BayerTransform.BayerTransformImpl.Once: it requires equal input and output shapes, as `prepare`'s debug assertion does.
- Pixel.IsSpace: only ASCII white space counts. Rust's `trim` also removes other Unicode white space, such as U+00A0.
- Pixel.TrimStart: trims the ASCII white space of `IsSpace` only, for the same reason.
- Pixel.TrimEnd: trims the ASCII white space of `IsSpace` only, for the same reason.
- Pixel.ToLower: lower-cases only `A` to `Z`. Rust's `to_lowercase` maps every Unicode letter and can change the length.
- Pixel.FromCleanHex: slices by character. The source slices bytes, so a multi-byte character such as in "aé1234" makes it panic where the model reads characters.
- Texture.Shape: the source's `TextureShape` is `(width, height)`. The `(w, h, planes)` shapes in the pipeline tests (`src/transform/pipe.rs:194-216`) are not modelled; the plane count is a parameter where it matters.
- Texture.Texture.NewPlanar: `src/texture.rs` defines only the 2-argument `Texture::new`. The 3-argument call in `src/transform/pipe.rs:103` is modelled by what the pipeline needs from it.
- BayerTransform.BayerTransformImpl.Once: its dithering promise is stated only where the kernels as written find the cache rows, a 1x1 matrix or an image one matrix side wide. Elsewhere they read the wrong row or panic (see Findings).
- The `SimdFixed` and `SimdFit` `apply`/`prepare` methods share the scalar variant's contract. They differ only in the kernel they call.

## Findings

| source | as written | input that shows it | evidently intended | confidence | as-written member | corrected member |
|---|---|---|---|---|---|---|
| src/dithering/threshold/multi_impl.rs:27-29 | the kernels start tiled row `y` at `(y & mask) << order`, but `cache_tiled_pattern` stores rows `width` apart | 2x2 matrix, black/white palette, 4-pixel-wide image: pixel (0, 1) of value 0.5 reads threshold 1.0 instead of 0.25 and turns black instead of white; on a 1-pixel-wide image row 1 slices past the cache | row start `(y & mask) * width` | high, not executed | MultiImpl.SourceRowStartMisreads | MultiImpl.KernelComputesDither |
| src/dithering/threshold/bayer_transform.rs:137 | `auto` calls `lanes_fit(size_hint)` with the palette size, so the lane hint plays no part | 32 entries on 16-lane hardware give `Scalar`; 12 entries on 4-lane hardware give 8 lanes | lanes bounded by the hardware width | medium, not executed | BayerTransform.AutoIgnoresHardwareWidth | BayerTransform.AutoWithinUsesHardware |
| src/dithering/threshold.rs:58 | `Bayer3` is configured at order 3 with its 16x16 table | `ThresholdType::Bayer3`: `BayerConfig::new` asserts `8 * 8 == 256` and panics | order 4 | high, not executed | Thresholding.SourceConfigOrders | Thresholding.TransformConfigMatchesLookup |
| src/dithering/threshold.rs:29-42 | `dither` calls `apply` without `prepare`, so the tiled cache is empty | any non-empty image: slicing the empty cache panics | `prepare` with the texture shapes before `apply` | high, not executed | Thresholding.SourceDither | Thresholding.Dither |
| src/utils/pixel.rs:71 | `to_hex` formats each byte with `{:X}`, without zero padding | black prints "000", and `from_hex("000")` panics on slicing | `{:02X}`, so that `from_hex(to_hex(c))` gives `c` back | high, not executed | Pixel.ToHexOfBlackDoesNotParse | Pixel.FromHexOfPaddedHex |
