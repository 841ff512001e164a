/** Grayscale conversion of `src/transform/grayscale.rs`: interleaved 8-bit
    pixels of `planes` channels (3 or 4) become one luminance value per
    pixel, over reals in place of `f32`. */
module Grayscale {
  import Num
  import Grid
  import opened Texture

  type Byte = b: nat | b < 256

  /** `SRGB_LUMA_F32` weights over a channel scale of 255. */
  function Luma(r: Byte, g: Byte, b: Byte): real
  {
    (r as real * 0.2126 + g as real * 0.7152 + b as real * 0.0722) / 255.0
  }

  /** Pixel `i` is the `planes`-byte chunk starting at `i * planes`. */
  lemma ChunkInside(i: nat, planes: nat, n: nat)
    requires planes > 0 && i < n / planes
    ensures i * planes + planes <= n
  {
    Num.MulMonotone(planes, i + 1, n / planes);
  }

  /** Luminance of pixel `i`: only its first three bytes count, so alpha is
      ignored. A pixel that runs past the input has none (0.0); the
      conversions below never reach one. */
  function LumaAt(input: seq<Byte>, planes: nat, i: nat): real
  {
    if i * planes + 3 <= |input| then Luma(input[i * planes], input[i * planes + 1], input[i * planes + 2]) else 0.0
  }

  /** The buffer `scalar_impl` leaves: one luminance per complete chunk of
      `planes` bytes (a trailing partial chunk is dropped), other slots
      untouched. */
  function Converted(input: seq<Byte>, planes: nat, prior: seq<real>): (r: seq<real>)
    requires planes >= 3 && |input| / planes <= |prior|
    ensures |r| == |prior|
  {
    seq(|prior|, i requires 0 <= i < |prior| => if i < |input| / planes then LumaAt(input, planes, i) else prior[i])
  }

  /** `scalar_impl`: `chunks_exact(planes)` over the input, writing `out[idx]`
      for chunk `idx`. It panics (an index out of bounds) unless the output
      holds a slot for every complete chunk. `planes` is 3 or 4 by the
      function's debug assertion. */
  method ScalarImpl(input: seq<Byte>, out: array<real>, planes: nat) returns (ok: bool)
    requires planes == 3 || planes == 4
    modifies out
    ensures ok <==> |input| / planes <= out.Length
    ensures ok ==> out[..] == Converted(input, planes, old(out[..]))
  {
    var count := |input| / planes;
    for idx := 0 to count
      invariant idx <= out.Length
      invariant forall k :: 0 <= k < idx ==> out[k] == LumaAt(input, planes, k)
      invariant forall k :: idx <= k < out.Length ==> out[k] == old(out[k])
    {
      if idx >= out.Length {
        return false;
      }
      ChunkInside(idx, planes, |input|);
      out[idx] := Luma(input[idx * planes], input[idx * planes + 1], input[idx * planes + 2]);
    }
    ok := true;
  }

  /** The buffer `scalar_par_impl` leaves: output rows of `width` pixels are
      zipped with input rows of `width * planes` bytes; both sides drop a
      partial last row, and the zip stops at the shorter side. */
  function RowsConverted(input: seq<Byte>, width: nat, planes: nat, prior: seq<real>): (r: seq<real>)
    requires width > 0 && planes >= 3
    ensures |r| == |prior|
  {
    var rows := Rows(input, width, planes, |prior|);
    seq(|prior|, i requires 0 <= i < |prior| => if i < rows * width then LumaAt(input, planes, i) else prior[i])
  }

  /** Number of rows `scalar_par_impl` converts. */
  function Rows(input: seq<Byte>, width: nat, planes: nat, outLen: nat): nat
    requires width > 0 && planes > 0
  {
    var outRows := outLen / width;
    var inRows := |input| / (width * planes);
    if outRows < inRows then outRows else inRows
  }

  /** The rows `scalar_par_impl` converts fit both buffers. */
  lemma RowsInside(input: seq<Byte>, width: nat, planes: nat, outLen: nat)
    requires width > 0 && planes > 0
    ensures Rows(input, width, planes, outLen) * width <= outLen
    ensures (width * planes) * Rows(input, width, planes, outLen) <= |input|
  {
    var rows := Rows(input, width, planes, outLen);
    var inRows := |input| / (width * planes);
    Num.MulMonotone(width, rows, outLen / width);
    Num.MulMonotone(width * planes, rows, inRows);
  }

  /** Row `row` of `rows` converted rows fits both buffers. */
  lemma RowFits(row: nat, rows: nat, width: nat, planes: nat, outLen: nat, n: nat)
    requires row < rows && rows * width <= outLen && (width * planes) * rows <= n
    ensures row * width + width <= outLen
    ensures (row * width + width) * planes <= n
  {
    Num.MulMonotone(width, row + 1, rows);
    assert row * width + width == (row + 1) * width;
    Num.MulMonotone(planes, (row + 1) * width, rows * width);
    assert planes * (rows * width) == (width * planes) * rows;
  }

  /** The body `scalar_par_impl` runs on one row: it writes the `width`
      pixels from `start` on, and nothing else. */
  method ConvertRow(input: seq<Byte>, out: array<real>, start: nat, width: nat, planes: nat)
    requires planes == 3 || planes == 4
    requires start + width <= out.Length && (start + width) * planes <= |input|
    modifies out
    ensures forall k :: start <= k < start + width ==> out[k] == LumaAt(input, planes, k)
    ensures forall k :: 0 <= k < out.Length && !(start <= k < start + width) ==> out[k] == old(out[k])
  {
    for pixel := start to start + width
      invariant forall k :: start <= k < pixel ==> out[k] == LumaAt(input, planes, k)
      invariant forall k :: 0 <= k < out.Length && !(start <= k < pixel) ==> out[k] == old(out[k])
    {
      Num.MulMonotone(planes, pixel + 1, start + width);
      out[pixel] := Luma(input[pixel * planes], input[pixel * planes + 1], input[pixel * planes + 2]);
    }
  }

  /** The row loop of `scalar_par_impl`: converts rows `0` to `rows - 1`
      and leaves the rest of the output alone. */
  method ConvertRows(input: seq<Byte>, out: array<real>, width: nat, planes: nat, rows: nat)
    requires planes == 3 || planes == 4
    requires rows * width <= out.Length && (width * planes) * rows <= |input|
    modifies out
    ensures forall k :: 0 <= k < rows * width ==> out[k] == LumaAt(input, planes, k)
    ensures forall k :: rows * width <= k < out.Length ==> out[k] == old(out[k])
  {
    var start := 0;
    for row := 0 to rows
      invariant start == row * width
      invariant forall k :: 0 <= k < start ==> out[k] == LumaAt(input, planes, k)
      invariant forall k :: start <= k < out.Length ==> out[k] == old(out[k])
    {
      RowFits(row, rows, width, planes, out.Length, |input|);
      ConvertRow(input, out, start, width, planes);
      start := start + width;
      assert start == (row + 1) * width;
    }
  }

  /** `scalar_par_impl` for a `(width, _, planes)` shape, one row after the
      other. A zero width panics in `par_chunks_exact_mut`. */
  method ScalarParImpl(input: seq<Byte>, out: array<real>, width: nat, planes: nat) returns (ok: bool)
    requires planes == 3 || planes == 4
    modifies out
    ensures ok <==> width > 0
    ensures ok ==> out[..] == RowsConverted(input, width, planes, old(out[..]))
  {
    if width == 0 {
      return false;
    }
    ghost var prior := out[..];
    var rows := Rows(input, width, planes, out.Length);
    RowsInside(input, width, planes, out.Length);
    ConvertRows(input, out, width, planes, rows);
    ghost var want := RowsConverted(input, width, planes, prior);
    forall k | 0 <= k < out.Length
      ensures out[k] == want[k]
    {
    }
    assert out[..] == want;
    ok := true;
  }

  /** On a `width` x `height` image whose buffers have exactly the image's
      size, the per-row conversion is the per-pixel one. */
  lemma {:induction false} RowsAgreeWithPixels(input: seq<Byte>, width: nat, height: nat, planes: nat, prior: seq<real>)
    requires width > 0 && (planes == 3 || planes == 4)
    requires |prior| == width * height && |input| == width * height * planes
    ensures |input| / planes <= |prior|
    ensures RowsConverted(input, width, planes, prior) == Converted(input, planes, prior)
  {
    Num.DivModUnique(|input|, planes, width * height, 0);
    Num.DivModUnique(|prior|, width, height, 0);
    assert |input| == (width * planes) * height;
    Num.DivModUnique(|input|, width * planes, height, 0);
    assert Rows(input, width, planes, |prior|) * width == |input| / planes;
  }

  /** `GrayscaleTransform`: which implementation runs. */
  datatype Strategy = Seq | Par

  /** `auto`: the row-parallel implementation from 450 pixels of width and
      202500 pixels in total, the sequential one below either bound. */
  function Auto(width: nat, height: nat): (s: Strategy)
    ensures s == Par <==> (width >= 450 && width * height >= 202500)
  {
    if width < 450 || width * height < 202500 then Seq else Par
  }

  /** `build` and the `GrayscaleTransformImpl` it returns: `Seq` runs
      `scalar_impl` with the input's plane count, `Par` runs
      `scalar_par_impl` with the input's shape. Neither has state, and both
      `prepare`s do nothing. */
  class GrayscaleTransformImpl {
    const strategy: Strategy

    constructor Build(s: Strategy)
      ensures strategy == s
    {
      strategy := s;
    }

    /** `apply` on an input view of `planes` channels. */
    method Apply(input: TextureSlice<Byte>, output: TextureMutSlice<real>, planes: nat)
      returns (ok: bool, rin: TextureSlice<Byte>, rout: TextureMutSlice<real>)
      requires planes == 3 || planes == 4
      modifies output.buffer
      ensures rin == input && rout == output
      ensures strategy == Seq ==> (ok <==> |input.buffer| / planes <= output.buffer.Length)
      ensures strategy == Seq && ok ==> output.buffer[..] == Converted(input.buffer, planes, old(output.buffer[..]))
      ensures strategy == Par ==> (ok <==> input.width > 0)
      ensures strategy == Par && ok ==> output.buffer[..] == RowsConverted(input.buffer, input.width, planes, old(output.buffer[..]))
    {
      match strategy {
        case Seq =>
          ok := ScalarImpl(input.buffer, output.buffer, planes);
        case Par =>
          ok := ScalarParImpl(input.buffer, output.buffer, input.width, planes);
      }
      rin, rout := input, output;
    }
  }

  /** The strategy `auto` picks does not change the result on an image whose
      buffers have its exact size. */
  method StrategiesAgree(input: seq<Byte>, width: nat, height: nat, planes: nat) returns (seqOut: seq<real>, parOut: seq<real>)
    requires width > 0 && (planes == 3 || planes == 4)
    requires |input| == width * height * planes
    ensures seqOut == parOut
    ensures |seqOut| == width * height
    ensures forall i :: 0 <= i < |seqOut| ==> seqOut[i] == LumaAt(input, planes, i)
  {
    var view := TextureSlice(width, height, input);
    var a := new real[width * height](_ => 0.0);
    var b := new real[width * height](_ => 0.0);
    ghost var zeros := a[..];
    assert b[..] == zeros;
    var s := new GrayscaleTransformImpl.Build(Seq);
    var p := new GrayscaleTransformImpl.Build(Par);
    RowsAgreeWithPixels(input, width, height, planes, zeros);
    var ok1, _, _ := s.Apply(view, TextureMutSlice(width, height, a), planes);
    var ok2, _, _ := p.Apply(view, TextureMutSlice(width, height, b), planes);
    seqOut, parOut := a[..], b[..];
    assert seqOut == Converted(input, planes, zeros);
    assert parOut == RowsConverted(input, width, planes, zeros);
  }
}
