/** Textures of `src/texture.rs`: an owned buffer with a width and a height,
    and the two borrowed views handed to transforms. Widths and heights are
    `u32` in the source; `width * height` is computed in `u32`. */
module Texture {
  import opened Outcome

  /** Exclusive bound of `u32`. */
  const U32Limit: nat := 0x1_0000_0000

  /** `TextureShape`: `(width, height)`. */
  datatype Shape = Shape(width: nat, height: nat)

  /** `TextureSlice`: a shared view. `TextureSlice::new` is the datatype
      constructor: it ties the buffer length to nothing. */
  datatype TextureSlice<T> = TextureSlice(width: nat, height: nat, buffer: seq<T>)
  {
    function ShapeOf(): (s: Shape)
      ensures s.width == width && s.height == height
    {
      Shape(width, height)
    }
  }

  /** `TextureMutSlice`: an exclusive view of a buffer the transform writes;
      `TextureMutSlice::new` is the datatype constructor, unchecked as well. */
  datatype TextureMutSlice<T> = TextureMutSlice(width: nat, height: nat, buffer: array<T>)
  {
    function ShapeOf(): (s: Shape)
      ensures s.width == width && s.height == height
    {
      Shape(width, height)
    }
  }

  /** `Texture<T>`: owns its buffer. */
  class Texture<T(0)> {
    const width: nat
    const height: nat
    const buffer: array<T>

    /** `Texture::new(w, h)`: `w * h` copies of `T::default()`, given as `zero`.
        The product must fit `u32`. */
    constructor New(w: nat, h: nat, zero: T)
      requires w * h < U32Limit
      ensures width == w && height == h
      ensures fresh(buffer) && buffer[..] == seq(w * h, _ => zero)
    {
      width, height := w, h;
      buffer := new T[w * h](_ => zero);
    }

    /** The three-argument `Texture::new(w, h, planes)` the pipeline uses:
        `w * h * planes` copies of the default value. */
    constructor NewPlanar(w: nat, h: nat, planes: nat, zero: T)
      ensures width == w && height == h
      ensures fresh(buffer) && buffer[..] == seq(w * h * planes, _ => zero)
    {
      width, height := w, h;
      buffer := new T[w * h * planes](_ => zero);
    }

    /** A texture owning a copy of `slice`. */
    constructor FromValues(w: nat, h: nat, slice: seq<T>)
      ensures width == w && height == h
      ensures fresh(buffer) && buffer[..] == slice
    {
      width, height := w, h;
      buffer := new T[|slice|](i requires 0 <= i < |slice| => slice[i]);
    }

    /** `shape()`. */
    function ShapeOf(): (s: Shape)
      reads this
      ensures s.width == width && s.height == height
    {
      Shape(width, height)
    }

    /** `as_texture_slice`: a shared view of the same shape and contents. */
    function AsTextureSlice(): (v: TextureSlice<T>)
      reads this, buffer
      ensures v.ShapeOf() == ShapeOf() && v.buffer == buffer[..]
    {
      TextureSlice(width, height, buffer[..])
    }

    /** `as_texture_mut_slice`: an exclusive view of the owned buffer. */
    function AsTextureMutSlice(): (v: TextureMutSlice<T>)
      reads this
      ensures v.ShapeOf() == ShapeOf() && v.buffer == buffer
    {
      TextureMutSlice(width, height, buffer)
    }

    /** `copy_from_slice`: panics, before copying anything, unless the
        lengths match; otherwise the buffer holds `slice`. */
    method CopyFromSlice(slice: seq<T>) returns (ok: bool)
      modifies buffer
      ensures ok <==> |slice| == buffer.Length
      ensures ok ==> buffer[..] == slice
      ensures !ok ==> buffer[..] == old(buffer[..])
    {
      if |slice| != buffer.Length {
        return false;
      }
      for i := 0 to |slice|
        invariant buffer[..i] == slice[..i]
      {
        buffer[i] := slice[i];
      }
      ok := true;
    }
  }

  /** `Texture::from_slice`: panics unless `slice` has `w * h` elements;
      the product must fit `u32`. */
  method FromSlice<T(0)>(w: nat, h: nat, slice: seq<T>) returns (r: Result<Texture<T>>)
    requires w * h < U32Limit
    ensures r.Ok? <==> |slice| == w * h
    ensures r.Ok? ==> (fresh(r.value) && fresh(r.value.buffer) &&
      r.value.ShapeOf() == Shape(w, h) && r.value.buffer[..] == slice)
  {
    if |slice| != w * h {
      return Panic("buffers don't match sizes");
    }
    var t := new Texture.FromValues(w, h, slice);
    r := Ok(t);
  }
}
