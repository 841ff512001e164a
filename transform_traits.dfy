/** The `TextureTransform` contract of `src/transform/traits.rs`: `prepare`
    sees the two shapes, `apply` writes the output view and hands both views
    back, and `once` is `prepare` followed by `apply`. Dafny has no traits
    here, so the contract is stated on a pointwise transform `Stage`, the
    shape of the repository's own test transform (`IncTransform` in
    `src/transform/pipe.rs`), generalised to any element function `f`. */
module TransformTraits {
  import opened Outcome
  import opened Texture

  /** One call on a transform, as the ghost call log records it. */
  datatype Event = Prepared(inShape: Shape, outShape: Shape) | Applied(inShape: Shape, outShape: Shape)

  /** What a pointwise transform leaves in an output buffer that held
      `prior`: `iter_mut().zip(input)` stops at the shorter of the two, so
      slots past the end of the input keep their old value. */
  function Mapped<A, B>(f: A -> B, input: seq<A>, prior: seq<B>): (r: seq<B>)
    ensures |r| == |prior|
    ensures forall i :: 0 <= i < |r| && i < |input| ==> r[i] == f(input[i])
    ensures forall i :: |input| <= i < |r| ==> r[i] == prior[i]
  {
    seq(|prior|, i requires 0 <= i < |prior| => if i < |input| then f(input[i]) else prior[i])
  }

  /** Two pointwise transforms in a row act as their composition on every
      slot both buffers cover. */
  lemma MappedComposes<A, B, C>(f: A -> B, g: B -> C, input: seq<A>, mid: seq<B>, out: seq<C>, i: nat)
    requires i < |input| && i < |mid| && i < |out|
    ensures Mapped(g, Mapped(f, input, mid), out)[i] == g(f(input[i]))
  {
  }

  /** A transform applying `f` to each element, remembering the shapes its
      last `prepare` saw. */
  class Stage<A, B> {
    const f: A -> B
    var inShape: Option<Shape>
    var outShape: Option<Shape>
    ghost var log: seq<Event>

    /** `Default`: no shapes seen yet. */
    constructor New(f: A -> B)
      ensures this.f == f && inShape == None && outShape == None && log == []
    {
      this.f := f;
      inShape, outShape := None, None;
      log := [];
    }

    /** `prepare`: records both shapes. */
    method Prepare(inS: Shape, outS: Shape)
      modifies this
      ensures inShape == Some(inS) && outShape == Some(outS)
      ensures log == old(log) + [Prepared(inS, outS)]
    {
      inShape, outShape := Some(inS), Some(outS);
      log := log + [Prepared(inS, outS)];
    }

    /** `apply`: writes `f` of each input element into the output view and
        returns the two views it was given. */
    method Apply(input: TextureSlice<A>, output: TextureMutSlice<B>)
      returns (rin: TextureSlice<A>, rout: TextureMutSlice<B>)
      modifies this`log, output.buffer
      ensures rin == input && rout == output
      ensures output.buffer[..] == Mapped(f, input.buffer, old(output.buffer[..]))
      ensures log == old(log) + [Applied(input.ShapeOf(), output.ShapeOf())]
    {
      var n := if |input.buffer| < output.buffer.Length then |input.buffer| else output.buffer.Length;
      for i := 0 to n
        invariant forall k :: 0 <= k < i ==> output.buffer[k] == f(input.buffer[k])
        invariant forall k :: i <= k < output.buffer.Length ==> output.buffer[k] == old(output.buffer[k])
        invariant log == old(log)
      {
        output.buffer[i] := f(input.buffer[i]);
      }
      log := log + [Applied(input.ShapeOf(), output.ShapeOf())];
      rin, rout := input, output;
    }

    /** `once`: `prepare` with exactly the two views' shapes, then `apply`,
        each once and in that order; returns what `apply` returns. */
    method Once(input: TextureSlice<A>, output: TextureMutSlice<B>)
      returns (rin: TextureSlice<A>, rout: TextureMutSlice<B>)
      modifies this, output.buffer
      ensures inShape == Some(input.ShapeOf()) && outShape == Some(output.ShapeOf())
      ensures log == old(log) + [Prepared(input.ShapeOf(), output.ShapeOf()), Applied(input.ShapeOf(), output.ShapeOf())]
      ensures rin == input && rout == output
      ensures output.buffer[..] == Mapped(f, input.buffer, old(output.buffer[..]))
    {
      Prepare(input.ShapeOf(), output.ShapeOf());
      rin, rout := Apply(input, output);
    }
  }
}
