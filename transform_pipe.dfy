/** `Pipeline` of `src/transform/pipe.rs`: two transforms chained through an
    intermediate texture `b` the pipeline owns and reuses. The transforms
    are pointwise `Stage`s (see `TransformTraits`). */
module TransformPipe {
  import opened Outcome
  import opened Texture
  import opened TransformTraits

  class Pipeline<A, B(0), C> {
    const t1: Stage<A, B>
    const t2: Stage<B, C>
    /** Fixed at construction: `apply` and `prepare` never reallocate or
        reshape it. */
    const b: Texture<B>

    /** The two transforms are moved into the pipeline, so they are two
        distinct objects. */
    predicate Valid()
      reads this
    {
      t1 as object != t2 as object
    }

    /** `Pipeline::with_buffer`: stores the given intermediate texture. */
    constructor WithBuffer(t1: Stage<A, B>, t2: Stage<B, C>, intermediate: Texture<B>)
      requires t1 as object != t2 as object
      ensures this.t1 == t1 && this.t2 == t2 && b == intermediate && Valid()
    {
      this.t1, this.t2, b := t1, t2, intermediate;
    }

    /** `Pipeline::new(t1, t2, width, height, planes)`: a fresh intermediate of
        `width * height * planes` default values. */
    constructor New(t1: Stage<A, B>, t2: Stage<B, C>, width: nat, height: nat, planes: nat, zero: B)
      requires t1 as object != t2 as object
      ensures this.t1 == t1 && this.t2 == t2 && Valid()
      ensures fresh(b) && fresh(b.buffer) && b.ShapeOf() == Shape(width, height)
      ensures b.buffer[..] == seq(width * height * planes, _ => zero)
    {
      this.t1, this.t2 := t1, t2;
      b := new Texture.NewPlanar(width, height, planes, zero);
    }

    /** `apply`: input through `t1` into `b`, then `b` through `t2` into the
        output; returns the caller's input view and the output view `t2`
        hands back. */
    method Apply(input: TextureSlice<A>, output: TextureMutSlice<C>)
      returns (rin: TextureSlice<A>, rout: TextureMutSlice<C>)
      requires Valid()
      requires output.buffer as object != b.buffer as object
      modifies t1`log, t2`log, b.buffer, output.buffer
      ensures rin == input && rout == output
      ensures b.buffer[..] == Mapped(t1.f, input.buffer, old(b.buffer[..]))
      ensures output.buffer[..] == Mapped(t2.f, b.buffer[..], old(output.buffer[..]))
      ensures t1.log == old(t1.log) + [Applied(input.ShapeOf(), b.ShapeOf())]
      ensures t2.log == old(t2.log) + [Applied(b.ShapeOf(), output.ShapeOf())]
    {
      var r1, _ := t1.Apply(input, b.AsTextureMutSlice());
      var _, r2 := t2.Apply(b.AsTextureSlice(), output);
      rin, rout := r1, r2;
    }

    /** `prepare`: `t1` sees the input shape and the intermediate's shape,
        then `t2` sees the intermediate's shape and the output shape. */
    method Prepare(inS: Shape, outS: Shape)
      requires Valid()
      modifies t1, t2
      ensures t1.inShape == Some(inS) && t1.outShape == Some(b.ShapeOf())
      ensures t2.inShape == Some(b.ShapeOf()) && t2.outShape == Some(outS)
      ensures t1.log == old(t1.log) + [Prepared(inS, b.ShapeOf())]
      ensures t2.log == old(t2.log) + [Prepared(b.ShapeOf(), outS)]
    {
      var bShape := b.ShapeOf();
      t1.Prepare(inS, bShape);
      t2.Prepare(bShape, outS);
    }
  }

  /** `PipeableTransform::pipe`: delegates to `Pipeline::new`. */
  method Pipe<A, B(0), C>(t1: Stage<A, B>, t2: Stage<B, C>, width: nat, height: nat, planes: nat, zero: B)
    returns (p: Pipeline<A, B, C>)
    requires t1 as object != t2 as object
    ensures p.t1 == t1 && p.t2 == t2 && p.Valid()
    ensures fresh(p.b) && fresh(p.b.buffer) && p.b.ShapeOf() == Shape(width, height)
    ensures p.b.buffer[..] == seq(width * height * planes, _ => zero)
  {
    p := new Pipeline.New(t1, t2, width, height, planes, zero);
  }

  /** `pipe_with_buffer`: delegates to `Pipeline::with_buffer`. */
  method PipeWithBuffer<A, B(0), C>(t1: Stage<A, B>, t2: Stage<B, C>, intermediate: Texture<B>)
    returns (p: Pipeline<A, B, C>)
    requires t1 as object != t2 as object
    ensures p.t1 == t1 && p.t2 == t2 && p.b == intermediate && p.Valid()
  {
    p := new Pipeline.WithBuffer(t1, t2, intermediate);
  }

  /** `pipe_with_shape`: `with_buffer` over a fresh default texture of the
      given `(width, height, planes)` shape. */
  method PipeWithShape<A, B(0), C>(t1: Stage<A, B>, t2: Stage<B, C>, width: nat, height: nat, planes: nat, zero: B)
    returns (p: Pipeline<A, B, C>)
    requires t1 as object != t2 as object
    ensures p.t1 == t1 && p.t2 == t2 && p.Valid()
    ensures fresh(p.b) && fresh(p.b.buffer) && p.b.ShapeOf() == Shape(width, height)
    ensures p.b.buffer[..] == seq(width * height * planes, _ => zero)
  {
    var intermediate := new Texture.NewPlanar(width, height, planes, zero);
    p := new Pipeline.WithBuffer(t1, t2, intermediate);
  }

  /** `PipeableTextures::pipe` on a `(TextureSlice, TextureMutSlice)` pair:
      exactly `transform.apply(self.0, self.1)`. */
  method PipeThrough<A, B>(views: (TextureSlice<A>, TextureMutSlice<B>), transform: Stage<A, B>)
    returns (rin: TextureSlice<A>, rout: TextureMutSlice<B>)
    modifies transform`log, views.1.buffer
    ensures rin == views.0 && rout == views.1
    ensures views.1.buffer[..] == Mapped(transform.f, views.0.buffer, old(views.1.buffer[..]))
    ensures transform.log == old(transform.log) + [Applied(views.0.ShapeOf(), views.1.ShapeOf())]
  {
    rin, rout := transform.Apply(views.0, views.1);
  }

  /** The adding transform of the repository's pipeline tests. */
  function Inc(v: int): int { v + 1 }

  /** Two `+1` stages over a 4x4 single-plane intermediate turn a zero input
      into an output of twos. */
  method PipelineCascadesApply() returns (result: seq<int>)
    ensures result == seq(16, _ => 2)
  {
    var input := new Texture.NewPlanar(4, 4, 1, 0);
    var output := new Texture.NewPlanar(4, 4, 1, 0);
    var a := new Stage.New(Inc);
    var b := new Stage.New(Inc);
    var pipeline := PipeWithShape(a, b, 4, 4, 1, 0);
    ghost var mid, prior := pipeline.b.buffer[..], output.buffer[..];
    var _, _ := pipeline.Apply(input.AsTextureSlice(), output.AsTextureMutSlice());
    result := output.buffer[..];
    forall i | 0 <= i < 16
      ensures result[i] == 2
    {
      MappedComposes(Inc, Inc, input.buffer[..], mid, prior, i);
    }
  }

  /** `prepare((2, 2), (8, 8))` on a pipeline whose intermediate is 4x4 hands
      `t1` the shapes (2, 2) and (4, 4), and `t2` the shapes (4, 4) and (8, 8). */
  method PipelineCascadesPrepare() returns (shapes: seq<Option<Shape>>)
    ensures shapes == [Some(Shape(2, 2)), Some(Shape(4, 4)), Some(Shape(4, 4)), Some(Shape(8, 8))]
  {
    var a := new Stage.New(Inc);
    var b := new Stage.New(Inc);
    var pipeline := PipeWithShape(a, b, 4, 4, 1, 0);
    pipeline.Prepare(Shape(2, 2), Shape(8, 8));
    shapes := [pipeline.t1.inShape, pipeline.t1.outShape, pipeline.t2.inShape, pipeline.t2.outShape];
  }
}
