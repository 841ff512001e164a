/** Grid walks of `src/utils/iterator.rs`: the sequential `GridIterator`, a
    state machine over `(x, y, pixel_idx)`, and the per-thread state update
    that `ParGridIterator::par_iter` runs inside rayon's `map_init`. */
module GridIteration {
  import opened Outcome
  import Grid

  /** Item yielded by both walks: `(x, y, pixel_idx)`. */
  type Item = (nat, nat, nat)

  const UnderflowPanic := "attempt to subtract with overflow"

  class GridIterator {
    const width: nat
    const height: nat
    var x: nat
    var y: nat
    var pixelIdx: nat

    /** The state `next` keeps: the cursor sits on pixel `(x, y)` and
        `pixelIdx` is its flat index. With width 0 every row is empty, the
        cursor stays in column 0 and `pixelIdx` counts the rows passed. */
    predicate Valid()
      reads this
    {
      y <= height &&
      (width > 0 ==> (x < width && pixelIdx == Grid.Index(x, y, width) && (y == height ==> x == 0))) &&
      (width == 0 ==> (x == 0 && pixelIdx == y))
    }

    /** `GridIterator::new`. */
    constructor New(width: nat, height: nat)
      ensures this.width == width && this.height == height
      ensures x == 0 && y == 0 && pixelIdx == 0 && Valid()
    {
      this.width, this.height := width, height;
      x, y, pixelIdx := 0, 0, 0;
    }

    /** `next`: `None` from the moment `y` reaches `height`; otherwise the
        current triple, and the cursor moves right, wrapping to the start of
        the next row. */
    method Next() returns (r: Option<Item>)
      requires Valid()
      modifies this
      ensures Valid()
      ensures old(y) >= height ==> (r == None && x == old(x) && y == old(y) && pixelIdx == old(pixelIdx))
      ensures old(y) < height ==> (r == Some((old(x), old(y), old(pixelIdx))) && pixelIdx == old(pixelIdx) + 1)
      ensures old(y) < height && old(x) + 1 < width ==> (x == old(x) + 1 && y == old(y))
      ensures old(y) < height && old(x) + 1 >= width ==> (x == 0 && y == old(y) + 1)
    {
      if y >= height {
        return None;
      }
      r := Some((x, y, pixelIdx));
      pixelIdx := pixelIdx + 1;
      x := x + 1;
      if x >= width {
        x := 0;
        y := y + 1;
      }
    }

    /** `len`: `width * height - pixel_idx` in `usize`, which panics (debug
        builds) once `pixel_idx` has passed `width * height`. */
    function Len(): (r: Result<nat>)
      reads this
      ensures r.Ok? <==> pixelIdx <= width * height
      ensures r.Ok? ==> r.value + pixelIdx == width * height
    {
      if pixelIdx > width * height then Panic(UnderflowPanic) else Ok(width * height - pixelIdx)
    }

    /** `size_hint`: `(len, Some(len))`, computed the same way. */
    function SizeHint(): (r: Result<(nat, Option<nat>)>)
      reads this
      ensures r.Ok? <==> Len().Ok?
      ensures r.Ok? ==> r.value == (Len().value, Some(Len().value))
    {
      var remaining :- Len();
      Ok((remaining, Some(remaining)))
    }
  }

  /** `items` lists, in row-major order, every pixel before `(x, y)`. */
  ghost predicate PrefixRowMajor(items: seq<Item>, width: nat, x: nat, y: nat)
  {
    forall y': nat, x': nat :: x' < width && Grid.Before(x', y', x, y) ==>
      Grid.Index(x', y', width) < |items| && items[Grid.Index(x', y', width)] == (x', y', Grid.Index(x', y', width))
  }

  /** Appending pixel `(x0, y0)` extends the listing to its successor. */
  lemma PrefixStep(items: seq<Item>, width: nat, x0: nat, y0: nat, x: nat, y: nat)
    requires x0 < width && |items| == Grid.Index(x0, y0, width) && PrefixRowMajor(items, width, x0, y0)
    requires x0 + 1 < width ==> x == x0 + 1 && y == y0
    requires x0 + 1 >= width ==> x == 0 && y == y0 + 1
    ensures PrefixRowMajor(items + [(x0, y0, Grid.Index(x0, y0, width))], width, x, y)
  {
    var next := items + [(x0, y0, Grid.Index(x0, y0, width))];
    forall y': nat, x': nat | x' < width && Grid.Before(x', y', x, y)
      ensures Grid.Index(x', y', width) < |next|
      ensures next[Grid.Index(x', y', width)] == (x', y', Grid.Index(x', y', width))
    {
      if Grid.Before(x', y', x0, y0) {
        Grid.IndexBefore(x', y', x0, y0, width);
      } else {
        assert x' == x0 && y' == y0;
      }
    }
  }

  /** Drains a fresh `GridIterator` the way a `for` loop does, recording
      `len()` before every call to `next`. For a positive width the items
      are the grid in row-major order, each index once and ascending, and
      every `len()` is the number of items still to come. With width 0 the
      iterator still yields one `(0, y, y)` per row, and every `len()` after
      the first underflows. */
  method Drain(width: nat, height: nat) returns (items: seq<Item>, lens: seq<Result<nat>>)
    ensures |lens| == |items| + 1
    ensures width > 0 ==> Grid.RowMajor(items, width, height)
    ensures forall k :: 0 <= k < |items| ==> items[k].2 == k
    ensures width > 0 ==> forall k :: 0 <= k < |lens| ==> lens[k] == Ok(|items| - k)
    ensures width == 0 ==> items == seq(height, y => (0, y, y))
    ensures width == 0 ==> forall k :: 0 <= k < |lens| ==> (lens[k].Ok? <==> k == 0)
  {
    if width > 0 {
      items, lens := DrainGrid(width, height);
    } else {
      items, lens := DrainColumnless(height);
    }
  }

  /** `Drain` for a positive width. */
  method DrainGrid(width: nat, height: nat) returns (items: seq<Item>, lens: seq<Result<nat>>)
    requires width > 0
    ensures |lens| == |items| + 1
    ensures Grid.RowMajor(items, width, height)
    ensures forall k :: 0 <= k < |items| ==> items[k].2 == k
    ensures forall k :: 0 <= k < |lens| ==> lens[k] == Ok(|items| - k)
  {
    var it := new GridIterator.New(width, height);
    items, lens := [], [];
    while true
      invariant it.width == width && it.height == height && it.Valid()
      invariant |items| == it.pixelIdx && |lens| == |items|
      invariant forall k :: 0 <= k < |items| ==> items[k].2 == k
      invariant forall k :: 0 <= k < |lens| ==> lens[k] == Ok(width * height - k)
      invariant PrefixRowMajor(items, width, it.x, it.y)
      decreases height - it.y, width - it.x
    {
      Grid.IndexBelowSize(it.x, it.y, width, height);
      lens := lens + [it.Len()];
      ghost var x0, y0 := it.x, it.y;
      var r := it.Next();
      if r.None? {
        break;
      }
      PrefixStep(items, width, x0, y0, it.x, it.y);
      items := items + [r.value];
    }
    assert it.y == height && it.x == 0;
    Grid.IndexBelowSize(0, height, width, height);
    forall y': nat, x': nat | y' < height && x' < width
      ensures Grid.Before(x', y', it.x, it.y)
    {
    }
  }

  /** `Drain` for width 0. */
  method DrainColumnless(height: nat) returns (items: seq<Item>, lens: seq<Result<nat>>)
    ensures |lens| == |items| + 1
    ensures items == seq(height, y => (0, y, y))
    ensures forall k :: 0 <= k < |lens| ==> (lens[k].Ok? <==> k == 0)
  {
    var it := new GridIterator.New(0, height);
    items, lens := [], [];
    while true
      invariant it.width == 0 && it.height == height && it.Valid()
      invariant |items| == it.pixelIdx && |lens| == |items|
      invariant items == seq(it.y, y => (0, y, y))
      invariant forall k :: 0 <= k < |lens| ==> (lens[k].Ok? <==> k == 0)
      decreases height - it.y
    {
      lens := lens + [it.Len()];
      var r := it.Next();
      if r.None? {
        break;
      }
      items := items + [r.value];
    }
  }

  /** `ParGridIterator`: only the grid's width and height. */
  datatype ParGridIterator = ParGridIterator(width: nat, height: nat)

  /** `From<GridIterator>`: keeps the width and height and drops the cursor. */
  function FromGrid(g: GridIterator): (p: ParGridIterator)
    reads g
    ensures p.width == g.width && p.height == g.height
  {
    ParGridIterator(g.width, g.height)
  }

  /** The per-thread state of the `map_init` closure in `par_iter`. */
  class ParGridWorker {
    const width: nat
    const height: nat
    var state: Option<Item>

    /** The stored `(x, y, last_idx)` is a pixel of the grid's width and its index. */
    predicate Valid()
      reads this
    {
      state.Some? ==> (state.value.0 < width && state.value.2 == Grid.Index(state.value.0, state.value.1, width))
    }

    /** `map_init`'s initialiser: no state yet. */
    constructor New(width: nat, height: nat)
      ensures this.width == width && this.height == height && state == None && Valid()
    {
      this.width, this.height := width, height;
      state := None;
    }

    /** The closure on one index of `0..width * height`. It panics (debug
        builds) when `idx` is below the last index this state saw; otherwise
        it returns the pixel of `idx`, on the fast path (`idx` follows the
        last one) and on the slow path alike, and stores it. */
    method Step(idx: nat) returns (r: Result<Item>)
      requires idx < width * height && Valid()
      modifies this
      ensures Valid()
      ensures r.Ok? <==> (old(state).None? || old(state).value.2 <= idx)
      ensures r.Ok? ==> (r.value == (idx % width, idx / width, idx) && state == Some(r.value))
    {
      Grid.IndexInGrid(idx, width, height);
      match state
      case None =>
        var y := idx / width;
        var x := idx % width;
        state := Some((x, y, idx));
        r := Ok((x, y, idx));
      case Some((x, y, last)) =>
        if idx < last {
          return Panic(UnderflowPanic);
        }
        var delta := idx - last;
        var nx, ny;
        if delta == 1 {
          if x + 1 >= width {
            nx, ny := 0, y + 1;
          } else {
            nx, ny := x + 1, y;
          }
          assert idx == Grid.Index(nx, ny, width);
          Grid.IndexSplits(nx, ny, width);
        } else {
          ny := idx / width;
          nx := idx % width;
        }
        state := Some((nx, ny, idx));
        r := Ok((nx, ny, idx));
    }
  }

  /** `indices` never goes down. */
  predicate Ascending(indices: seq<nat>)
  {
    forall k :: 0 < k < |indices| ==> indices[k - 1] <= indices[k]
  }

  /** One thread's run of the closure over `indices` from a fresh state: it
      completes exactly when the indices never go down, and then every item
      is the pixel of its index. */
  method RunWorker(width: nat, height: nat, indices: seq<nat>) returns (r: Result<seq<Item>>)
    requires forall k :: 0 <= k < |indices| ==> indices[k] < width * height
    ensures r.Ok? <==> Ascending(indices)
    ensures r.Ok? ==> (|r.value| == |indices| &&
      forall k :: 0 <= k < |indices| ==>
        width > 0 && r.value[k] == (indices[k] % width, indices[k] / width, indices[k]))
  {
    var worker := new ParGridWorker.New(width, height);
    var items := [];
    for k := 0 to |indices|
      invariant worker.width == width && worker.height == height && worker.Valid()
      invariant k == 0 ==> worker.state == None
      invariant k > 0 ==> worker.state.Some? && worker.state.value.2 == indices[k - 1]
      invariant Ascending(indices[..k])
      invariant |items| == k
      invariant forall j :: 0 <= j < k ==> width > 0 && items[j] == (indices[j] % width, indices[j] / width, indices[j])
    {
      var step := worker.Step(indices[k]);
      if step.Panic? {
        assert indices[k - 1] > indices[k];
        return Panic(step.reason);
      }
      items := items + [step.value];
      assert indices[..k + 1] == indices[..k] + [indices[k]];
    }
    assert indices[..|indices|] == indices;
    r := Ok(items);
  }

  /** `par_iter` with the whole range on one thread: every index of the grid
      in order, which is the grid in row-major order. */
  method ParIter(p: ParGridIterator) returns (items: seq<Item>)
    ensures Grid.RowMajor(items, p.width, p.height)
    ensures forall k :: 0 <= k < |items| ==> items[k] == (k % p.width, k / p.width, k)
  {
    var r := RunWorker(p.width, p.height, seq(p.width * p.height, i => i));
    items := r.value;
    forall y: nat, x: nat | y < p.height && x < p.width
      ensures Grid.Index(x, y, p.width) < |items|
      ensures items[Grid.Index(x, y, p.width)] == (x, y, Grid.Index(x, y, p.width))
    {
      Grid.IndexBelowSize(x, y, p.width, p.height);
      Grid.IndexSplits(x, y, p.width);
    }
  }

  /** The sequential and the parallel walk of a grid with a positive width
      yield the same items in the same order. */
  method WalksAgree(width: nat, height: nat) returns (sequential: seq<Item>, parallel: seq<Item>)
    requires width > 0
    ensures sequential == parallel
  {
    var it := new GridIterator.New(width, height);
    var lens;
    sequential, lens := Drain(width, height);
    parallel := ParIter(FromGrid(it));
    Grid.RowMajorUnique(sequential, parallel, width, height);
  }
}
