/** Row-major pixel indexing shared by the grid walks: pixel `(x, y)` of a
    grid `width` pixels wide lives at flat index `y * width + x`. */
module Grid {
  import Num

  /** Flat index of pixel `(x, y)`. */
  function Index(x: nat, y: nat, width: nat): nat
  {
    y * width + x
  }

  /** `s` lists the `(x, y, index)` triples of a `width` x `height` grid in
      row-major order: rows top to bottom, pixels left to right. */
  predicate RowMajor(s: seq<(nat, nat, nat)>, width: nat, height: nat)
  {
    |s| == width * height &&
    forall y: nat, x: nat :: y < height && x < width ==>
      Index(x, y, width) < |s| && s[Index(x, y, width)] == (x, y, Index(x, y, width))
  }

  /** Pixel `(x', y')` comes before pixel `(x, y)` in row-major order. */
  predicate Before(x': nat, y': nat, x: nat, y: nat)
  {
    y' < y || (y' == y && x' < x)
  }

  /** Row-major order is the order of the flat indices. */
  lemma IndexBefore(x': nat, y': nat, x: nat, y: nat, width: nat)
    requires x' < width && Before(x', y', x, y)
    ensures Index(x', y', width) < Index(x, y, width)
  {
    if y' < y {
      Num.MulMonotone(width, y' + 1, y);
    }
  }

  /** Splitting a flat index into column and row undoes `Index`. */
  lemma IndexSplits(x: nat, y: nat, width: nat)
    requires x < width
    ensures Index(x, y, width) % width == x && Index(x, y, width) / width == y
  {
    Num.DivModUnique(y * width + x, width, y, x);
  }

  /** Every index below `width * height` is the index of a pixel inside the grid. */
  lemma IndexInGrid(i: nat, width: nat, height: nat)
    requires i < width * height
    ensures width > 0 && i % width < width && i / width < height
    ensures Index(i % width, i / width, width) == i
  {
    assert width != 0;
    var q := i / width;
    assert i == width * q + i % width;
    if q >= height {
      assert false;
    }
  }

  /** The pixel after `(x, y)` in row-major order has the next index. */
  lemma IndexNext(x: nat, y: nat, width: nat)
    ensures Index(x, y, width) + 1 == Index(x + 1, y, width)
    ensures Index(width, y, width) == Index(0, y + 1, width)
  {
  }

  /** A pixel index is smaller than the grid size exactly when its row is inside the grid. */
  lemma IndexBelowSize(x: nat, y: nat, width: nat, height: nat)
    requires x < width
    ensures Index(x, y, width) < width * height <==> y < height
  {
    if y < height {
      Num.MulMonotone(width, y + 1, height);
    } else {
      Num.MulMonotone(width, height, y);
    }
  }

  /** A row-major listing of a grid is unique: two walks that both list the
      grid in row-major order yield the same sequence. */
  lemma {:induction false} RowMajorUnique(s: seq<(nat, nat, nat)>, t: seq<(nat, nat, nat)>, width: nat, height: nat)
    requires RowMajor(s, width, height) && RowMajor(t, width, height)
    ensures s == t
  {
    forall k | 0 <= k < |s|
      ensures s[k] == t[k]
    {
      IndexInGrid(k, width, height);
      var x, y := k % width, k / width;
      assert s[Index(x, y, width)] == t[Index(x, y, width)];
    }
  }
}
