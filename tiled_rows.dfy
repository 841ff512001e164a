/** `precompute_tiled_rows` of `src/utils/transform.rs`: fill a buffer of
    `tileSize` rows of `rowSize` values, row by row, from a function of the
    column, the row and the flat index. */
module TiledRows {
  import Grid

  /** The buffer is allocated uninitialised in the source; here it is a fresh
      array written in full before it is returned. `calls` records the
      arguments of every invocation of `fill`, in order. */
  method PrecomputeTiledRows<T(0)>(tileSize: nat, rowSize: nat, fill: (nat, nat, nat) -> T)
    returns (cache: seq<T>, ghost calls: seq<(nat, nat, nat)>)
    ensures |cache| == tileSize * rowSize
    ensures forall y: nat, x: nat :: y < tileSize && x < rowSize ==>
      Grid.Index(x, y, rowSize) < |cache| &&
      cache[Grid.Index(x, y, rowSize)] == fill(x, y, Grid.Index(x, y, rowSize))
    ensures Grid.RowMajor(calls, rowSize, tileSize)
  {
    var buf := new T[tileSize * rowSize];
    var idx := 0;
    calls := [];
    for y := 0 to tileSize
      invariant idx == Grid.Index(0, y, rowSize) == |calls| <= buf.Length
      invariant forall y': nat, x': nat :: x' < rowSize && Grid.Before(x', y', 0, y) ==>
        Grid.Index(x', y', rowSize) < idx &&
        buf[Grid.Index(x', y', rowSize)] == fill(x', y', Grid.Index(x', y', rowSize)) &&
        calls[Grid.Index(x', y', rowSize)] == (x', y', Grid.Index(x', y', rowSize))
    {
      for x := 0 to rowSize
        invariant idx == Grid.Index(x, y, rowSize) == |calls| <= buf.Length
        invariant forall y': nat, x': nat :: x' < rowSize && Grid.Before(x', y', x, y) ==>
          Grid.Index(x', y', rowSize) < idx &&
          buf[Grid.Index(x', y', rowSize)] == fill(x', y', Grid.Index(x', y', rowSize)) &&
          calls[Grid.Index(x', y', rowSize)] == (x', y', Grid.Index(x', y', rowSize))
      {
        Grid.IndexBelowSize(x, y, rowSize, tileSize);
        buf[idx] := fill(x, y, idx);
        calls := calls + [(x, y, idx)];
        idx := idx + 1;
        forall y': nat, x': nat | x' < rowSize && Grid.Before(x', y', x + 1, y)
          ensures Grid.Index(x', y', rowSize) < idx
          ensures buf[Grid.Index(x', y', rowSize)] == fill(x', y', Grid.Index(x', y', rowSize))
          ensures calls[Grid.Index(x', y', rowSize)] == (x', y', Grid.Index(x', y', rowSize))
        {
          if Grid.Before(x', y', x, y) {
            assert Grid.Index(x', y', rowSize) < idx - 1;
          } else {
            assert x' == x && y' == y;
          }
        }
      }
      forall y': nat, x': nat | x' < rowSize && Grid.Before(x', y', 0, y + 1)
        ensures Grid.Before(x', y', rowSize, y)
      {
      }
    }
    cache := buf[..];
    forall y: nat, x: nat | y < tileSize && x < rowSize
      ensures Grid.Before(x, y, 0, tileSize)
    {
    }
  }
}
