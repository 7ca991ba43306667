/** Rasters as numpy holds them: a shape (height, width) and a flat,
    row-major buffer of unsigned 8-bit values. */
module Raster {

  /** An unsigned 8-bit pixel value. */
  type Byte = x: int | 0 <= x < 256

  datatype Grid = Grid(height: nat, width: nat, pixels: seq<Byte>)
  {
    /** The buffer holds exactly one value per cell of the shape. */
    predicate Valid() {
      |pixels| == height * width
    }

    /** The number of elements (numpy's `size`). */
    function Size(): nat {
      height * width
    }
  }

  /** A well-formed grid: the buffer matches the shape. */
  type Raster = g: Grid | g.Valid() witness Grid(0, 0, [])

  predicate SameShape(a: Grid, b: Grid) {
    a.height == b.height && a.width == b.width
  }
}
