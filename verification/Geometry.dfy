/** Pixel rectangles with 32-bit saturating edges. */
module Geometry {
  import opened Prelude

  datatype Size = Size(width: u32, height: u32)

  datatype Point = Point(x: u32, y: u32)

  /** Columns `x .. x + width`, rows `y .. y + height`, half-open. */
  datatype Rect = Rect(x: u32, y: u32, width: u32, height: u32) {
    /** One past the last column, at most 2^32 - 1. */
    function Right(): u32 {
      SaturatingAdd(x, width)
    }

    /** One past the last row, at most 2^32 - 1. */
    function Bottom(): u32 {
      SaturatingAdd(y, height)
    }

    function GetSize(): Size {
      Size(width, height)
    }

    predicate IsEmpty() {
      width == 0 || height == 0
    }

    predicate FitsWithin(bounds: Size) {
      Right() <= bounds.width && Bottom() <= bounds.height
    }

    /** Lies entirely inside `bounds`, in exact arithmetic. */
    ghost predicate Inside(bounds: Size) {
      x + width <= bounds.width && y + height <= bounds.height
    }

    ghost predicate Covers(px: int, py: int) {
      x <= px < x + width && y <= py < y + height
    }
  }

  /** `None` when an edge is inverted. */
  function FromLtrb(left: u32, top: u32, right: u32, bottom: u32): (r: Option<Rect>)
    ensures r.Some? <==> left <= right && top <= bottom
    ensures r.Some? ==> r.value.Right() == right && r.value.Bottom() == bottom
  {
    if right < left || bottom < top then None else Some(Rect(left, top, right - left, bottom - top))
  }

  /** The saturating test is exact on every surface narrower than 2^32 - 1. */
  lemma FitsWithinIsInside(r: Rect, bounds: Size)
    ensures r.Inside(bounds) ==> r.FitsWithin(bounds)
    ensures bounds.width < U32_MAX && bounds.height < U32_MAX ==> (r.FitsWithin(bounds) <==> r.Inside(bounds))
  {
  }
}
