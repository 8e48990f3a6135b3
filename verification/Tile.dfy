/** Decoded BGRA tiles and their copy onto a surface buffer. */
module Tile {
  import opened Arithmetic
  import opened Geometry
  import opened Prelude

  const BPP: nat := 4

  /** Pixels placed on a surface; only those inside `updateRects` may be written. */
  datatype BgraTile = BgraTile(origin: Point, size: Size, data: seq<u8>, updateRects: seq<Rect>) {
    function Stride(): nat {
      size.width * BPP
    }

    function Footprint(): Rect {
      Rect(origin.x, origin.y, size.width, size.height)
    }

    /** As decoders produce them: one pixel per position of the footprint. */
    ghost predicate WellFormed() {
      |data| == size.width * size.height * BPP
    }
  }

  /** One copy: `data` starts at the rectangle's top-left pixel. */
  datatype Blit = Blit(rect: Rect, stride: nat, data: seq<u8>)

  /** Saturating containment. */
  predicate Contains(outer: Rect, inner: Rect) {
    && inner.x >= outer.x
    && inner.y >= outer.y
    && inner.Right() <= outer.Right()
    && inner.Bottom() <= outer.Bottom()
  }

  function Start(tile: BgraTile, rect: Rect): int {
    (rect.y - tile.origin.y) * tile.Stride() + (rect.x - tile.origin.x) * BPP
  }

  function Needed(tile: BgraTile, rect: Rect): int {
    (rect.height - 1) * tile.Stride() + rect.width * BPP
  }

  /** The blit of one update rectangle, when it is non-empty, contained and backed by data. */
  function BlitOf(tile: BgraTile, rect: Rect): Option<Blit> {
    if rect.IsEmpty() || !Contains(tile.Footprint(), rect) then
      None
    else
      var start := Start(tile, rect);
      if start < 0 || start > |tile.data| || |tile.data| - start < Needed(tile, rect) then
        None
      else
        Some(Blit(rect, tile.Stride(), tile.data[start..]))
  }

  /** The blits of every update rectangle, in order. */
  function Blits(tile: BgraTile, n: nat): seq<Blit>
    requires n <= |tile.updateRects|
  {
    if n == 0 then
      []
    else
      Blits(tile, n - 1) + match BlitOf(tile, tile.updateRects[n - 1]) case Some(b) => [b] case None => []
  }

  /** Every blit holds at least the bytes the sink will read. */
  lemma {:induction false} BlitsAreBacked(tile: BgraTile, n: nat)
    requires n <= |tile.updateRects|
    ensures forall b <- Blits(tile, n) ::
      && !b.rect.IsEmpty() && b.rect in tile.updateRects && Contains(tile.Footprint(), b.rect)
      && |b.data| >= (b.rect.height - 1) * b.stride + b.rect.width * BPP
  {
    if n == 0 {
    } else {
      BlitsAreBacked(tile, n - 1);
    }
  }

  // ----- copying onto a surface -------------------------------------------------------------

  /** Column and row of the pixel that byte `d` of a surface `wide` pixels wide belongs to. */
  function Column(d: nat, wide: u32): nat
    requires wide > 0
  {
    d / BPP % wide
  }

  function Row(d: nat, wide: u32): nat
    requires wide > 0
  {
    d / BPP / wide
  }

  /** The copy of `rect` writes pixel `(x, y)` of a buffer of `length` bytes. */
  ghost predicate Paints(tile: BgraTile, rect: Rect, surface: Size, length: nat, x: int, y: int) {
    && BlitOf(tile, rect).Some?
    && rect.x <= x < Min(rect.Right(), surface.width)
    && rect.y <= y < Min(rect.Bottom(), surface.height)
    && (y * surface.width + Min(rect.Right(), surface.width)) * BPP <= length
  }

  /** Where the tile keeps channel `c` of surface pixel `(x, y)`. */
  ghost function Source(tile: BgraTile, x: int, y: int, c: int): int {
    ((y - tile.origin.y) * tile.size.width + x - tile.origin.x) * BPP + c
  }

  /** Byte `d` after the rectangle was copied. */
  ghost predicate Painted(tile: BgraTile, rect: Rect, surface: Size, before: seq<u8>, after: seq<u8>, d: nat)
    requires surface.width > 0 && d < |before| == |after|
  {
    if Paints(tile, rect, surface, |before|, Column(d, surface.width), Row(d, surface.width)) then
      var i := Source(tile, Column(d, surface.width), Row(d, surface.width), d % BPP);
      0 <= i < |tile.data| && after[d] == tile.data[i]
    else
      after[d] == before[d]
  }

  /** Where byte `k` of a row segment lands. */
  lemma SegmentByte(wide: u32, x: nat, y: nat, k: nat)
    requires wide > 0 && x * BPP + k < wide * BPP
    ensures var d := (y * wide + x) * BPP + k;
      Row(d, wide) == y && Column(d, wide) == x + k / BPP && d % BPP == k % BPP
  {
    var p := y * wide + x + k / BPP;
    var d := (y * wide + x) * BPP + k;
    assert d / BPP == p;
    DivMod(p, wide, y, x + k / BPP);
  }

  /** The bytes of columns `x0 .. x1` of row `y` are one contiguous segment. */
  lemma SegmentMeaning(wide: u32, x0: nat, x1: nat, y: nat, d: nat)
    requires wide > 0 && x0 <= x1 <= wide
    ensures (y * wide + x0) * BPP <= d < (y * wide + x1) * BPP
        <==> Row(d, wide) == y && x0 <= Column(d, wide) < x1
  {
    var p := d / BPP;
    assert p == Row(d, wide) * wide + Column(d, wide);
    if (y * wide + x0) * BPP <= d < (y * wide + x1) * BPP {
      assert y * wide + x0 <= p < y * wide + x1;
      DivMod(p, wide, y, p - y * wide);
    }
  }

  lemma RowInRange(row: int, height: int, stride: nat, k: int, rowBytes: int)
    requires 0 <= row < height && 0 <= k < rowBytes
    ensures 0 <= row * stride + k < (height - 1) * stride + rowBytes
  {
    MulNonNegative(row, stride);
    MulNonNegative(height - 1 - row, stride);
    assert (height - 1 - row) * stride == (height - 1) * stride - row * stride;
  }

  lemma SourceArithmetic(dy: int, row: int, tw: int, dx: int, k: nat)
    ensures ((dy + row) * tw + dx + k / BPP) * BPP + k % BPP == dy * (tw * BPP) + dx * BPP + row * (tw * BPP) + k
  {
    assert (dy + row) * tw == dy * tw + row * tw;
    assert dy * (tw * BPP) == dy * tw * BPP;
    assert row * (tw * BPP) == row * tw * BPP;
  }

  /** Row `row` of a blit is the tile's row at the same surface position. */
  lemma SourceByte(tile: BgraTile, rect: Rect, row: nat, k: nat)
    requires BlitOf(tile, rect).Some? && row < rect.height && k < rect.width * BPP
    ensures var i := Source(tile, rect.x + k / BPP, rect.y + row, k % BPP);
      && i == Start(tile, rect) + (row * tile.Stride() + k)
      && 0 <= i < |tile.data|
  {
    RowInRange(row, rect.height, tile.Stride(), k, rect.width * BPP);
    SourceArithmetic(rect.y - tile.origin.y, row, tile.size.width, rect.x - tile.origin.x, k);
  }

  method CopySegment(dst: array<u8>, at: nat, src: seq<u8>)
    requires at + |src| <= dst.Length
    modifies dst
    ensures forall d :: 0 <= d < dst.Length ==>
      dst[d] == if at <= d < at + |src| then src[d - at] else old(dst[d])
  {
    for k := 0 to |src|
      invariant forall d :: 0 <= d < dst.Length ==>
        dst[d] == if at <= d < at + k then src[d - at] else old(dst[d])
    {
      dst[at + k] := src[k];
    }
  }

  /** The bytes painted once the first `rows` rows of a rectangle are done. */
  ghost predicate RowsPainted(tile: BgraTile, rect: Rect, surface: Size, before: seq<u8>, after: seq<u8>, rows: nat)
    requires surface.width > 0 && |before| == |after|
  {
    forall d: nat | d < |after| ::
      if Row(d, surface.width) < rect.y + rows then Painted(tile, rect, surface, before, after, d)
      else after[d] == before[d]
  }

  /** `src` is row `row` of the rectangle, clipped to `right`, as the tile holds it. */
  ghost predicate IsRowSource(tile: BgraTile, rect: Rect, right: int, row: nat, src: seq<u8>)
    requires rect.x <= right
  {
    && |src| == (right - rect.x) * BPP
    && forall k | 0 <= k < |src| ::
         var i := Source(tile, rect.x + k / BPP, rect.y + row, k % BPP);
         0 <= i < |tile.data| && src[k] == tile.data[i]
  }

  lemma RowBacked(tile: BgraTile, rect: Rect, right: int, row: nat)
    requires BlitOf(tile, rect).Some? && row < rect.height && rect.x < right <= rect.Right()
    ensures 0 <= row * tile.Stride()
    ensures row * tile.Stride() + (right - rect.x) * BPP <= |BlitOf(tile, rect).value.data|
  {
    MulNonNegative(row, tile.Stride());
    RowInRange(row, rect.height, tile.Stride(), (right - rect.x) * BPP - 1, rect.width * BPP);
  }

  /** Byte `k` of a slice of the blit's data that starts at the row's first byte. */
  lemma SliceByte(tile: BgraTile, rect: Rect, row: nat, from: nat, src: seq<u8>, k: nat)
    requires BlitOf(tile, rect).Some? && row < rect.height && k < |src| && |src| <= rect.width * BPP
    requires from == row * tile.Stride() && from + |src| <= |BlitOf(tile, rect).value.data|
    requires src == BlitOf(tile, rect).value.data[from..from + |src|]
    ensures var i := Source(tile, rect.x + k / BPP, rect.y + row, k % BPP);
      0 <= i < |tile.data| && src[k] == tile.data[i]
  {
    SourceByte(tile, rect, row, k);
    assert src[k] == BlitOf(tile, rect).value.data[from + k];
  }

  /** A slice of the blit's data is a row source when it starts at the row's first byte. */
  lemma SliceIsRowSource(tile: BgraTile, rect: Rect, right: int, row: nat, from: nat, src: seq<u8>)
    requires BlitOf(tile, rect).Some? && row < rect.height && rect.x < right <= rect.Right()
    requires from == row * tile.Stride() && |src| == (right - rect.x) * BPP
    requires from + |src| <= |BlitOf(tile, rect).value.data|
    requires src == BlitOf(tile, rect).value.data[from..from + |src|]
    ensures IsRowSource(tile, rect, right, row, src)
  {
    forall k | 0 <= k < |src|
      ensures var i := Source(tile, rect.x + k / BPP, rect.y + row, k % BPP);
        0 <= i < |tile.data| && src[k] == tile.data[i]
    {
      SliceByte(tile, rect, row, from, src, k);
    }
  }

  method RowSource(tile: BgraTile, rect: Rect, right: int, row: nat) returns (src: seq<u8>)
    requires BlitOf(tile, rect).Some? && row < rect.height && rect.x < right <= rect.Right()
    ensures IsRowSource(tile, rect, right, row, src)
  {
    RowBacked(tile, rect, right, row);
    var b := BlitOf(tile, rect).value;
    var from := row * b.stride;
    src := b.data[from..][..(right - rect.x) * BPP];
    SliceIsRowSource(tile, rect, right, row, from, src);
  }

  /** One byte after a row was copied at `at`. */
  lemma RowPainted(tile: BgraTile, rect: Rect, surface: Size, row: nat, right: int, src: seq<u8>, at: nat,
                   before: seq<u8>, mid: seq<u8>, after: seq<u8>, d: nat)
    requires BlitOf(tile, rect).Some? && surface.width > 0 && d < |before| == |mid| == |after|
    requires rect.x < right == Min(rect.Right(), surface.width) && rect.y + row < Min(rect.Bottom(), surface.height)
    requires IsRowSource(tile, rect, right, row, src)
    requires at == ((rect.y + row) * surface.width + rect.x) * BPP
    requires if Row(d, surface.width) < rect.y + row then Painted(tile, rect, surface, before, mid, d)
             else mid[d] == before[d]
    requires after[d] == if at <= d < at + |src| && at + |src| <= |before| then src[d - at] else mid[d]
    ensures if Row(d, surface.width) < rect.y + row + 1 then Painted(tile, rect, surface, before, after, d)
            else after[d] == before[d]
  {
    SegmentMeaning(surface.width, rect.x, right, rect.y + row, d);
    assert at + |src| == ((rect.y + row) * surface.width + right) * BPP;
    if at <= d < at + |src| {
      SegmentByte(surface.width, rect.x, rect.y + row, d - at);
    }
  }

  method PaintRow(tile: BgraTile, rect: Rect, surface: Size, dst: array<u8>, row: nat, ghost before: seq<u8>)
    requires BlitOf(tile, rect).Some? && surface.width > 0 && |before| == dst.Length
    requires rect.x < Min(rect.Right(), surface.width) && rect.y + row < Min(rect.Bottom(), surface.height)
    requires RowsPainted(tile, rect, surface, before, dst[..], row)
    modifies dst
    ensures RowsPainted(tile, rect, surface, before, dst[..], row + 1)
  {
    var right := Min(rect.Right(), surface.width);
    var src := RowSource(tile, rect, right, row);
    MulNonNegative(rect.y + row, surface.width);
    var at := ((rect.y + row) * surface.width + rect.x) * BPP;
    ghost var mid := dst[..];
    if at + |src| <= dst.Length {
      CopySegment(dst, at, src);
    }
    ghost var after := dst[..];
    forall d: nat | d < dst.Length
      ensures if Row(d, surface.width) < rect.y + row + 1 then Painted(tile, rect, surface, before, after, d)
              else after[d] == before[d]
    {
      RowPainted(tile, rect, surface, row, right, src, at, before, mid, after, d);
    }
  }

  /** Copies one rectangle, row by row, clipped to the surface. */
  method PaintRect(tile: BgraTile, rect: Rect, surface: Size, dst: array<u8>)
    requires surface.width > 0
    modifies dst
    ensures forall d: nat | d < dst.Length :: Painted(tile, rect, surface, old(dst[..]), dst[..], d)
  {
    ghost var before := dst[..];
    var right := Min(rect.Right(), surface.width);
    var bottom := Min(rect.Bottom(), surface.height);
    if BlitOf(tile, rect).None? || right <= rect.x || bottom <= rect.y {
      return;
    }
    for row := 0 to bottom - rect.y
      invariant RowsPainted(tile, rect, surface, before, dst[..], row)
    {
      PaintRow(tile, rect, surface, dst, row, before);
    }
  }

  // ----- the whole tile ---------------------------------------------------------------------

  /** Some rectangle of the first `n` writes the pixel. */
  ghost predicate PaintedBy(tile: BgraTile, n: nat, surface: Size, length: nat, x: int, y: int)
    requires n <= |tile.updateRects|
  {
    exists i :: 0 <= i < n && Paints(tile, tile.updateRects[i], surface, length, x, y)
  }

  /** Byte `d` after the tile was copied: the tile's byte of its pixel if some rectangle paints that. */
  ghost predicate BlittedByte(tile: BgraTile, surface: Size, before: seq<u8>, after: seq<u8>, d: nat)
    requires surface.width > 0 && d < |before| == |after|
  {
    var x, y := Column(d, surface.width), Row(d, surface.width);
    var i := Source(tile, x, y, d % BPP);
    if PaintedBy(tile, |tile.updateRects|, surface, |before|, x, y)
    then 0 <= i < |tile.data| && after[d] == tile.data[i]
    else after[d] == before[d]
  }

  ghost predicate Blitted(tile: BgraTile, surface: Size, before: seq<u8>, after: seq<u8>)
    requires surface.width > 0
  {
    |before| == |after| && forall d: nat | d < |after| :: BlittedByte(tile, surface, before, after, d)
  }

  /**
   Copies the update rectangles of a tile into a surface buffer. Whatever the rectangles, and
   however they overlap, a byte either keeps its value or becomes the tile's byte of that pixel,
   and it changes exactly when some rectangle paints its pixel.
   */
  method BlitInto(tile: BgraTile, surface: Size, dst: array<u8>)
    modifies dst
    ensures surface.width == 0 ==> dst[..] == old(dst[..])
    ensures surface.width > 0 ==> Blitted(tile, surface, old(dst[..]), dst[..])
  {
    if surface.width == 0 {
      return;
    }
    for n := 0 to |tile.updateRects|
      invariant forall d: nat | d < dst.Length ::
        var x, y := Column(d, surface.width), Row(d, surface.width);
        var i := Source(tile, x, y, d % BPP);
        if PaintedBy(tile, n, surface, dst.Length, x, y)
        then 0 <= i < |tile.data| && dst[d] == tile.data[i]
        else dst[d] == old(dst[d])
    {
      var rect := tile.updateRects[n];
      ghost var before := dst[..];
      PaintRect(tile, rect, surface, dst);
      forall d: nat | d < dst.Length
        ensures var x, y := Column(d, surface.width), Row(d, surface.width);
          var i := Source(tile, x, y, d % BPP);
          if PaintedBy(tile, n + 1, surface, dst.Length, x, y)
          then 0 <= i < |tile.data| && dst[d] == tile.data[i]
          else dst[d] == old(dst[d])
      {
        assert Painted(tile, rect, surface, before, dst[..], d);
        var x, y := Column(d, surface.width), Row(d, surface.width);
        assert PaintedBy(tile, n + 1, surface, dst.Length, x, y)
          <==> PaintedBy(tile, n, surface, dst.Length, x, y) || Paints(tile, rect, surface, dst.Length, x, y);
      }
    }
  }

  /** A rectangle lies inside another, in exact arithmetic. */
  ghost predicate TrulyInside(outer: Rect, inner: Rect) {
    && outer.x <= inner.x && inner.x + inner.width <= outer.x + outer.width
    && outer.y <= inner.y && inner.y + inner.height <= outer.y + outer.height
  }

  /** What the saturating test accepts: past 2^32 - 1 an edge of the footprint bounds nothing. */
  lemma ContainsExactly(outer: Rect, inner: Rect)
    ensures Contains(outer, inner) <==>
      && outer.x <= inner.x && outer.y <= inner.y
      && (inner.x + inner.width <= outer.x + outer.width || outer.x + outer.width >= U32_MAX)
      && (inner.y + inner.height <= outer.y + outer.height || outer.y + outer.height >= U32_MAX)
  {
  }

  /** A rectangle the code accepts although it reaches beyond the footprint. */
  lemma ContainsTooMuch()
    ensures var outer, inner := Rect(0, 0, U32_MAX, 1), Rect(5, 0, U32_MAX, 1);
      Contains(outer, inner) && !TrulyInside(outer, inner)
  {
  }

  /** An edge that saturation cannot falsify: below 2^32 - 1, or as far as any rectangle reaches. */
  predicate SharpEdge(edge: int) {
    edge < U32_MAX || edge == 2 * U32_MAX
  }

  /** The test is exact for every inner rectangle exactly when both far edges of the outer one are sharp. */
  lemma ContainsIsExactWhen(outer: Rect)
    ensures (forall inner: Rect :: Contains(outer, inner) <==> TrulyInside(outer, inner))
       <==> SharpEdge(outer.x + outer.width) && SharpEdge(outer.y + outer.height)
  {
    if !SharpEdge(outer.x + outer.width) {
      var inner := Rect(U32_MAX, outer.y, U32_MAX, 0);
      assert Contains(outer, inner) && !TrulyInside(outer, inner);
    } else if !SharpEdge(outer.y + outer.height) {
      var inner := Rect(outer.x, U32_MAX, 0, U32_MAX);
      assert Contains(outer, inner) && !TrulyInside(outer, inner);
    }
  }

  lemma ArithmeticFit(w: nat, h: nat, dx: nat, dy: nat, rw: int, rh: int, stride: nat)
    requires stride == w * BPP && dx + rw <= w && dy + rh <= h && 1 <= rh
    ensures 0 <= dy * stride
    ensures dy * stride + dx * BPP + ((rh - 1) * stride + rw * BPP) <= w * h * BPP
  {
    MulNonNegative(dy, stride);
    MulNonNegative(h - rh - dy, stride);
    assert (h - rh - dy) * stride == h * stride - rh * stride - dy * stride;
    assert (rh - 1) * stride == rh * stride - stride;
    assert h * stride == w * h * BPP;
  }

  lemma WholeFits(tile: BgraTile, rect: Rect)
    requires tile.WellFormed() && !rect.IsEmpty() && TrulyInside(tile.Footprint(), rect)
    ensures BlitOf(tile, rect).Some?
  {
    ContainsExactly(tile.Footprint(), rect);
    var start, needed := Start(tile, rect), Needed(tile, rect);
    assert 0 <= start && start + needed <= |tile.data| by {
      ArithmeticFit(tile.size.width, tile.size.height, rect.x - tile.origin.x, rect.y - tile.origin.y,
        rect.width, rect.height, tile.Stride());
    }
    assert 0 <= needed by {
      MulNonNegative(rect.height - 1, tile.Stride());
    }
  }

  lemma RowEnds(y: int, wide: nat, high: nat, right: int)
    requires 0 <= y < high && right <= wide
    ensures (y * wide + right) * BPP <= wide * high * BPP
  {
    MulNonNegative(high - 1 - y, wide);
    assert (high - 1 - y) * wide == wide * high - wide - y * wide;
  }

  /**
   On a correctly sized surface, a well-formed tile whose footprint ends below 2^32 - 1 changes
   exactly the pixels that lie in some non-empty update rectangle inside the footprint and in the
   surface.
   */
  lemma ExactlyTheVisiblePixels(tile: BgraTile, rect: Rect, surface: Size, x: int, y: int)
    requires tile.WellFormed()
    requires tile.origin.x + tile.size.width < U32_MAX && tile.origin.y + tile.size.height < U32_MAX
    ensures Paints(tile, rect, surface, surface.width * surface.height * BPP, x, y)
      <==> !rect.IsEmpty() && TrulyInside(tile.Footprint(), rect) && rect.Covers(x, y)
           && x < surface.width && y < surface.height
  {
    ContainsExactly(tile.Footprint(), rect);
    if !rect.IsEmpty() && TrulyInside(tile.Footprint(), rect) {
      WholeFits(tile, rect);
      if 0 <= y < surface.height {
        RowEnds(y, surface.width, surface.height, Min(rect.Right(), surface.width));
      }
    }
  }
}
