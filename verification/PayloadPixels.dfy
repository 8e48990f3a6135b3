/**
 What a payload looks like on the surface: emitted tiles fit their rectangles, and copying them one
 after the other leaves each pixel of the REGIONs with the colour of its own tile and every other
 pixel as it was.
 */
module PayloadPixels {
  import opened Arithmetic
  import opened Clipping
  import opened Geometry
  import opened PayloadSpec
  import opened Prelude
  import opened ProgressiveTiles
  import opened Tile
  import opened TileSchedule

  const TILE_BYTES: nat := 64 * 64 * 4

  /** Reconstruction gives four bytes for each pixel of a tile. */
  ghost predicate RendersTiles(codec: TileCodec) {
    forall state :: |codec.render(state)| == TILE_BYTES
  }

  ghost predicate Supported(screen: Screen) {
    && Exact(screen.ops) && RendersTiles(screen.codec)
    && screen.width <= MAX_SURFACE_DIM && screen.height <= MAX_SURFACE_DIM
  }

  /** The length of a buffer that holds every pixel of the screen. */
  function ScreenBytes(width: u16, height: u16): nat {
    MulNonNegative(width, height);
    width * height * BPP
  }

  // ----- the emitted tiles ------------------------------------------------------------------

  lemma PartInside(ops: RegionOps, clipping: seq<Inclusive>, tile: Inclusive, part: Inclusive)
    requires Exact(ops) && part in ops.intersect(clipping, tile)
    ensures part.Proper()
    ensures tile.left <= part.left && part.right <= tile.right && tile.top <= part.top && part.bottom <= tile.bottom
  {
    assert part.Has(part.left, part.top) && part.Has(part.right, part.bottom);
    assert Covered(ops.intersect(clipping, tile), part.left, part.top);
    assert Covered(ops.intersect(clipping, tile), part.right, part.bottom);
  }

  /** A visible rectangle is not empty and lies in its tile's square and on the surface. */
  lemma VisibleInside(ops: RegionOps, clipping: seq<Inclusive>, key: Key, width: u16, height: u16, rect: Rect)
    requires Exact(ops) && width <= MAX_SURFACE_DIM && height <= MAX_SURFACE_DIM
    requires rect in VisibleRects(ops, clipping, key, width, height)
    ensures !rect.IsEmpty() && rect.x + rect.width <= width && rect.y + rect.height <= height
    ensures TrulyInside(Rect(64 * key.x, 64 * key.y, 64, 64), rect)
  {
    var tile := TileOnSurface(key, width, height).value;
    var parts := ops.intersect(clipping, tile);
    var i :| 0 <= i < |parts| && rect == Rects(parts)[i];
    PartInside(ops, clipping, tile, parts[i]);
    TileHas(key, width, height, tile.left, tile.top);
    TileHas(key, width, height, tile.right, tile.bottom);
  }

  /** One pixel per position, and every update rectangle inside the footprint and the surface. */
  ghost predicate Fits(tile: BgraTile, width: u16, height: u16) {
    && tile.WellFormed() && tile.size == Size(64, 64)
    && tile.origin.x % 64 == 0 && tile.origin.y % 64 == 0
    && forall rect <- tile.updateRects ::
         !rect.IsEmpty() && TrulyInside(tile.Footprint(), rect) && rect.x + rect.width <= width && rect.y + rect.height <= height
  }

  lemma TileFits(screen: Screen, cells: Cells, clipping: seq<Inclusive>, key: Key, tile: BgraTile)
    requires Supported(screen) && Emits(screen, cells, clipping, key) == [tile]
    ensures Fits(tile, screen.width, screen.height) && tile.updateRects != []
  {
    forall rect <- tile.updateRects
      ensures !rect.IsEmpty() && TrulyInside(tile.Footprint(), rect)
      ensures rect.x + rect.width <= screen.width && rect.y + rect.height <= screen.height
    {
      VisibleInside(screen.ops, clipping, key, screen.width, screen.height, rect);
    }
  }

  /** Every tile a REGION shows is well formed, and each of its rectangles lies inside its footprint. */
  lemma ShownTilesFit(screen: Screen, cells: Cells, clipping: seq<Inclusive>, keys: seq<Key>)
    requires Supported(screen)
    ensures forall tile <- Shown(screen, cells, clipping, keys) ::
      Fits(tile, screen.width, screen.height) && tile.updateRects != []
  {
    ShownMeaning(screen, cells, clipping, keys);
    forall tile <- Shown(screen, cells, clipping, keys)
      ensures Fits(tile, screen.width, screen.height) && tile.updateRects != []
    {
      var key :| key in keys && Emits(screen, cells, clipping, key) == [tile];
      TileFits(screen, cells, clipping, key, tile);
    }
  }

  // ----- one pixel --------------------------------------------------------------------------

  /** The tile a pixel belongs to. */
  function TileOf(px: nat, py: nat): Key
    requires px < 0x1_0000 && py < 0x1_0000
  {
    Key(px / 64, py / 64)
  }

  /** The byte of channel `c` that a tile in this state has for the surface pixel. */
  ghost function ByteOf(codec: TileCodec, state: TileState, px: nat, py: nat, c: nat): u8
    requires RendersTiles(codec) && c < 4
  {
    codec.render(state)[(py % 64 * 64 + px % 64) * 4 + c]
  }

  /** The REGION shows the pixel: it covers it, and the pixel's tile is in the frame with a state. */
  ghost predicate Refreshes(screen: Screen, cells: Cells, frame: set<Key>, rects: seq<WireRect>, px: nat, py: nat)
    requires px < screen.width && py < screen.height
  {
    && InSome(rects, px, py)
    && TileOf(px, py) in frame && TileOf(px, py) in cells && cells[TileOf(px, py)].slot.Some?
  }

  lemma InTileMeaning(key: Key, px: nat, py: nat)
    requires px < 0x1_0000 && py < 0x1_0000
    ensures InTile(key, px, py) <==> key == TileOf(px, py)
  {
  }

  /** A tile that fits paints exactly the pixels of its update rectangles. */
  lemma FittingTilePaints(tile: BgraTile, width: u16, height: u16, px: nat, py: nat)
    requires Fits(tile, width, height) && tile.origin.x <= 64 * U16_MAX && tile.origin.y <= 64 * U16_MAX
    ensures PaintedBy(tile, |tile.updateRects|, Size(width, height), ScreenBytes(width, height), px, py)
        <==> CoversPixel(tile, px, py)
  {
    var surface := Size(width, height);
    forall i | 0 <= i < |tile.updateRects|
      ensures Paints(tile, tile.updateRects[i], surface, ScreenBytes(width, height), px, py)
          <==> tile.updateRects[i].Covers(px, py)
    {
      assert tile.updateRects[i] in tile.updateRects;
      ExactlyTheVisiblePixels(tile, tile.updateRects[i], surface, px, py);
    }
    if CoversPixel(tile, px, py) {
      var i :| 0 <= i < |tile.updateRects| && tile.updateRects[i].Covers(px, py);
      assert Paints(tile, tile.updateRects[i], surface, ScreenBytes(width, height), px, py);
    }
  }

  /** What the tile of `key`, if it is emitted, does to one pixel: nothing, or its own colour. */
  lemma EmittedTilePaints(screen: Screen, cells: Cells, rects: seq<WireRect>, key: Key, tile: BgraTile, px: nat, py: nat, c: nat)
    requires Supported(screen) && px < screen.width && py < screen.height && c < 4
    requires Emits(screen, cells, Union(screen.ops, rects, screen.width, screen.height), key) == [tile]
    ensures PaintedBy(tile, |tile.updateRects|, Size(screen.width, screen.height), ScreenBytes(screen.width, screen.height), px, py)
        <==> key == TileOf(px, py) && InSome(rects, px, py)
    ensures key in cells && cells[key].slot.Some?
    ensures key == TileOf(px, py) ==>
      && 0 <= Source(tile, px, py, c) < |tile.data|
      && tile.data[Source(tile, px, py, c)] == ByteOf(screen.codec, cells[key].slot.value, px, py, c)
  {
    var clipping := Union(screen.ops, rects, screen.width, screen.height);
    TileFits(screen, cells, clipping, key, tile);
    FittingTilePaints(tile, screen.width, screen.height, px, py);
    KeyPixels(screen, cells, rects, key, px, py);
    InTileMeaning(key, px, py);
    assert ShowsPixel([tile], px, py) <==> CoversPixel(tile, px, py) by {
      assert tile in [tile];
    }
    if key == TileOf(px, py) {
      assert px - tile.origin.x == px % 64 && py - tile.origin.y == py % 64;
    }
  }

  // ----- copying the tiles ------------------------------------------------------------------

  /** The buffers between copies: `buffers[i + 1]` is `buffers[i]` with tile `i` copied into it. */
  ghost predicate Successive(tiles: seq<BgraTile>, surface: Size, buffers: seq<seq<u8>>)
    requires surface.width > 0
  {
    && |buffers| == |tiles| + 1
    && forall i :: 0 <= i < |tiles| ==> Blitted(tiles[i], surface, buffers[i], buffers[i + 1])
  }

  /** Tile `i` of the list writes byte `d` of the surface. */
  ghost predicate Writes(tiles: seq<BgraTile>, i: nat, surface: Size, length: nat, d: nat)
    requires i < |tiles| && surface.width > 0
  {
    PaintedBy(tiles[i], |tiles[i].updateRects|, surface, length, Column(d, surface.width), Row(d, surface.width))
  }

  /** When every tile that writes a byte gives it the same value, it has that value or its first one. */
  lemma {:induction false} AgreeingWrites(tiles: seq<BgraTile>, surface: Size, buffers: seq<seq<u8>>, n: nat, d: nat, value: u8)
    requires surface.width > 0 && Successive(tiles, surface, buffers) && n <= |tiles| && d < |buffers[0]|
    requires forall i: nat | i < n :: |buffers[i]| == |buffers[0]| && Writes(tiles, i, surface, |buffers[0]|, d) ==>
      var s := Source(tiles[i], Column(d, surface.width), Row(d, surface.width), d % BPP);
      0 <= s < |tiles[i].data| && tiles[i].data[s] == value
    ensures |buffers[n]| == |buffers[0]|
    ensures buffers[n][d] ==
      if exists i: nat :: i < n && Writes(tiles, i, surface, |buffers[0]|, d) then value else buffers[0][d]
  {
    if n == 0 {
    } else {
      AgreeingWrites(tiles, surface, buffers, n - 1, d, value);
      assert BlittedByte(tiles[n - 1], surface, buffers[n - 1], buffers[n], d);
    }
  }

  // ----- one REGION -------------------------------------------------------------------------

  /** Byte `c` of pixel `(px, py)` in a buffer of the screen's size. */
  lemma PixelByte(width: u16, height: u16, px: nat, py: nat, c: nat)
    requires px < width && py < height && c < 4
    ensures var d := (py * width + px) * BPP + c;
      d < ScreenBytes(width, height) && Column(d, width) == px && Row(d, width) == py && d % BPP == c
  {
    SegmentByte(width, px, py, c);
    RowEnds(py, width, height, px + 1);
    assert (py * width + px + 1) * BPP == (py * width + px) * BPP + BPP;
  }

  function Place(width: u16, px: nat, py: nat, c: nat): nat {
    MulNonNegative(py, width);
    (py * width + px) * BPP + c
  }

  ghost function TilesOf(screen: Screen, cells: Cells, frame: set<Key>, rects: seq<WireRect>): seq<BgraTile> {
    Shown(screen, cells, Union(screen.ops, rects, screen.width, screen.height), Sorted(frame))
  }

  /** A tile of the list writes the pixel exactly when it is the pixel's own and the REGION covers it. */
  lemma ListedTile(screen: Screen, cells: Cells, frame: set<Key>, rects: seq<WireRect>, tile: BgraTile, px: nat, py: nat, c: nat)
    requires Supported(screen) && px < screen.width && py < screen.height && c < 4
    requires tile in TilesOf(screen, cells, frame, rects)
    ensures PaintedBy(tile, |tile.updateRects|, Size(screen.width, screen.height), ScreenBytes(screen.width, screen.height), px, py)
      ==> Refreshes(screen, cells, frame, rects, px, py)
          && 0 <= Source(tile, px, py, c) < |tile.data|
          && tile.data[Source(tile, px, py, c)] == ByteOf(screen.codec, cells[TileOf(px, py)].slot.value, px, py, c)
    ensures CoversPixel(tile, px, py)
      ==> PaintedBy(tile, |tile.updateRects|, Size(screen.width, screen.height), ScreenBytes(screen.width, screen.height), px, py)
  {
    var clipping := Union(screen.ops, rects, screen.width, screen.height);
    SortedMeaning(frame);
    ShownMeaning(screen, cells, clipping, Sorted(frame));
    var key :| key in Sorted(frame) && Emits(screen, cells, clipping, key) == [tile];
    EmittedTilePaints(screen, cells, rects, key, tile, px, py, c);
    TileFits(screen, cells, clipping, key, tile);
    FittingTilePaints(tile, screen.width, screen.height, px, py);
  }

  /**
   The tiles of one REGION, copied in order onto a surface of the screen's size: a pixel the REGION
   shows gets its place in the picture of its own tile, and every other pixel keeps its colour.
   */
  lemma RegionPixels(screen: Screen, cells: Cells, frame: set<Key>, rects: seq<WireRect>, buffers: seq<seq<u8>>,
                     px: nat, py: nat, c: nat)
    requires Supported(screen) && px < screen.width && py < screen.height && c < 4
    requires Successive(TilesOf(screen, cells, frame, rects), Size(screen.width, screen.height), buffers)
    requires |buffers[0]| == ScreenBytes(screen.width, screen.height)
    ensures var d, last := Place(screen.width, px, py, c), buffers[|buffers| - 1];
      && |last| == |buffers[0]| && d < |last|
      && last[d] == if Refreshes(screen, cells, frame, rects, px, py)
                    then ByteOf(screen.codec, cells[TileOf(px, py)].slot.value, px, py, c)
                    else buffers[0][d]
  {
    var tiles := TilesOf(screen, cells, frame, rects);
    var surface := Size(screen.width, screen.height);
    var d := Place(screen.width, px, py, c);
    PixelByte(screen.width, screen.height, px, py, c);
    forall i: nat | i < |tiles|
      ensures Writes(tiles, i, surface, |buffers[0]|, d) ==>
        var s := Source(tiles[i], px, py, c);
        && Refreshes(screen, cells, frame, rects, px, py) && 0 <= s < |tiles[i].data|
        && tiles[i].data[s] == ByteOf(screen.codec, cells[TileOf(px, py)].slot.value, px, py, c)
      ensures CoversPixel(tiles[i], px, py) ==> Writes(tiles, i, surface, |buffers[0]|, d)
    {
      ListedTile(screen, cells, frame, rects, tiles[i], px, py, c);
    }
    if Refreshes(screen, cells, frame, rects, px, py) {
      var value := ByteOf(screen.codec, cells[TileOf(px, py)].slot.value, px, py, c);
      AgreeingWrites(tiles, surface, buffers, |tiles|, d, value);
      EmittedPixels(screen, cells, rects, frame, px, py);
      assert HasPixel(screen, cells, rects, TileOf(px, py), px, py) by {
        InTileMeaning(TileOf(px, py), px, py);
      }
      var i :| 0 <= i < |tiles| && CoversPixel(tiles[i], px, py);
      assert Writes(tiles, i, surface, |buffers[0]|, d);
    } else {
      AgreeingWrites(tiles, surface, buffers, |tiles|, d, 0);
    }
  }

  // ----- a whole payload --------------------------------------------------------------------

  /** The progress after the first `n` REGIONs. */
  ghost function After(screen: Screen, p: Progress, regions: seq<StreamRegion>, n: nat): Progress
    requires n <= |regions| && Payload(screen, p, regions).Some?
  {
    if Payload(screen, p, regions[..n]).None? then
      PayloadFails(screen, p, regions, n);
      p
    else
      Payload(screen, p, regions[..n]).value
  }

  /** REGION `k` shows the pixel, with the tiles as they are once it is decoded. */
  ghost predicate ShownBy(screen: Screen, p: Progress, regions: seq<StreamRegion>, k: nat, px: nat, py: nat)
    requires k < |regions| && Payload(screen, p, regions).Some? && px < screen.width && py < screen.height
  {
    var q := After(screen, p, regions, k + 1);
    Refreshes(screen, q.cells, q.frame, regions[k].rects, px, py)
  }

  /** The pixel in its tile's picture once REGION `k` is decoded. */
  ghost function ColourBy(screen: Screen, p: Progress, regions: seq<StreamRegion>, k: nat, px: nat, py: nat, c: nat): u8
    requires Supported(screen) && k < |regions| && Payload(screen, p, regions).Some?
    requires px < screen.width && py < screen.height && c < 4 && ShownBy(screen, p, regions, k, px, py)
  {
    ByteOf(screen.codec, After(screen, p, regions, k + 1).cells[TileOf(px, py)].slot.value, px, py, c)
  }

  /** After `n` turns a value is what the last turn that wrote it gave it, or the first one. */
  ghost predicate LastWins(writes: nat -> bool, value: nat -> u8, n: nat, before: u8, after: u8) {
    || (after == before && forall k: nat | k < n :: !writes(k))
    || (exists k: nat :: k < n && IsLast(writes, n, k) && after == value(k))
  }

  ghost predicate IsLast(writes: nat -> bool, n: nat, k: nat) {
    writes(k) && forall later: nat | k < later < n :: !writes(later)
  }

  lemma LastWinsStep(writes: nat -> bool, value: nat -> u8, n: nat, before: u8, mid: u8, after: u8)
    requires LastWins(writes, value, n, before, mid)
    requires after == if writes(n) then value(n) else mid
    ensures LastWins(writes, value, n + 1, before, after)
  {
    if writes(n) {
      assert IsLast(writes, n + 1, n);
    } else if k: nat :| k < n && IsLast(writes, n, k) && mid == value(k) {
      assert IsLast(writes, n + 1, k);
    }
  }

  ghost function Showings(screen: Screen, p: Progress, regions: seq<StreamRegion>, px: nat, py: nat): nat -> bool
    requires Payload(screen, p, regions).Some? && px < screen.width && py < screen.height
  {
    (k: nat) => k < |regions| && ShownBy(screen, p, regions, k, px, py)
  }

  ghost function Colours(screen: Screen, p: Progress, regions: seq<StreamRegion>, px: nat, py: nat, c: nat): nat -> u8
    requires Supported(screen) && Payload(screen, p, regions).Some? && px < screen.width && py < screen.height && c < 4
  {
    (k: nat) => if k < |regions| && ShownBy(screen, p, regions, k, px, py) then ColourBy(screen, p, regions, k, px, py, c) else 0
  }

  lemma PrefixSucceeds(screen: Screen, p: Progress, regions: seq<StreamRegion>, n: nat)
    requires n <= |regions| && Payload(screen, p, regions).Some?
    ensures Payload(screen, p, regions[..n]) == Some(After(screen, p, regions, n))
  {
    if Payload(screen, p, regions[..n]).None? {
      PayloadFails(screen, p, regions, n);
    }
  }

  lemma OneMore(screen: Screen, p: Progress, init: seq<StreamRegion>, r: StreamRegion, q: Progress, next: Progress)
    requires Payload(screen, p, init) == Some(q) && Payload(screen, p, init + [r]) == Some(next)
    ensures RegionStep(screen, q, r) == Some(next)
  {
    PayloadNext(screen, p, init, r);
  }

  lemma SliceNext<T>(s: seq<T>, n: nat)
    requires n < |s|
    ensures s[..n + 1] == s[..n] + [s[n]]
  {
  }

  lemma AfterNext(screen: Screen, p: Progress, regions: seq<StreamRegion>, n: nat)
    requires n < |regions| && Payload(screen, p, regions).Some?
    ensures RegionStep(screen, After(screen, p, regions, n), regions[n]) == Some(After(screen, p, regions, n + 1))
  {
    SliceNext(regions, n);
    PrefixSucceeds(screen, p, regions, n);
    PrefixSucceeds(screen, p, regions, n + 1);
    OneMore(screen, p, regions[..n], regions[n], After(screen, p, regions, n), After(screen, p, regions, n + 1));
  }

  /** The copies of a list are those of its beginning followed by those of its rest. */
  lemma SuccessiveSplits(a: seq<BgraTile>, b: seq<BgraTile>, surface: Size, buffers: seq<seq<u8>>)
    requires surface.width > 0 && Successive(a + b, surface, buffers)
    ensures Successive(a, surface, buffers[..|a| + 1]) && Successive(b, surface, buffers[|a|..])
  {
    forall i | 0 <= i < |a| ensures Blitted(a[i], surface, buffers[i], buffers[i + 1]) {
      assert (a + b)[i] == a[i];
    }
    forall i | 0 <= i < |b| ensures Blitted(b[i], surface, buffers[|a| + i], buffers[|a| + i + 1]) {
      assert (a + b)[|a| + i] == b[i];
    }
  }

  lemma {:induction false} PixelsSoFar(screen: Screen, p: Progress, regions: seq<StreamRegion>, n: nat, buffers: seq<seq<u8>>,
                                       px: nat, py: nat, c: nat)
    requires Supported(screen) && px < screen.width && py < screen.height && c < 4
    requires p.out == [] && Payload(screen, p, regions).Some? && n <= |regions|
    requires Successive(After(screen, p, regions, n).out, Size(screen.width, screen.height), buffers)
    requires |buffers[0]| == ScreenBytes(screen.width, screen.height)
    ensures var d, last := Place(screen.width, px, py, c), buffers[|buffers| - 1];
      && |last| == |buffers[0]| && d < |last|
      && LastWins(Showings(screen, p, regions, px, py), Colours(screen, p, regions, px, py, c), n, buffers[0][d], last[d])
  {
    PixelByte(screen.width, screen.height, px, py, c);
    if n == 0 {
      assert regions[..0] == [];
    } else {
      AfterNext(screen, p, regions, n - 1);
      var before, after := After(screen, p, regions, n - 1), After(screen, p, regions, n);
      var added := TilesOf(screen, after.cells, after.frame, regions[n - 1].rects);
      assert after.out == before.out + added;
      SuccessiveSplits(before.out, added, Size(screen.width, screen.height), buffers);
      var split := |before.out|;
      PixelsSoFar(screen, p, regions, n - 1, buffers[..split + 1], px, py, c);
      RegionPixels(screen, after.cells, after.frame, regions[n - 1].rects, buffers[split..], px, py, c);
      var d := Place(screen.width, px, py, c);
      LastWinsStep(Showings(screen, p, regions, px, py), Colours(screen, p, regions, px, py, c), n - 1,
        buffers[0][d], buffers[split][d], buffers[|buffers| - 1][d]);
    }
  }

  /**
   The tiles of a whole payload, copied in order onto a surface of the screen's size: each pixel ends
   with the colour its tile had after the last REGION that shows it, and a pixel no REGION shows
   keeps its colour.
   */
  lemma EveryPixelOfAPayload(screen: Screen, p: Progress, regions: seq<StreamRegion>, buffers: seq<seq<u8>>, px: nat, py: nat, c: nat)
    requires Supported(screen) && px < screen.width && py < screen.height && c < 4
    requires p.out == [] && Payload(screen, p, regions).Some?
    requires Successive(Payload(screen, p, regions).value.out, Size(screen.width, screen.height), buffers)
    requires |buffers[0]| == ScreenBytes(screen.width, screen.height)
    ensures var d, last := Place(screen.width, px, py, c), buffers[|buffers| - 1];
      && |last| == |buffers[0]| && d < |last|
      && LastWins(Showings(screen, p, regions, px, py), Colours(screen, p, regions, px, py, c), |regions|, buffers[0][d], last[d])
  {
    assert regions[..|regions|] == regions;
    PixelsSoFar(screen, p, regions, |regions|, buffers, px, py, c);
  }
}
