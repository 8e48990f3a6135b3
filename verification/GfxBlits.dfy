/**
 What decoded pictures become on the wire to the renderer, read off the calls alone: one blit per
 drawable update rectangle, in order, holding the tile's own bytes; and an H.264 picture on exactly
 the pixels its stream asks for.
 */
module GfxBlits {
  import opened Arithmetic
  import opened Geometry
  import opened GfxDrawing
  import opened GfxRuns
  import opened GfxSpec
  import opened Prelude
  import opened Tile

  // ----- one rectangle ----------------------------------------------------------------------

  /** Update rectangle `j` of tile `i`. */
  datatype Spot = Spot(i: nat, j: nat)

  /** The order in which a list of tiles and their rectangles is gone through. */
  predicate Earlier(a: Spot, b: Spot) {
    a.i < b.i || (a.i == b.i && a.j < b.j)
  }

  predicate InList(tiles: seq<BgraTile>, at: Spot) {
    at.i < |tiles| && at.j < |tiles[at.i].updateRects|
  }

  /** The rectangle has a blit and lies inside the surface. */
  predicate Drawable(tiles: seq<BgraTile>, bounds: Size, at: Spot)
    requires InList(tiles, at)
  {
    var rect := tiles[at.i].updateRects[at.j];
    BlitOf(tiles[at.i], rect).Some? && rect.FitsWithin(bounds)
  }

  /** The byte a blit has for channel `k` of column `col` in row `row` of its rectangle. */
  function ByteAt(call: SinkCall, row: nat, col: nat, k: nat): Option<u8>
    requires call.SinkBgra?
  {
    MulNonNegative(row, call.stride);
    var at := row * call.stride + 4 * col + k;
    if at < |call.data| then Some(call.data[at]) else None
  }

  /** The tile's byte for a surface pixel. */
  ghost function TileByte(tile: BgraTile, x: int, y: int, k: int): Option<u8> {
    var at := ((y - tile.origin.y) * tile.size.width + (x - tile.origin.x)) * 4 + k;
    if 0 <= at < |tile.data| then Some(tile.data[at]) else None
  }

  /** The call draws this rectangle of this tile: each pixel comes from the tile's same pixel. */
  ghost predicate DrawsRect(call: SinkCall, id: u16, tile: BgraTile, rect: Rect) {
    && call.SinkBgra? && call.id == id && call.rect == rect
    && forall row: nat, col: nat, k: nat | row < rect.height && col < rect.width && k < 4 ::
         && ByteAt(call, row, col, k).Some?
         && ByteAt(call, row, col, k) == TileByte(tile, rect.x + col, rect.y + row, k)
  }

  lemma BlitDraws(id: u16, tile: BgraTile, rect: Rect)
    requires BlitOf(tile, rect).Some?
    ensures var b := BlitOf(tile, rect).value;
      DrawsRect(SinkBgra(id, b.rect, b.stride, b.data), id, tile, rect)
  {
    var b := BlitOf(tile, rect).value;
    var call := SinkBgra(id, b.rect, b.stride, b.data);
    forall row: nat, col: nat, k: nat | row < rect.height && col < rect.width && k < 4
      ensures ByteAt(call, row, col, k).Some?
      ensures ByteAt(call, row, col, k) == TileByte(tile, rect.x + col, rect.y + row, k)
    {
      MulNonNegative(row, tile.Stride());
      SourceByte(tile, rect, row, 4 * col + k);
    }
  }

  // ----- lists of tiles ---------------------------------------------------------------------

  /** `spots` are exactly the drawable rectangles before `end`, in order. */
  ghost predicate AllDrawable(tiles: seq<BgraTile>, bounds: Size, spots: seq<Spot>, end: Spot) {
    && (forall n :: 0 <= n < |spots| ==> InList(tiles, spots[n]) && Drawable(tiles, bounds, spots[n]) && Earlier(spots[n], end))
    && (forall at | InList(tiles, at) && Drawable(tiles, bounds, at) && Earlier(at, end) :: at in spots)
    && (forall m, n :: 0 <= m < n < |spots| ==> Earlier(spots[m], spots[n]))
  }

  ghost predicate DrawsSpot(call: SinkCall, id: u16, tiles: seq<BgraTile>, at: Spot) {
    InList(tiles, at) && DrawsRect(call, id, tiles[at.i], tiles[at.i].updateRects[at.j])
  }

  /** Call `n` draws the `n`-th drawable rectangle before `end`, and there is no other call. */
  ghost predicate DrawsUpTo(calls: seq<SinkCall>, id: u16, tiles: seq<BgraTile>, bounds: Size, spots: seq<Spot>, end: Spot) {
    && AllDrawable(tiles, bounds, spots, end)
    && |calls| == |spots|
    && forall n :: 0 <= n < |calls| ==> DrawsSpot(calls[n], id, tiles, spots[n])
  }

  ghost predicate Reaches(calls: seq<SinkCall>, id: u16, bounds: Size, tiles: seq<BgraTile>, end: Spot) {
    exists spots :: DrawsUpTo(calls, id, tiles, bounds, spots, end)
  }

  /** One call per drawable rectangle of each tile in turn, and nothing else. */
  ghost predicate DrawsTiles(calls: seq<SinkCall>, id: u16, bounds: Size, tiles: seq<BgraTile>) {
    Reaches(calls, id, bounds, tiles, Spot(|tiles|, 0))
  }

  lemma OneMoreSpot(calls: seq<SinkCall>, id: u16, tiles: seq<BgraTile>, bounds: Size, spots: seq<Spot>, at: Spot, call: SinkCall)
    requires DrawsUpTo(calls, id, tiles, bounds, spots, at)
    requires InList(tiles, at) && Drawable(tiles, bounds, at) && DrawsSpot(call, id, tiles, at)
    ensures DrawsUpTo(calls + [call], id, tiles, bounds, spots + [at], Spot(at.i, at.j + 1))
  {
    var end, more := Spot(at.i, at.j + 1), spots + [at];
    forall other | InList(tiles, other) && Drawable(tiles, bounds, other) && Earlier(other, end) ensures other in more {
      assert other == at || Earlier(other, at);
      assert more[|spots|] == at;
      assert forall x <- spots :: x in more;
    }
  }

  lemma NoSpot(calls: seq<SinkCall>, id: u16, tiles: seq<BgraTile>, bounds: Size, spots: seq<Spot>, at: Spot)
    requires DrawsUpTo(calls, id, tiles, bounds, spots, at)
    requires InList(tiles, at) && !Drawable(tiles, bounds, at)
    ensures DrawsUpTo(calls, id, tiles, bounds, spots, Spot(at.i, at.j + 1))
  {
    var end := Spot(at.i, at.j + 1);
    forall other | InList(tiles, other) && Drawable(tiles, bounds, other) && Earlier(other, end) ensures other in spots {
      assert other == at || Earlier(other, at);
    }
  }

  lemma NextTile(calls: seq<SinkCall>, id: u16, bounds: Size, tiles: seq<BgraTile>, i: nat)
    requires i < |tiles| && Reaches(calls, id, bounds, tiles, Spot(i, |tiles[i].updateRects|))
    ensures Reaches(calls, id, bounds, tiles, Spot(i + 1, 0))
  {
    var end := Spot(i, |tiles[i].updateRects|);
    var spots :| DrawsUpTo(calls, id, tiles, bounds, spots, end);
    forall other | InList(tiles, other) && Drawable(tiles, bounds, other) && Earlier(other, Spot(i + 1, 0)) ensures other in spots {
      assert Earlier(other, end);
    }
    assert DrawsUpTo(calls, id, tiles, bounds, spots, Spot(i + 1, 0));
  }

  /** The call of one update rectangle, if it has one. */
  function RectCalls(id: u16, bounds: Size, tile: BgraTile, rect: Rect): seq<SinkCall> {
    match BlitOf(tile, rect)
    case Some(b) => if rect.FitsWithin(bounds) then [SinkBgra(id, b.rect, b.stride, b.data)] else []
    case None => []
  }

  lemma BlitCallsNext(id: u16, bounds: Size, tile: BgraTile, n: nat)
    requires n < |tile.updateRects|
    ensures BlitCalls(id, bounds, Blits(tile, n + 1))
         == BlitCalls(id, bounds, Blits(tile, n)) + RectCalls(id, bounds, tile, tile.updateRects[n])
  {
    var before := Blits(tile, n);
    match BlitOf(tile, tile.updateRects[n]) {
      case None =>
        assert Blits(tile, n + 1) == before;
        assert BlitCalls(id, bounds, before) + [] == BlitCalls(id, bounds, before);
      case Some(b) => assert (before + [b])[..|before|] == before;
    }
  }

  lemma NextSpot(calls: seq<SinkCall>, id: u16, bounds: Size, tiles: seq<BgraTile>, at: Spot)
    requires InList(tiles, at) && Reaches(calls, id, bounds, tiles, at)
    ensures Reaches(calls + RectCalls(id, bounds, tiles[at.i], tiles[at.i].updateRects[at.j]), id, bounds, tiles,
                    Spot(at.i, at.j + 1))
  {
    var tile, rect := tiles[at.i], tiles[at.i].updateRects[at.j];
    var spots :| DrawsUpTo(calls, id, tiles, bounds, spots, at);
    if Drawable(tiles, bounds, at) {
      BlitDraws(id, tile, rect);
      OneMoreSpot(calls, id, tiles, bounds, spots, at, RectCalls(id, bounds, tile, rect)[0]);
    } else {
      NoSpot(calls, id, tiles, bounds, spots, at);
      assert calls + [] == calls;
    }
  }

  lemma {:induction false} TileLoop(id: u16, bounds: Size, tiles: seq<BgraTile>, i: nat, n: nat, calls: seq<SinkCall>)
    requires i < |tiles| && n <= |tiles[i].updateRects| && Reaches(calls, id, bounds, tiles, Spot(i, 0))
    ensures Reaches(calls + BlitCalls(id, bounds, Blits(tiles[i], n)), id, bounds, tiles, Spot(i, n))
  {
    if n == 0 {
      assert calls + [] == calls;
    } else {
      TileLoop(id, bounds, tiles, i, n - 1, calls);
      var made := BlitCalls(id, bounds, Blits(tiles[i], n - 1));
      NextSpot(calls + made, id, bounds, tiles, Spot(i, n - 1));
      BlitCallsNext(id, bounds, tiles[i], n - 1);
      Associates(calls, made, RectCalls(id, bounds, tiles[i], tiles[i].updateRects[n - 1]));
    }
  }

  lemma Associates<T>(a: seq<T>, b: seq<T>, c: seq<T>)
    ensures a + b + c == a + (b + c)
  {
  }

  lemma {:induction false} TilesLoop(id: u16, bounds: Size, tiles: seq<BgraTile>, m: nat)
    requires m <= |tiles|
    ensures Reaches(TilesCalls(id, bounds, tiles[..m]), id, bounds, tiles, Spot(m, 0))
  {
    if m == 0 {
      assert DrawsUpTo([], id, tiles, bounds, [], Spot(0, 0));
    } else {
      TilesLoop(id, bounds, tiles, m - 1);
      TileLoop(id, bounds, tiles, m - 1, |tiles[m - 1].updateRects|, TilesCalls(id, bounds, tiles[..m - 1]));
      assert tiles[..m][..m - 1] == tiles[..m - 1];
      NextTile(TilesCalls(id, bounds, tiles[..m]), id, bounds, tiles, m - 1);
    }
  }

  lemma TilesAreDrawn(id: u16, bounds: Size, tiles: seq<BgraTile>)
    ensures DrawsTiles(TilesCalls(id, bounds, tiles), id, bounds, tiles)
  {
    TilesLoop(id, bounds, tiles, |tiles|);
    assert tiles[..|tiles|] == tiles;
  }

  lemma TileIsDrawn(id: u16, bounds: Size, tile: BgraTile)
    ensures DrawsTiles(TileCalls(id, bounds, tile), id, bounds, [tile])
  {
    TilesAreDrawn(id, bounds, [tile]);
    assert [tile][..0] == [];
    assert TilesCalls(id, bounds, [tile]) == TileCalls(id, bounds, tile);
  }

  // ----- WireToSurface2 ---------------------------------------------------------------------

  /**
   A progressive payload succeeds exactly on a live surface whose decoder accepts it; its tiles are
   then drawn in order, and nothing else is.
   */
  lemma Wire2Meaning(env: Env, c: Client, id: u16, context: u32, data: seq<u8>)
    ensures var h := OnWire2(env, c, id, context, data);
      if id !in c.surfaces then
        h == Handled(c, [], Some(UnknownSurface(id)))
      else
        var bounds := c.surfaces[id].size;
        var decoded := env.progressive(c.codecs, id, context, bounds, data);
        && h.client == c.(codecs := decoded.0)
        && (h.error == if decoded.1.Some? then None else Some(CodecFailed))
        && if decoded.1.Some? then DrawsTiles(h.calls, id, bounds, decoded.1.value) else h.calls == []
  {
    if id in c.surfaces {
      var bounds := c.surfaces[id].size;
      var decoded := env.progressive(c.codecs, id, context, bounds, data);
      if decoded.1.Some? {
        TilesAreDrawn(id, bounds, decoded.1.value);
      }
    }
  }

  // ----- WireToSurface1 ---------------------------------------------------------------------

  /** What a bitmap codec makes of the data, and its memory afterwards. */
  ghost predicate Decodes(env: Env, memory: Memory, codec: Codec1, format: PixelFormat, dest: Rect, data: seq<u8>,
                          after: Memory, tile: Option<BgraTile>)
  {
    match codec
    case Uncompressed => after == memory && tile == env.uncompressed(dest, format, data)
    case Planar => after == memory && tile == env.planar(dest, data)
    case ClearCodec => (after, tile) == env.clear(memory, dest, data)
    case _ => false
  }

  predicate IsBitmap(codec: Codec1) {
    codec.Uncompressed? || codec.Planar? || codec.ClearCodec?
  }

  /**
   A bitmap is decoded exactly when its surface lives and its upright rectangle lies inside, and the
   decoded tile is then drawn and nothing else is.
   */
  lemma BitmapMeaning(env: Env, c: Client, id: u16, codec: Codec1, format: PixelFormat, rect: Rect16, data: seq<u8>,
                      after: Memory, tile: Option<BgraTile>)
    requires Inv(c) && id in c.surfaces && Upright(rect) && Holds(c.surfaces[id].size, rect)
    requires Decodes(env, c.codecs, codec, format, Area(rect), data, after, tile)
    ensures var h := OnWire1(env, c, id, codec, format, rect, data);
      && h.client == c.(codecs := after)
      && (h.error == if tile.Some? then None else Some(CodecFailed))
      && if tile.Some? then DrawsTiles(h.calls, id, c.surfaces[id].size, [tile.value]) else h.calls == []
  {
    FitsWithinIsInside(Area(rect), c.surfaces[id].size);
    assert OnWire1(env, c, id, codec, format, rect, data) == Draw(c.(codecs := after), id, c.surfaces[id].size, tile);
    if tile.Some? {
      TileIsDrawn(id, c.surfaces[id].size, tile.value);
    }
  }

  /** Every other bitmap is refused before its codec sees it. */
  lemma BitmapRefused(env: Env, c: Client, id: u16, codec: Codec1, format: PixelFormat, rect: Rect16, data: seq<u8>)
    requires Inv(c) && (codec.Unsupported? || IsBitmap(codec))
    requires !(id in c.surfaces && Upright(rect) && IsBitmap(codec) && Holds(c.surfaces[id].size, rect))
    ensures OnWire1(env, c, id, codec, format, rect, data) == Handled(c, [], Some(
      if id !in c.surfaces then UnknownSurface(id)
      else if !Upright(rect) then Decode
      else if codec.Unsupported? then UnsupportedCodec
      else OutOfBounds(id)))
  {
    if id in c.surfaces && Upright(rect) {
      FitsWithinIsInside(Area(rect), c.surfaces[id].size);
    }
  }

  // ----- H.264 ------------------------------------------------------------------------------

  /** A pixel of the surface for which the stream names a rectangle. */
  ghost predicate Wanted(rects: seq<Rect16>, bounds: Size, px: int, py: int) {
    Requested(rects, px, py) && px < bounds.width && py < bounds.height
  }

  /** The picture goes to exactly the wanted pixels: one call when there is one, and none otherwise. */
  ghost predicate ShowsPicture(calls: seq<SinkCall>, id: u16, rects: seq<Rect16>, bounds: Size) {
    if exists px, py :: Wanted(rects, bounds, px, py) then
      exists regions ::
        && calls == [SinkNv12(id, regions)] && AllInside(regions, bounds)
        && forall px, py :: Covered(regions, px, py) <==> Wanted(rects, bounds, px, py)
    else
      calls == []
  }

  lemma PictureIsShown(id: u16, rects: seq<Rect16>, bounds: Size)
    requires ClipAll(rects, bounds).Some?
    ensures var regions := ClipAll(rects, bounds).value;
      ShowsPicture(if regions != [] then [SinkNv12(id, regions)] else [], id, rects, bounds)
  {
    var regions := ClipAll(rects, bounds).value;
    ClipAllInside(rects, bounds);
    forall px, py ensures Covered(regions, px, py) <==> Wanted(rects, bounds, px, py) {
      ClipAllPixels(rects, bounds, px, py);
    }
    if regions != [] {
      assert regions[0] in regions;
      assert Covered(regions, regions[0].x, regions[0].y);
      assert Wanted(rects, bounds, regions[0].x, regions[0].y);
      assert [SinkNv12(id, regions)] == [SinkNv12(id, regions)];
    }
  }

  /**
   An AVC420 picture whose stream and rectangles are in order is always decoded, whether or not any
   pixel of it is wanted, and one the decoder shows is drawn on exactly the wanted pixels.
   */
  lemma PictureMeaning(env: Env, c: Client, id: u16, format: PixelFormat, rect: Rect16, data: seq<u8>)
    requires id in c.surfaces && Upright(rect)
    ensures var h := OnWire1(env, c, id, Avc420, format, rect, data);
      if env.avc(data).None? || exists r <- env.avc(data).value.0 :: !Upright(r) then
        h == Handled(c, [], Some(Decode))
      else
        var decoded := env.h264(c.codecs, env.avc(data).value.1);
        && h.client == c.(codecs := decoded.0)
        && (h.error == if decoded.1.Some? then None else Some(CodecFailed))
        && if decoded.1 == Some(true) then ShowsPicture(h.calls, id, env.avc(data).value.0, c.surfaces[id].size)
           else h.calls == []
  {
    if env.avc(data).Some? {
      var rects, bounds := env.avc(data).value.0, c.surfaces[id].size;
      ClipAllAccepts(rects, bounds);
      if ClipAll(rects, bounds).Some? {
        PictureIsShown(id, rects, bounds);
      }
    }
  }
}
