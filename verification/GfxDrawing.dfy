/**
 What the drawing PDUs mean, stated without the client's clipping and conversion: when each of them
 succeeds, and which pixels of which surface the one call it makes is about.
 */
module GfxDrawing {
  import opened Prelude
  import opened Geometry
  import opened GfxSpec
  import opened GfxRuns

  predicate Upright(r: Rect16) {
    r.left <= r.right && r.top <= r.bottom
  }

  lemma {:induction false} ClipAllAccepts(rects: seq<Rect16>, bounds: Size)
    ensures ClipAll(rects, bounds).Some? <==> forall r <- rects :: Upright(r)
  {
    if rects == [] {
    } else {
      var init, last := rects[..|rects| - 1], rects[|rects| - 1];
      ClipAllAccepts(init, bounds);
      assert rects == init + [last];
      assert last in rects && forall r <- init :: r in rects;
    }
  }

  /** The image fits at the point, in exact arithmetic. */
  ghost predicate FitsAt(p: Point16, size: Size, bounds: Size) {
    p.x + size.width <= bounds.width && p.y + size.height <= bounds.height
  }

  lemma {:induction false} DestinationsMeaning(points: seq<Point16>, bounds: Size, size: Size)
    requires bounds.width < 0x1_0000 && bounds.height < 0x1_0000
    ensures var d := Destinations(points, bounds, size);
      && (d.Some? <==> forall p <- points :: FitsAt(p, size, bounds))
      && (d.Some? ==> |d.value| == |points|
                      && forall i :: 0 <= i < |points| ==> d.value[i] == Point(points[i].x, points[i].y))
  {
    if points == [] {
    } else {
      var init, last := points[..|points| - 1], points[|points| - 1];
      DestinationsMeaning(init, bounds, size);
      assert points == init + [last];
      assert last in points && forall p <- init :: p in points;
      FitsWithinIsInside(At(last, size), bounds);
    }
  }

  /** The colour a surface stores: its alpha counts only when the surface has one. */
  function Stored(format: PixelFormat, pixel: Color): Color {
    if format.ARgb? then pixel else pixel.(a := 0xFF)
  }

  /** `calls` fills exactly the pixels `(px, py)` of the surface for which a rectangle was sent. */
  ghost predicate Fills(calls: seq<SinkCall>, id: u16, color: Color, rects: seq<Rect16>, bounds: Size, px: int, py: int) {
    var wanted := Requested(rects, px, py) && px < bounds.width && py < bounds.height;
    if calls == [] then
      !wanted
    else
      |calls| == 1 && calls[0].SinkFill?
      && exists filled :: calls[0] == SinkFill(id, color, filled) && (Covered(filled, px, py) <==> wanted)
  }

  /** A fill succeeds exactly on a live surface with upright rectangles, and fills exactly what was asked for. */
  lemma FillMeaning(c: Client, id: u16, pixel: Color, rects: seq<Rect16>, px: int, py: int)
    ensures var h := OnSolidFill(c, id, pixel, rects);
      && (h.error.None? <==> id in c.surfaces && forall r <- rects :: Upright(r))
      && h.client == c
      && (h.error.None? ==>
            Fills(h.calls, id, Stored(c.surfaces[id].format, pixel), rects, c.surfaces[id].size, px, py))
  {
    if id in c.surfaces {
      var bounds := c.surfaces[id].size;
      ClipAllAccepts(rects, bounds);
      if ClipAll(rects, bounds).Some? {
        ClipAllPixels(rects, bounds, px, py);
        var h, clipped := OnSolidFill(c, id, pixel, rects), ClipAll(rects, bounds).value;
        if clipped != [] {
          assert h.calls[0] == SinkFill(id, Stored(c.surfaces[id].format, pixel), clipped);
        }
      }
    }
  }

  /** The converted destinations of a copy: the points sent, in their order. */
  ghost predicate SamePoints(dests: seq<Point>, points: seq<Point16>) {
    |dests| == |points| && forall i :: 0 <= i < |points| ==> dests[i] == Point(points[i].x, points[i].y)
  }

  /** The rectangle of an upright wire rectangle. */
  function Area(r: Rect16): Rect
    requires Upright(r)
  {
    Rect(r.left, r.top, r.right - r.left, r.bottom - r.top)
  }

  ghost predicate Holds(bounds: Size, r: Rect16) {
    r.right <= bounds.width && r.bottom <= bounds.height
  }

  /**
   A copy succeeds exactly when both surfaces live, the source rectangle lies in the source, and the
   image fits at every point of the destination; it then copies that rectangle to those points.
   */
  lemma CopyMeaning(c: Client, src: u16, dst: u16, rect: Rect16, points: seq<Point16>)
    requires Inv(c)
    ensures var h := OnCopy(c, src, dst, rect, points);
      && (h.error.None? <==>
            && src in c.surfaces && dst in c.surfaces && Upright(rect) && Holds(c.surfaces[src].size, rect)
            && forall p <- points :: FitsAt(p, Area(rect).GetSize(), c.surfaces[dst].size))
      && h.client == c
      && (h.error.None? ==> |h.calls| == 1 && h.calls[0].SinkCopy? && SamePoints(h.calls[0].dests, points)
                            && h.calls[0] == SinkCopy(src, dst, Area(rect), h.calls[0].dests))
  {
    if src in c.surfaces && dst in c.surfaces && Upright(rect) {
      FitsWithinIsInside(Area(rect), c.surfaces[src].size);
      DestinationsMeaning(points, c.surfaces[dst].size, Area(rect).GetSize());
    }
  }

  /** What goes into a cache slot is the size that comes out of it: a store followed by a draw. */
  lemma StoredThenDrawn(c: Client, id: u16, slot: u16, rect: Rect16, to: u16, points: seq<Point16>)
    requires Inv(c) && OnToCache(c, id, slot, rect).error.None? && to in c.surfaces
    ensures Upright(rect) && Holds(c.surfaces[id].size, rect) && ValidSlot(slot)
    ensures OnToCache(c, id, slot, rect).calls == [SinkToCache(id, Area(rect), slot)]
    ensures var h := OnFromCache(OnToCache(c, id, slot, rect).client, slot, to, points);
      && (h.error.None? <==> forall p <- points :: FitsAt(p, Area(rect).GetSize(), c.surfaces[to].size))
      && (h.error.None? ==> |h.calls| == 1 && h.calls[0].SinkFromCache? && SamePoints(h.calls[0].dests, points)
                            && h.calls[0] == SinkFromCache(slot, to, h.calls[0].dests))
  {
    FitsWithinIsInside(Area(rect), c.surfaces[id].size);
    DestinationsMeaning(points, c.surfaces[to].size, Area(rect).GetSize());
  }
}
