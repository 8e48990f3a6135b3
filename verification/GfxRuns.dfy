/**
 What the renderer may rely on, over every sequence of PDUs: replaying the calls gives it exactly
 the surfaces and cache sizes the client believes in, and no call names a dead surface, an empty
 slot, or a pixel outside its surface. And how a payload of PDUs splits.
 */
module GfxRuns {
  import opened Prelude
  import opened Geometry
  import opened Tile
  import opened GfxSpec

  // ----- the renderer -----------------------------------------------------------------------

  datatype Renderer = Renderer(surfaces: map<u16, Size>, cache: map<u16, Size>)

  ghost predicate AllInside(rects: seq<Rect>, bounds: Size) {
    forall r <- rects :: r.Inside(bounds) && !r.IsEmpty()
  }

  ghost predicate AllFit(dests: seq<Point>, size: Size, bounds: Size) {
    forall p <- dests :: Rect(p.x, p.y, size.width, size.height).Inside(bounds)
  }

  /** Whether a call keeps the renderer's contract. */
  ghost predicate Allowed(r: Renderer, call: SinkCall) {
    match call
    case SinkReset(_) => true
    case SinkCreate(id, size) => id !in r.surfaces && size.width > 0 && size.height > 0
    case SinkDelete(id) => id in r.surfaces
    case SinkMap(id, _) => id in r.surfaces
    case SinkBgra(id, rect, stride, data) =>
      && id in r.surfaces && rect.Inside(r.surfaces[id]) && !rect.IsEmpty()
      && |data| >= (rect.height - 1) * stride + rect.width * BPP
    case SinkNv12(id, regions) => id in r.surfaces && regions != [] && AllInside(regions, r.surfaces[id])
    case SinkFill(id, _, rects) => id in r.surfaces && rects != [] && AllInside(rects, r.surfaces[id])
    case SinkCopy(src, dst, rect, dests) =>
      && src in r.surfaces && dst in r.surfaces
      && rect.Inside(r.surfaces[src]) && AllFit(dests, rect.GetSize(), r.surfaces[dst])
    case SinkToCache(id, rect, slot) => id in r.surfaces && rect.Inside(r.surfaces[id]) && ValidSlot(slot)
    case SinkFromCache(slot, id, dests) =>
      slot in r.cache && id in r.surfaces && AllFit(dests, r.cache[slot], r.surfaces[id])
    case SinkEvict(slot) => slot in r.cache
    case SinkEndFrame(_) => true
    case SinkVisible(_) => true
  }

  ghost function Apply(r: Renderer, call: SinkCall): Renderer {
    match call
    case SinkReset(_) => Renderer(map[], map[])
    case SinkCreate(id, size) => r.(surfaces := r.surfaces[id := size])
    case SinkDelete(id) => r.(surfaces := r.surfaces - {id})
    case SinkToCache(_, rect, slot) => r.(cache := r.cache[slot := rect.GetSize()])
    case SinkEvict(slot) => r.(cache := r.cache - {slot})
    case _ => r
  }

  /** `None` as soon as one call breaks the contract. */
  ghost function Replay(r: Renderer, calls: seq<SinkCall>): Option<Renderer> {
    if calls == [] then
      Some(r)
    else
      match Replay(r, calls[..|calls| - 1])
      case None => None
      case Some(before) =>
        if Allowed(before, calls[|calls| - 1]) then Some(Apply(before, calls[|calls| - 1])) else None
  }

  lemma {:induction false} ReplayConcat(r: Renderer, a: seq<SinkCall>, b: seq<SinkCall>)
    requires Replay(r, a).Some?
    ensures Replay(r, a + b) == Replay(Replay(r, a).value, b)
  {
    if b == [] {
      assert a + b == a;
    } else {
      ReplayConcat(r, a, b[..|b| - 1]);
      assert (a + b)[..|a + b| - 1] == a + b[..|b| - 1];
    }
  }

  lemma ReplayOne(r: Renderer, call: SinkCall)
    requires Allowed(r, call)
    ensures Replay(r, [call]) == Some(Apply(r, call))
  {
    assert [call][..0] == [];
  }

  // ----- the client's view ------------------------------------------------------------------

  /** The renderer the client believes in. */
  ghost function Mirror(c: Client): Renderer {
    Renderer(map id | id in c.surfaces :: c.surfaces[id].size, c.cache)
  }

  /** Surfaces are created from 16-bit sizes, so no edge test ever saturates. */
  ghost predicate Inv(c: Client) {
    && (forall id <- c.surfaces ::
          0 < c.surfaces[id].size.width < 0x1_0000 && 0 < c.surfaces[id].size.height < 0x1_0000)
    && (forall slot <- c.cache :: ValidSlot(slot))
  }

  lemma {:induction false} ClipAllInside(rects: seq<Rect16>, bounds: Size)
    ensures ClipAll(rects, bounds).Some? ==> AllInside(ClipAll(rects, bounds).value, bounds)
  {
    if rects == [] {
    } else {
      ClipAllInside(rects[..|rects| - 1], bounds);
    }
  }

  ghost predicate Covered(rects: seq<Rect>, px: int, py: int) {
    exists r <- rects :: r.Covers(px, py)
  }

  ghost predicate Requested(rects: seq<Rect16>, px: int, py: int) {
    exists r <- rects :: r.left <= px < r.right && r.top <= py < r.bottom
  }

  lemma CoveredAppend(rects: seq<Rect>, r: Rect, px: int, py: int)
    ensures Covered(rects + [r], px, py) <==> Covered(rects, px, py) || r.Covers(px, py)
  {
    assert r in rects + [r];
    assert forall q <- rects :: q in rects + [r];
  }

  lemma RequestedAppend(rects: seq<Rect16>, r: Rect16, px: int, py: int)
    ensures Requested(rects + [r], px, py)
        <==> Requested(rects, px, py) || (r.left <= px < r.right && r.top <= py < r.bottom)
  {
    assert r in rects + [r];
    assert forall q <- rects :: q in rects + [r];
  }

  /** Clipping a list of rectangles keeps exactly the requested pixels that lie on the surface. */
  lemma {:induction false} ClipAllPixels(rects: seq<Rect16>, bounds: Size, px: int, py: int)
    requires ClipAll(rects, bounds).Some?
    ensures Covered(ClipAll(rects, bounds).value, px, py)
        <==> Requested(rects, px, py) && px < bounds.width && py < bounds.height
  {
    if rects == [] {
    } else {
      var init, last := rects[..|rects| - 1], rects[|rects| - 1];
      ClipAllPixels(init, bounds, px, py);
      assert rects == init + [last];
      RequestedAppend(init, last, px, py);
      var c := Clip(ToRect(last).value, bounds);
      if c.Some? {
        CoveredAppend(ClipAll(init, bounds).value, c.value, px, py);
      } else {
        assert ClipAll(rects, bounds).value == ClipAll(init, bounds).value;
      }
    }
  }

  lemma {:induction false} DestinationsFit(points: seq<Point16>, bounds: Size, size: Size)
    requires bounds.width < 0x1_0000 && bounds.height < 0x1_0000
    ensures Destinations(points, bounds, size).Some? ==> AllFit(Destinations(points, bounds, size).value, size, bounds)
  {
    if points == [] {
    } else {
      DestinationsFit(points[..|points| - 1], bounds, size);
      FitsWithinIsInside(At(points[|points| - 1], size), bounds);
    }
  }

  /** Every drawing call is allowed and changes no surface and no slot. */
  ghost predicate Draws(r: Renderer, calls: seq<SinkCall>) {
    forall call <- calls :: Allowed(r, call) && Apply(r, call) == r
  }

  lemma {:induction false} ReplayDraws(r: Renderer, calls: seq<SinkCall>)
    requires Draws(r, calls)
    ensures Replay(r, calls) == Some(r)
  {
    if calls == [] {
    } else {
      assert forall call <- calls[..|calls| - 1] :: call in calls;
      ReplayDraws(r, calls[..|calls| - 1]);
      assert calls[|calls| - 1] in calls;
    }
  }

  lemma {:induction false} BlitCallsDraw(r: Renderer, id: u16, bounds: Size, blits: seq<Blit>)
    requires id in r.surfaces && r.surfaces[id] == bounds && bounds.width < 0x1_0000 && bounds.height < 0x1_0000
    requires forall b <- blits :: !b.rect.IsEmpty() && |b.data| >= (b.rect.height - 1) * b.stride + b.rect.width * BPP
    ensures Draws(r, BlitCalls(id, bounds, blits))
  {
    if blits == [] {
    } else {
      var b := blits[|blits| - 1];
      assert b in blits && forall x <- blits[..|blits| - 1] :: x in blits;
      BlitCallsDraw(r, id, bounds, blits[..|blits| - 1]);
      FitsWithinIsInside(b.rect, bounds);
    }
  }

  lemma {:induction false} TilesCallsDraw(r: Renderer, id: u16, bounds: Size, tiles: seq<BgraTile>)
    requires id in r.surfaces && r.surfaces[id] == bounds && bounds.width < 0x1_0000 && bounds.height < 0x1_0000
    ensures Draws(r, TilesCalls(id, bounds, tiles))
  {
    if tiles == [] {
    } else {
      TilesCallsDraw(r, id, bounds, tiles[..|tiles| - 1]);
      TileCallsDraw(r, id, bounds, tiles[|tiles| - 1]);
    }
  }

  lemma TileCallsDraw(r: Renderer, id: u16, bounds: Size, tile: BgraTile)
    requires id in r.surfaces && r.surfaces[id] == bounds && bounds.width < 0x1_0000 && bounds.height < 0x1_0000
    ensures Draws(r, TileCalls(id, bounds, tile))
  {
    BlitsAreBacked(tile, |tile.updateRects|);
    BlitCallsDraw(r, id, bounds, Blits(tile, |tile.updateRects|));
  }

  /** What one PDU owes the renderer. */
  ghost predicate Mirrored(c: Client, h: Handled) {
    && Inv(h.client)
    && Replay(Mirror(c), h.calls) == Some(Mirror(h.client))
    && (h.error.Some? ==> h.calls == [] && h.client.surfaces == c.surfaces && h.client.cache == c.cache
                          && h.client.output == c.output && h.client.ended == c.ended)
  }

  lemma DrawingMirrored(c: Client, h: Handled)
    requires Inv(c) && h.client.surfaces == c.surfaces && h.client.cache == c.cache
    requires h.client.output == c.output && h.client.ended == c.ended
    requires Draws(Mirror(c), h.calls) && (h.error.Some? ==> h.calls == [])
    ensures Mirrored(c, h)
  {
    ReplayDraws(Mirror(c), h.calls);
  }

  lemma CreateMirrored(env: Env, c: Client, id: u16, width: u16, height: u16, format: PixelFormat)
    requires Inv(c)
    ensures Mirrored(c, OnCreate(env, c, id, Size(width, height), format))
  {
    var h := OnCreate(env, c, id, Size(width, height), format);
    if h.error.None? {
      ReplayOne(Mirror(c), h.calls[0]);
      assert Mirror(h.client).surfaces == Mirror(c).surfaces[id := Size(width, height)];
    }
  }

  lemma DeleteMirrored(env: Env, c: Client, id: u16)
    requires Inv(c)
    ensures Mirrored(c, OnDelete(env, c, id))
  {
    var h := OnDelete(env, c, id);
    if id in c.surfaces {
      ReplayOne(Mirror(c), SinkDelete(id));
      assert Mirror(h.client).surfaces == Mirror(c).surfaces - {id};
    }
  }

  lemma FillMirrored(c: Client, id: u16, pixel: Color, rects: seq<Rect16>)
    requires Inv(c)
    ensures Mirrored(c, OnSolidFill(c, id, pixel, rects))
  {
    if id in c.surfaces {
      ClipAllInside(rects, c.surfaces[id].size);
    }
    DrawingMirrored(c, OnSolidFill(c, id, pixel, rects));
  }

  lemma CopyMirrored(c: Client, src: u16, dst: u16, rect: Rect16, points: seq<Point16>)
    requires Inv(c)
    ensures Mirrored(c, OnCopy(c, src, dst, rect, points))
  {
    if src in c.surfaces && dst in c.surfaces && ToRect(rect).Some? {
      var r := ToRect(rect).value;
      FitsWithinIsInside(r, c.surfaces[src].size);
      DestinationsFit(points, c.surfaces[dst].size, r.GetSize());
    }
    DrawingMirrored(c, OnCopy(c, src, dst, rect, points));
  }

  lemma ToCacheMirrored(c: Client, id: u16, slot: u16, rect: Rect16)
    requires Inv(c)
    ensures Mirrored(c, OnToCache(c, id, slot, rect))
  {
    var h := OnToCache(c, id, slot, rect);
    if h.error.None? {
      FitsWithinIsInside(ToRect(rect).value, c.surfaces[id].size);
      ReplayOne(Mirror(c), h.calls[0]);
    }
  }

  lemma FromCacheMirrored(c: Client, slot: u16, id: u16, points: seq<Point16>)
    requires Inv(c)
    ensures Mirrored(c, OnFromCache(c, slot, id, points))
  {
    if slot in c.cache && id in c.surfaces {
      DestinationsFit(points, c.surfaces[id].size, c.cache[slot]);
    }
    DrawingMirrored(c, OnFromCache(c, slot, id, points));
  }

  lemma EvictMirrored(c: Client, slot: u16)
    requires Inv(c)
    ensures Mirrored(c, OnEvict(c, slot))
  {
    if slot in c.cache {
      ReplayOne(Mirror(c), SinkEvict(slot));
    }
  }

  lemma Wire1Mirrored(env: Env, c: Client, id: u16, codec: Codec1, format: PixelFormat, rect: Rect16, data: seq<u8>)
    requires Inv(c)
    ensures Mirrored(c, OnWire1(env, c, id, codec, format, rect, data))
  {
    var h := OnWire1(env, c, id, codec, format, rect, data);
    if h.error.None? {
      var bounds := c.surfaces[id].size;
      if codec.Avc420? {
        ClipAllInside(env.avc(data).value.0, bounds);
      } else {
        var dest := ToRect(rect).value;
        var tile := if codec.Uncompressed? then env.uncompressed(dest, format, data)
          else if codec.Planar? then env.planar(dest, data) else env.clear(c.codecs, dest, data).1;
        TileCallsDraw(Mirror(c), id, bounds, tile.value);
      }
    }
    DrawingMirrored(c, h);
  }

  lemma Wire2Mirrored(env: Env, c: Client, id: u16, context: u32, data: seq<u8>)
    requires Inv(c)
    ensures Mirrored(c, OnWire2(env, c, id, context, data))
  {
    var h := OnWire2(env, c, id, context, data);
    if h.error.None? {
      TilesCallsDraw(Mirror(c), id, c.surfaces[id].size,
        env.progressive(c.codecs, id, context, c.surfaces[id].size, data).1.value);
    }
    DrawingMirrored(c, h);
  }

  lemma ResetMirrored(env: Env, c: Client, output: Size)
    requires Inv(c)
    ensures Mirrored(c, OnReset(env, c, output))
  {
    ReplayOne(Mirror(c), SinkReset(output));
  }

  lemma EndFrameMirrored(env: Env, c: Client, frameId: u32)
    requires Inv(c)
    ensures Mirrored(c, OnEndFrame(env, c, frameId))
  {
    ReplayOne(Mirror(c), SinkEndFrame(frameId));
  }

  lemma HandleWireMirrored(env: Env, c: Client, pdu: Pdu)
    requires Inv(c) && (pdu.WireToSurface1? || pdu.WireToSurface2?)
    ensures Mirrored(c, Handle(env, c, pdu))
  {
    match pdu
    case WireToSurface1(id, codec, format, rect, data) => Wire1Mirrored(env, c, id, codec, format, rect, data);
    case WireToSurface2(id, context, data) => Wire2Mirrored(env, c, id, context, data);
  }

  lemma HandleCacheMirrored(env: Env, c: Client, pdu: Pdu)
    requires Inv(c) && (pdu.SurfaceToCache? || pdu.CacheToSurface? || pdu.EvictCache?)
    ensures Mirrored(c, Handle(env, c, pdu))
  {
    match pdu
    case SurfaceToCache(id, slot, rect) => ToCacheMirrored(c, id, slot, rect);
    case CacheToSurface(slot, id, dests) => FromCacheMirrored(c, slot, id, dests);
    case EvictCache(slot) => EvictMirrored(c, slot);
  }

  lemma HandleDrawingMirrored(env: Env, c: Client, pdu: Pdu)
    requires Inv(c) && IsDrawing(pdu)
    ensures Mirrored(c, Handle(env, c, pdu))
  {
    if pdu.SolidFill? {
      FillMirrored(c, pdu.id, pdu.pixel, pdu.rects);
    } else if pdu.SurfaceToSurface? {
      CopyMirrored(c, pdu.src, pdu.dst, pdu.rect, pdu.dests);
    } else if pdu.WireToSurface1? || pdu.WireToSurface2? {
      HandleWireMirrored(env, c, pdu);
    } else {
      HandleCacheMirrored(env, c, pdu);
    }
  }

  /** One PDU: the renderer follows, or nothing reaches it at all. */
  lemma HandleMirrored(env: Env, c: Client, pdu: Pdu)
    requires Inv(c)
    ensures Mirrored(c, Handle(env, c, pdu))
  {
    match pdu
    case CreateSurface(id, width, height, format) => CreateMirrored(env, c, id, width, height, format);
    case DeleteSurface(id) => DeleteMirrored(env, c, id);
    case ResetGraphics(output) => ResetMirrored(env, c, output);
    case MapSurface(id, origin) => DrawingMirrored(c, OnMap(c, id, origin));
    case EndFrame(frameId) => EndFrameMirrored(env, c, frameId);
    case CapabilitiesConfirm(parsed) => DrawingMirrored(c, OnCaps(c, parsed));
    case StartFrame => DrawingMirrored(c, Notify(env, c, FrameBegan));
    case DeleteContext(id, context) => DrawingMirrored(c, Notify(env, c, DroppedContext(id, context)));
    case Ignored => DrawingMirrored(c, Fine(c, []));
    case FromServerOnly => DrawingMirrored(c, Fails(c, UnexpectedPdu));
    case _ => HandleDrawingMirrored(env, c, pdu);
  }

  /** A whole session: PDUs handled one after the other, whether or not they fail. */
  ghost function Session(env: Env, c: Client, pdus: seq<Pdu>): Handled {
    if pdus == [] then
      Fine(c, [])
    else
      var before := Session(env, c, pdus[..|pdus| - 1]);
      var h := Handle(env, before.client, pdus[|pdus| - 1]);
      h.(calls := before.calls + h.calls)
  }

  const EMPTY_RENDERER: Renderer := Renderer(map[], map[])

  ghost predicate Initial(c: Client) {
    c.surfaces == map[] && c.cache == map[]
  }

  /** Over every sequence of PDUs the renderer holds exactly what the client believes it holds. */
  lemma {:induction false} EverySessionIsMirrored(env: Env, c: Client, pdus: seq<Pdu>)
    requires Initial(c)
    ensures var h := Session(env, c, pdus);
      Inv(h.client) && Replay(EMPTY_RENDERER, h.calls) == Some(Mirror(h.client))
  {
    if pdus == [] {
      assert Mirror(c).surfaces == map[];
    } else {
      var init := pdus[..|pdus| - 1];
      EverySessionIsMirrored(env, c, init);
      var before := Session(env, c, init);
      HandleMirrored(env, before.client, pdus[|pdus| - 1]);
      ReplayConcat(EMPTY_RENDERER, before.calls, Handle(env, before.client, pdus[|pdus| - 1]).calls);
    }
  }

  // ----- payloads ---------------------------------------------------------------------------

  /** Exactly one PDU: its declared length is its own length. */
  ghost predicate Framed(chunk: seq<u8>) {
    |chunk| >= GFX_HEADER_SIZE && DeclaredLength(chunk) == Some(|chunk|)
  }

  ghost function Flatten(chunks: seq<seq<u8>>): seq<u8> {
    if chunks == [] then [] else chunks[0] + Flatten(chunks[1..])
  }

  /** The PDUs of a payload, decoded and handled one by one until one fails. */
  ghost function HandleChunks(handle: Handler, c: Client, chunks: seq<seq<u8>>): Handled
    decreases |chunks|
  {
    if chunks == [] then
      Fine(c, [])
    else
      var first := handle(c, chunks[0]);
      Then(first, HandleChunks(handle, first.client, chunks[1..]))
  }

  lemma FrameOfFirst(chunk: seq<u8>, rest: seq<u8>)
    requires Framed(chunk)
    ensures FrameLength(chunk + rest) == Some(|chunk|)
    ensures (chunk + rest)[..|chunk|] == chunk && (chunk + rest)[|chunk|..] == rest
  {
  }

  /** Whole PDUs back to back are split exactly at their declared lengths. */
  lemma {:induction false} PayloadSplits(handle: Handler, c: Client, chunks: seq<seq<u8>>, tail: seq<u8>)
    requires forall chunk <- chunks :: Framed(chunk)
    ensures var h := HandleChunks(handle, c, chunks);
      ProcessPdus(handle, c, Flatten(chunks) + tail) == Then(h, ProcessPdus(handle, h.client, tail))
    decreases |chunks|
  {
    if chunks == [] {
      assert Flatten(chunks) + tail == tail;
      var p := ProcessPdus(handle, c, tail);
      assert [] + p.calls == p.calls;
    } else {
      assert forall chunk <- chunks[1..] :: chunk in chunks;
      assert chunks[0] in chunks;
      var rest := Flatten(chunks[1..]) + tail;
      assert Flatten(chunks) + tail == chunks[0] + rest;
      FrameOfFirst(chunks[0], rest);
      var first := handle(c, chunks[0]);
      PayloadSplits(handle, first.client, chunks[1..], tail);
      ThenAssociates(first, HandleChunks(handle, first.client, chunks[1..]),
        ProcessPdus(handle, HandleChunks(handle, first.client, chunks[1..]).client, tail));
    }
  }

  lemma ThenAssociates(a: Handled, b: Handled, c: Handled)
    ensures Then(a, Then(b, c)) == Then(Then(a, b), c)
  {
    assert a.calls + (b.calls + c.calls) == a.calls + b.calls + c.calls;
  }

  /** The outcome of a payload when `made` was sent already and `data` is left. */
  ghost function Onwards(handle: Handler, c: Client, made: seq<SinkCall>, data: seq<u8>): Handled {
    Then(Fine(c, made), ProcessPdus(handle, c, data))
  }

  lemma OnwardsStep(handle: Handler, c: Client, made: seq<SinkCall>, data: seq<u8>)
    requires data != []
    ensures FrameLength(data).None? ==> Onwards(handle, c, made, data) == Handled(c, made, Some(Decode))
    ensures FrameLength(data).Some? ==>
      var len := FrameLength(data).value;
      var first := handle(c, data[..len]);
      Onwards(handle, c, made, data)
        == if first.error.Some? then first.(calls := made + first.calls)
           else Onwards(handle, first.client, made + first.calls, data[len..])
  {
    if FrameLength(data).Some? {
      var len := FrameLength(data).value;
      var first := handle(c, data[..len]);
      ThenAssociates(Fine(c, made), first, ProcessPdus(handle, first.client, data[len..]));
    } else {
      assert made + [] == made;
    }
  }

  /** The whole PDUs a payload is handled as, up to the end or up to the failing one. */
  ghost function Chunks(handle: Handler, c: Client, data: seq<u8>): (chunks: seq<seq<u8>>)
    decreases |data|
  {
    if data == [] || FrameLength(data).None? then
      []
    else
      var len := FrameLength(data).value;
      var first := handle(c, data[..len]);
      if first.error.Some? then [] else [data[..len]] + Chunks(handle, first.client, data[len..])
  }

  /** Handles every PDU as the renderer needs it. */
  ghost predicate Careful(handle: Handler) {
    forall c, bytes :: Inv(c) ==> Mirrored(c, handle(c, bytes))
  }

  lemma ClientIsCareful(env: Env)
    ensures Careful(HandlerOf(env))
  {
    forall c, bytes | Inv(c)
      ensures Mirrored(c, HandlerOf(env)(c, bytes))
    {
      if env.parse(bytes).Some? {
        HandleMirrored(env, c, env.parse(bytes).value);
      }
    }
  }

  /** `h` is what handling `done` gives, up to an error that changed no surface, slot or call. */
  ghost predicate StopsAfter(done: Handled, h: Handled) {
    && done.error.None? && Inv(done.client)
    && h.calls == done.calls
    && h.client.surfaces == done.client.surfaces && h.client.cache == done.client.cache
    && (h.error.None? ==> h.client == done.client)
  }

  lemma StopsAfterThen(first: Handled, done: Handled, h: Handled)
    requires first.error.None? && StopsAfter(done, h)
    ensures StopsAfter(Then(first, done), Then(first, h))
  {
  }

  lemma FirstIsFramed(data: seq<u8>)
    requires FrameLength(data).Some?
    ensures Framed(data[..FrameLength(data).value])
    ensures data == data[..FrameLength(data).value] + data[FrameLength(data).value..]
  {
  }

  lemma HandleOneMore(handle: Handler, c: Client, chunk: seq<u8>, more: seq<seq<u8>>)
    ensures HandleChunks(handle, c, [chunk] + more)
         == Then(handle(c, chunk), HandleChunks(handle, handle(c, chunk).client, more))
    ensures Flatten([chunk] + more) == chunk + Flatten(more)
  {
    assert ([chunk] + more)[1..] == more;
  }

  /** The first PDU of a payload that succeeds. */
  lemma ChunkStep(handle: Handler, c: Client, data: seq<u8>)
    requires data != [] && FrameLength(data).Some?
    requires handle(c, data[..FrameLength(data).value]).error.None?
    ensures var chunk, rest := data[..FrameLength(data).value], data[FrameLength(data).value..];
      var first := handle(c, chunk);
      && Framed(chunk) && data == chunk + rest
      && Chunks(handle, c, data) == [chunk] + Chunks(handle, first.client, rest)
      && HandleChunks(handle, c, Chunks(handle, c, data))
         == Then(first, HandleChunks(handle, first.client, Chunks(handle, first.client, rest)))
      && Flatten(Chunks(handle, c, data)) == chunk + Flatten(Chunks(handle, first.client, rest))
      && ProcessPdus(handle, c, data) == Then(first, ProcessPdus(handle, first.client, rest))
  {
    var chunk, rest := data[..FrameLength(data).value], data[FrameLength(data).value..];
    FirstIsFramed(data);
    HandleOneMore(handle, c, chunk, Chunks(handle, handle(c, chunk).client, rest));
  }

  /**
   Any payload is some framed PDUs that succeed, and then nothing or something that fails. A
   failure leaves the calls, the surfaces and the cache as they were after those PDUs; without one
   the whole payload was consumed.
   */
  lemma {:induction false} PayloadPrefix(handle: Handler, c: Client, data: seq<u8>)
    requires Inv(c) && Careful(handle)
    ensures forall chunk <- Chunks(handle, c, data) :: Framed(chunk)
    ensures StopsAfter(HandleChunks(handle, c, Chunks(handle, c, data)), ProcessPdus(handle, c, data))
    ensures Flatten(Chunks(handle, c, data)) <= data
    ensures ProcessPdus(handle, c, data).error.None? <==> Flatten(Chunks(handle, c, data)) == data
    decreases |data|
  {
    if data != [] && FrameLength(data).Some? {
      var chunk, rest := data[..FrameLength(data).value], data[FrameLength(data).value..];
      var first := handle(c, chunk);
      assert Mirrored(c, first);
      if first.error.None? {
        ChunkStep(handle, c, data);
        PayloadPrefix(handle, first.client, rest);
        StopsAfterThen(first, HandleChunks(handle, first.client, Chunks(handle, first.client, rest)),
          ProcessPdus(handle, first.client, rest));
      }
    }
  }
}
