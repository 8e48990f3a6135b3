/**
 The RDPGFX client (MS-RDPEGFX) as a state machine: surface and cache book-keeping, the checks every
 rectangle passes, and the calls made on the renderer.

 PDU decoding, H.264 and the tile codecs are foreign; `Env` holds them as arbitrary functions with
 their own memory.
 */
module GfxSpec {
  import opened Prelude
  import opened Geometry
  import opened Tile
  import Progressive = ProgressiveCodec

  const GFX_HEADER_SIZE: nat := 8
  const MAX_CACHE_SLOTS: u16 := 25_600

  datatype PixelFormat = XRgb | ARgb

  /** RDPGFX_RECT16: exclusive right and bottom. */
  datatype Rect16 = Rect16(left: u16, top: u16, right: u16, bottom: u16)

  datatype Point16 = Point16(x: u16, y: u16)

  datatype Color = Color(b: u8, g: u8, r: u8, a: u8)

  datatype Codec1 = Avc420 | Uncompressed | Planar | ClearCodec | Unsupported

  datatype Pdu =
    | CapabilitiesConfirm(parsed: Option<Option<seq<u8>>>)
    | ResetGraphics(output: Size)
    | CreateSurface(id: u16, width: u16, height: u16, format: PixelFormat)
    | DeleteSurface(id: u16)
    | MapSurface(id: u16, origin: Point)
    | Ignored
    | StartFrame
    | EndFrame(frameId: u32)
    | SolidFill(id: u16, pixel: Color, rects: seq<Rect16>)
    | SurfaceToSurface(src: u16, dst: u16, rect: Rect16, dests: seq<Point16>)
    | SurfaceToCache(id: u16, slot: u16, rect: Rect16)
    | CacheToSurface(slot: u16, id: u16, dests: seq<Point16>)
    | EvictCache(slot: u16)
    | DeleteContext(id: u16, context: u32)
    | WireToSurface1(id: u16, codec: Codec1, pixelFormat: PixelFormat, rect: Rect16, data: seq<u8>)
    | WireToSurface2(id: u16, context: u32, data: seq<u8>)
    | FromServerOnly

  datatype GfxError =
    | Decode
    | InvalidSurface(id: u16)
    | UnknownSurface(id: u16)
    | InvalidCacheSlot(slot: u16)
    | OutOfBounds(id: u16)
    | UnsupportedCodec
    | UnexpectedPdu
    | CodecFailed

  datatype SinkCall =
    | SinkReset(output: Size)
    | SinkCreate(id: u16, size: Size)
    | SinkDelete(id: u16)
    | SinkMap(id: u16, origin: Point)
    | SinkBgra(id: u16, rect: Rect, stride: nat, data: seq<u8>)
    | SinkNv12(id: u16, regions: seq<Rect>)
    | SinkFill(id: u16, color: Color, rects: seq<Rect>)
    | SinkCopy(src: u16, dst: u16, rect: Rect, dests: seq<Point>)
    | SinkToCache(id: u16, rect: Rect, slot: u16)
    | SinkFromCache(slot: u16, id: u16, dests: seq<Point>)
    | SinkEvict(slot: u16)
    | SinkEndFrame(frameId: u32)
    | SinkVisible(visible: bool)

  datatype Surface = Surface(size: Size, format: PixelFormat)

  /** The memory of the codecs: the progressive decoder's state, and what the others keep. */
  datatype Memory = Memory(progressive: Progressive.State, others: seq<int>)

  datatype Event =
    | DroppedSurface(id: u16)
    | DroppedContext(id: u16, context: u32)
    | FrameBegan
    | FrameFinished
    | GraphicsReset(dropped: set<u16>)

  datatype Env = Env(
    parse: seq<u8> -> Option<Pdu>,
    notify: (Memory, Event) -> Memory,
    uncompressed: (Rect, PixelFormat, seq<u8>) -> Option<BgraTile>,
    planar: (Rect, seq<u8>) -> Option<BgraTile>,
    clear: (Memory, Rect, seq<u8>) -> (Memory, Option<BgraTile>),
    progressive: (Memory, u16, u32, Size, seq<u8>) -> (Memory, Option<seq<BgraTile>>),
    avc: seq<u8> -> Option<(seq<Rect16>, seq<u8>)>,
    h264: (Memory, seq<u8>) -> (Memory, Option<bool>))

  datatype Client = Client(
    surfaces: map<u16, Surface>,
    cache: map<u16, Size>,
    codecs: Memory,
    confirmed: Option<seq<u8>>,
    output: Size,
    ended: seq<u32>)

  /** What one PDU does: new state, calls made, and the error that ends the session, if any. */
  datatype Handled = Handled(client: Client, calls: seq<SinkCall>, error: Option<GfxError>)

  function Fine(c: Client, calls: seq<SinkCall>): Handled {
    Handled(c, calls, None)
  }

  function Fails(c: Client, e: GfxError): Handled {
    Handled(c, [], Some(e))
  }

  function ToRect(r: Rect16): Option<Rect> {
    FromLtrb(r.left, r.top, r.right, r.bottom)
  }

  /** `r` clipped to `bounds`; `None` when nothing is left. */
  function Clip(r: Rect, bounds: Size): (c: Option<Rect>)
    ensures c.Some? ==> c.value.Inside(bounds) && !c.value.IsEmpty()
    ensures forall px, py :: (c.Some? && c.value.Covers(px, py)) <==>
                             (r.Covers(px, py) && px < bounds.width && py < bounds.height)
  {
    match FromLtrb(r.x, r.y, Min(r.Right(), bounds.width), Min(r.Bottom(), bounds.height))
    case None => None
    case Some(clipped) => if clipped.IsEmpty() then None else Some(clipped)
  }

  /** The clipped rectangles of a list; `None` when one of them is inverted. */
  function ClipAll(rects: seq<Rect16>, bounds: Size): Option<seq<Rect>> {
    if rects == [] then
      Some([])
    else
      match (ClipAll(rects[..|rects| - 1], bounds), ToRect(rects[|rects| - 1]))
      case (Some(before), Some(r)) =>
        Some(before + match Clip(r, bounds) case Some(c) => [c] case None => [])
      case _ => None
  }

  function At(p: Point16, size: Size): Rect {
    Rect(p.x, p.y, size.width, size.height)
  }

  /** The destination points, when an image of `size` fits at each of them. */
  function Destinations(points: seq<Point16>, bounds: Size, size: Size): Option<seq<Point>> {
    if points == [] then
      Some([])
    else
      var p := points[|points| - 1];
      match Destinations(points[..|points| - 1], bounds, size)
      case Some(before) => if At(p, size).FitsWithin(bounds) then Some(before + [Point(p.x, p.y)]) else None
      case None => None
  }

  predicate ValidSlot(slot: u16) {
    1 <= slot <= MAX_CACHE_SLOTS
  }

  // ----- per-PDU handlers -------------------------------------------------------------------

  function OnCreate(env: Env, c: Client, id: u16, size: Size, format: PixelFormat): Handled {
    if size.width == 0 || size.height == 0 || id in c.surfaces then
      Fails(c, InvalidSurface(id))
    else
      Fine(c.(surfaces := c.surfaces[id := Surface(size, format)], codecs := env.notify(c.codecs, DroppedSurface(id))),
           [SinkCreate(id, size)])
  }

  function OnDelete(env: Env, c: Client, id: u16): Handled {
    if id in c.surfaces then
      Fine(c.(surfaces := c.surfaces - {id}, codecs := env.notify(c.codecs, DroppedSurface(id))), [SinkDelete(id)])
    else
      Fine(c, [])
  }

  function OnSolidFill(c: Client, id: u16, pixel: Color, rects: seq<Rect16>): Handled {
    if id !in c.surfaces then
      Fails(c, UnknownSurface(id))
    else
      match ClipAll(rects, c.surfaces[id].size)
      case None => Fails(c, Decode)
      case Some(clipped) =>
        var color := if c.surfaces[id].format.ARgb? then pixel else pixel.(a := 0xFF);
        Fine(c, if clipped == [] then [] else [SinkFill(id, color, clipped)])
  }

  function OnCopy(c: Client, src: u16, dst: u16, rect: Rect16, points: seq<Point16>): Handled {
    if src !in c.surfaces then Fails(c, UnknownSurface(src))
    else if dst !in c.surfaces then Fails(c, UnknownSurface(dst))
    else
      match ToRect(rect)
      case None => Fails(c, Decode)
      case Some(r) =>
        if !r.FitsWithin(c.surfaces[src].size) then
          Fails(c, OutOfBounds(src))
        else
          match Destinations(points, c.surfaces[dst].size, r.GetSize())
          case None => Fails(c, OutOfBounds(dst))
          case Some(dests) => Fine(c, [SinkCopy(src, dst, r, dests)])
  }

  function OnToCache(c: Client, id: u16, slot: u16, rect: Rect16): Handled {
    if id !in c.surfaces then
      Fails(c, UnknownSurface(id))
    else
      match ToRect(rect)
      case None => Fails(c, Decode)
      case Some(r) =>
        if !r.FitsWithin(c.surfaces[id].size) then Fails(c, OutOfBounds(id))
        else if !ValidSlot(slot) then Fails(c, InvalidCacheSlot(slot))
        else Fine(c.(cache := c.cache[slot := r.GetSize()]), [SinkToCache(id, r, slot)])
  }

  function OnFromCache(c: Client, slot: u16, id: u16, points: seq<Point16>): Handled {
    if slot !in c.cache then Fails(c, InvalidCacheSlot(slot))
    else if id !in c.surfaces then Fails(c, UnknownSurface(id))
    else
      match Destinations(points, c.surfaces[id].size, c.cache[slot])
      case None => Fails(c, OutOfBounds(id))
      case Some(dests) => Fine(c, [SinkFromCache(slot, id, dests)])
  }

  function OnEvict(c: Client, slot: u16): Handled {
    if !ValidSlot(slot) then Fails(c, InvalidCacheSlot(slot))
    else if slot in c.cache then Fine(c.(cache := c.cache - {slot}), [SinkEvict(slot)])
    else Fine(c, [])
  }

  /** One call per blit that lies inside the surface. */
  function BlitCalls(id: u16, bounds: Size, blits: seq<Blit>): seq<SinkCall> {
    if blits == [] then
      []
    else
      var b := blits[|blits| - 1];
      BlitCalls(id, bounds, blits[..|blits| - 1])
        + if b.rect.FitsWithin(bounds) then [SinkBgra(id, b.rect, b.stride, b.data)] else []
  }

  function TileCalls(id: u16, bounds: Size, tile: BgraTile): seq<SinkCall> {
    BlitCalls(id, bounds, Blits(tile, |tile.updateRects|))
  }

  function TilesCalls(id: u16, bounds: Size, tiles: seq<BgraTile>): seq<SinkCall> {
    if tiles == [] then
      []
    else
      TilesCalls(id, bounds, tiles[..|tiles| - 1]) + TileCalls(id, bounds, tiles[|tiles| - 1])
  }

  /** H.264 decodes even when no region is visible: later pictures reference this one. */
  function OnAvc420(env: Env, c: Client, id: u16, bounds: Size, data: seq<u8>): Handled {
    match env.avc(data)
    case None => Fails(c, Decode)
    case Some(stream) =>
      match ClipAll(stream.0, bounds)
      case None => Fails(c, Decode)
      case Some(regions) =>
        var (memory, picture) := env.h264(c.codecs, stream.1);
        var after := c.(codecs := memory);
        match picture
        case None => Fails(after, CodecFailed)
        case Some(shown) => Fine(after, if shown && regions != [] then [SinkNv12(id, regions)] else [])
  }

  function Draw(c: Client, id: u16, bounds: Size, tile: Option<BgraTile>): Handled {
    match tile
    case None => Fails(c, CodecFailed)
    case Some(t) => Fine(c, TileCalls(id, bounds, t))
  }

  function OnWire1(env: Env, c: Client, id: u16, codec: Codec1, format: PixelFormat, rect: Rect16, data: seq<u8>): Handled {
    if id !in c.surfaces then
      Fails(c, UnknownSurface(id))
    else
      var bounds := c.surfaces[id].size;
      match ToRect(rect)
      case None => Fails(c, Decode)
      case Some(dest) =>
        if codec.Avc420? then OnAvc420(env, c, id, bounds, data)
        else if codec.Unsupported? then Fails(c, UnsupportedCodec)
        else if !dest.FitsWithin(bounds) then Fails(c, OutOfBounds(id))
        else if codec.Uncompressed? then Draw(c, id, bounds, env.uncompressed(dest, format, data))
        else if codec.Planar? then Draw(c, id, bounds, env.planar(dest, data))
        else
          var (memory, tile) := env.clear(c.codecs, dest, data);
          Draw(c.(codecs := memory), id, bounds, tile)
  }

  function OnWire2(env: Env, c: Client, id: u16, context: u32, data: seq<u8>): Handled {
    if id !in c.surfaces then
      Fails(c, UnknownSurface(id))
    else
      var bounds := c.surfaces[id].size;
      var (memory, tiles) := env.progressive(c.codecs, id, context, bounds, data);
      var after := c.(codecs := memory);
      match tiles
      case None => Fails(after, CodecFailed)
      case Some(ts) => Fine(after, TilesCalls(id, bounds, ts))
  }

  function OnReset(env: Env, c: Client, output: Size): Handled {
    Fine(c.(surfaces := map[], cache := map[], output := output, codecs := env.notify(c.codecs, GraphicsReset(c.surfaces.Keys))),
         [SinkReset(output)])
  }

  function OnMap(c: Client, id: u16, origin: Point): Handled {
    if id in c.surfaces then Fine(c, [SinkMap(id, origin)]) else Fails(c, UnknownSurface(id))
  }

  function OnEndFrame(env: Env, c: Client, frameId: u32): Handled {
    Fine(c.(codecs := env.notify(c.codecs, FrameFinished), ended := c.ended + [frameId]), [SinkEndFrame(frameId)])
  }

  function OnCaps(c: Client, parsed: Option<Option<seq<u8>>>): Handled {
    if parsed.None? then Fails(c, Decode) else Fine(c.(confirmed := parsed.value), [])
  }

  function Notify(env: Env, c: Client, e: Event): Handled {
    Fine(c.(codecs := env.notify(c.codecs, e)), [])
  }

  function Handle(env: Env, c: Client, pdu: Pdu): Handled {
    match pdu
    case CapabilitiesConfirm(parsed) => OnCaps(c, parsed)
    case ResetGraphics(output) => OnReset(env, c, output)
    case CreateSurface(id, width, height, format) => OnCreate(env, c, id, Size(width, height), format)
    case DeleteSurface(id) => OnDelete(env, c, id)
    case MapSurface(id, origin) => OnMap(c, id, origin)
    case Ignored => Fine(c, [])
    case StartFrame => Notify(env, c, FrameBegan)
    case EndFrame(frameId) => OnEndFrame(env, c, frameId)
    case SolidFill(id, pixel, rects) => OnSolidFill(c, id, pixel, rects)
    case SurfaceToSurface(src, dst, rect, dests) => OnCopy(c, src, dst, rect, dests)
    case SurfaceToCache(id, slot, rect) => OnToCache(c, id, slot, rect)
    case CacheToSurface(slot, id, dests) => OnFromCache(c, slot, id, dests)
    case EvictCache(slot) => OnEvict(c, slot)
    case DeleteContext(id, context) => Notify(env, c, DroppedContext(id, context))
    case WireToSurface1(id, codec, format, rect, data) => OnWire1(env, c, id, codec, format, rect, data)
    case WireToSurface2(id, context, data) => OnWire2(env, c, id, context, data)
    case FromServerOnly => Fails(c, UnexpectedPdu)
  }

  /** The PDUs that draw or move pixels. */
  predicate IsDrawing(pdu: Pdu) {
    pdu.SolidFill? || pdu.SurfaceToSurface? || pdu.SurfaceToCache? || pdu.CacheToSurface? || pdu.EvictCache?
    || pdu.WireToSurface1? || pdu.WireToSurface2?
  }

  // ----- a payload of PDUs ------------------------------------------------------------------

  /** The `pduLength` field of RDPGFX_HEADER (MS-RDPEGFX section 2.2.1.5). */
  function DeclaredLength(data: seq<u8>): Option<nat> {
    if |data| < GFX_HEADER_SIZE then
      None
    else
      Some(data[4] as int + 0x100 * data[5] as int + 0x1_0000 * data[6] as int + 0x100_0000 * data[7] as int)
  }

  /** The first PDU's length, when the header is whole and the length plausible. */
  function FrameLength(data: seq<u8>): (n: Option<nat>)
    ensures n.Some? ==> GFX_HEADER_SIZE <= n.value <= |data|
  {
    match DeclaredLength(data)
    case None => None
    case Some(len) => if len < GFX_HEADER_SIZE || len > |data| then None else Some(len)
  }

  function HandleBytes(env: Env, c: Client, bytes: seq<u8>): Handled {
    match env.parse(bytes)
    case None => Fails(c, Decode)
    case Some(pdu) => Handle(env, c, pdu)
  }

  function Then(first: Handled, rest: Handled): Handled {
    if first.error.Some? then first else rest.(calls := first.calls + rest.calls)
  }

  /** What one framed PDU does to a client. */
  type Handler = (Client, seq<u8>) -> Handled

  function HandlerOf(env: Env): Handler {
    (c, bytes) => HandleBytes(env, c, bytes)
  }

  function ProcessPdus(handle: Handler, c: Client, data: seq<u8>): Handled
    decreases |data|
  {
    if data == [] then
      Fine(c, [])
    else
      match FrameLength(data)
      case None => Fails(c, Decode)
      case Some(len) =>
        var first := handle(c, data[..len]);
        Then(first, ProcessPdus(handle, first.client, data[len..]))
  }
}
