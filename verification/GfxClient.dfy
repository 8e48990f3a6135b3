/** The graphics client itself: maps and codecs updated in place, refined to `GfxSpec`. */
module GfxClient {
  import opened Prelude
  import opened Geometry
  import opened Tile
  import opened GfxSpec
  import Ack
  import GfxRuns

  /** Clips every rectangle of a list to `bounds`; `None` when one is inverted. */
  method ClipRects(rects: seq<Rect16>, bounds: Size) returns (r: Option<seq<Rect>>)
    ensures r == ClipAll(rects, bounds)
  {
    var clipped := [];
    for i := 0 to |rects|
      invariant ClipAll(rects[..i], bounds) == Some(clipped)
    {
      assert rects[..i + 1][..i] == rects[..i];
      var next := ToRect(rects[i]);
      if next.None? {
        ClipAllFails(rects, bounds, i + 1);
        return None;
      }
      var c := Clip(next.value, bounds);
      clipped := clipped + match c case Some(rect) => [rect] case None => [];
    }
    assert rects[..|rects|] == rects;
    return Some(clipped);
  }

  lemma {:induction false} ClipAllFails(rects: seq<Rect16>, bounds: Size, n: nat)
    requires n <= |rects| && ClipAll(rects[..n], bounds).None?
    ensures ClipAll(rects, bounds).None?
    decreases |rects|
  {
    if n < |rects| {
      assert rects[..|rects| - 1][..n] == rects[..n];
      ClipAllFails(rects[..|rects| - 1], bounds, n);
    } else {
      assert rects[..n] == rects;
    }
  }

  /** The loop behind `Destinations`: stops at the first point where the image sticks out. */
  method CheckDestinations(points: seq<Point16>, bounds: Size, size: Size) returns (r: Option<seq<Point>>)
    ensures r == Destinations(points, bounds, size)
  {
    var dests := [];
    for i := 0 to |points|
      invariant Destinations(points[..i], bounds, size) == Some(dests)
    {
      assert points[..i + 1][..i] == points[..i];
      if !At(points[i], size).FitsWithin(bounds) {
        DestinationsFail(points, bounds, size, i + 1);
        return None;
      }
      dests := dests + [Point(points[i].x, points[i].y)];
    }
    assert points[..|points|] == points;
    return Some(dests);
  }

  lemma {:induction false} DestinationsFail(points: seq<Point16>, bounds: Size, size: Size, n: nat)
    requires n <= |points| && Destinations(points[..n], bounds, size).None?
    ensures Destinations(points, bounds, size).None?
    decreases |points|
  {
    if n < |points| {
      assert points[..|points| - 1][..n] == points[..n];
      DestinationsFail(points[..|points| - 1], bounds, size, n);
    } else {
      assert points[..n] == points;
    }
  }

  // ----- frames and their acknowledgements --------------------------------------------------

  /** The outbox after the given frames ended. */
  ghost function FramesEnded(outbox: Ack.State, frames: seq<u32>): Ack.State {
    if frames == [] then outbox
    else Ack.Step(FramesEnded(outbox, frames[..|frames| - 1]), Ack.FrameEnded(frames[|frames| - 1])).0
  }

  /** The frames ended since `before` are what the outbox saw since `outbox`. */
  ghost predicate Acknowledged(before: seq<u32>, outbox: Ack.State, after: seq<u32>, outbox': Ack.State) {
    before <= after && outbox' == FramesEnded(outbox, after[|before|..])
  }

  function FrameOf(pdu: Pdu): seq<u32> {
    if pdu.EndFrame? then [pdu.frameId] else []
  }

  lemma OnlyEndFrameEnds(env: Env, c: Client, pdu: Pdu)
    ensures Handle(env, c, pdu).client.ended == c.ended + FrameOf(pdu)
  {
  }

  lemma OneFrameMore(before: seq<u32>, outbox: Ack.State, frames: seq<u32>, outbox': Ack.State)
    requires |frames| <= 1
    requires outbox' == if frames == [] then outbox else Ack.Step(outbox, Ack.FrameEnded(frames[0])).0
    ensures Acknowledged(before, outbox, before + frames, outbox')
  {
    assert (before + frames)[|before|..] == frames;
    assert frames != [] ==> frames[..0] == [];
  }

  lemma {:induction false} FramesEndedConcat(outbox: Ack.State, a: seq<u32>, b: seq<u32>)
    ensures FramesEnded(outbox, a + b) == FramesEnded(FramesEnded(outbox, a), b)
  {
    if b == [] {
      assert a + b == a;
    } else {
      FramesEndedConcat(outbox, a, b[..|b| - 1]);
      assert (a + b)[..|a + b| - 1] == a + b[..|b| - 1];
    }
  }

  lemma AcknowledgedFurther(a: seq<u32>, outbox: Ack.State, b: seq<u32>, outbox': Ack.State, c: seq<u32>, outbox'': Ack.State)
    requires Acknowledged(a, outbox, b, outbox') && Acknowledged(b, outbox', c, outbox'')
    ensures Acknowledged(a, outbox, c, outbox'')
  {
    assert c[|a|..] == b[|a|..] + c[|b|..];
    FramesEndedConcat(outbox, b[|a|..], c[|b|..]);
  }

  class Graphics {
    var surfaces: map<u16, Surface>
    var cache: map<u16, Size>
    var codecs: Memory
    var confirmed: Option<seq<u8>>
    var output: Size
    var ended: seq<u32>
    /** Every call made on the renderer. */
    ghost var sink: seq<SinkCall>
    const env: Env
    const acks: Ack.AckOutbox

    ghost function Value(): Client
      reads this
    {
      Client(surfaces, cache, codecs, confirmed, output, ended)
    }

    constructor (env: Env, memory: Memory)
      ensures GfxRuns.Initial(Value()) && sink == [] && this.env == env
      ensures fresh(acks) && acks.Value() == Ack.EMPTY
    {
      surfaces, cache, codecs := map[], map[], memory;
      confirmed, output, ended := None, Size(0, 0), [];
      sink := [];
      this.env := env;
      acks := new Ack.AckOutbox();
    }

    /** The state, the calls and the error are those of `h`, starting from the calls in `before`. */
    ghost predicate Did(h: Handled, before: seq<SinkCall>, error: Option<GfxError>)
      reads this
    {
      Value() == h.client && sink == before + h.calls && error == h.error
    }

    method Create(id: u16, size: Size, format: PixelFormat) returns (error: Option<GfxError>)
      modifies this
      ensures Did(OnCreate(env, old(Value()), id, size, format), old(sink), error)
    {
      if size.width == 0 || size.height == 0 || id in surfaces {
        return Some(InvalidSurface(id));
      }
      surfaces := surfaces[id := Surface(size, format)];
      codecs := env.notify(codecs, DroppedSurface(id));
      sink := sink + [SinkCreate(id, size)];
      return None;
    }

    method Delete(id: u16)
      modifies this
      ensures Did(OnDelete(env, old(Value()), id), old(sink), None)
    {
      if id in surfaces {
        surfaces := surfaces - {id};
        codecs := env.notify(codecs, DroppedSurface(id));
        sink := sink + [SinkDelete(id)];
      }
    }

    method Fill(id: u16, pixel: Color, rects: seq<Rect16>) returns (error: Option<GfxError>)
      modifies this
      ensures Did(OnSolidFill(old(Value()), id, pixel, rects), old(sink), error)
    {
      if id !in surfaces {
        return Some(UnknownSurface(id));
      }
      var surface := surfaces[id];
      var clipped := ClipRects(rects, surface.size);
      if clipped.None? {
        return Some(Decode);
      }
      var alpha: u8 := if surface.format.ARgb? then pixel.a else 0xFF;
      if clipped.value != [] {
        sink := sink + [SinkFill(id, Color(pixel.b, pixel.g, pixel.r, alpha), clipped.value)];
      }
      return None;
    }

    method Copy(src: u16, dst: u16, rect: Rect16, points: seq<Point16>) returns (error: Option<GfxError>)
      modifies this
      ensures Did(OnCopy(old(Value()), src, dst, rect, points), old(sink), error)
    {
      if src !in surfaces {
        return Some(UnknownSurface(src));
      }
      if dst !in surfaces {
        return Some(UnknownSurface(dst));
      }
      var r := ToRect(rect);
      if r.None? {
        return Some(Decode);
      }
      if !r.value.FitsWithin(surfaces[src].size) {
        return Some(OutOfBounds(src));
      }
      var dests := CheckDestinations(points, surfaces[dst].size, r.value.GetSize());
      if dests.None? {
        return Some(OutOfBounds(dst));
      }
      sink := sink + [SinkCopy(src, dst, r.value, dests.value)];
      return None;
    }

    method ToCache(id: u16, slot: u16, rect: Rect16) returns (error: Option<GfxError>)
      modifies this
      ensures Did(OnToCache(old(Value()), id, slot, rect), old(sink), error)
    {
      if id !in surfaces {
        return Some(UnknownSurface(id));
      }
      var r := ToRect(rect);
      if r.None? {
        return Some(Decode);
      }
      if !r.value.FitsWithin(surfaces[id].size) {
        return Some(OutOfBounds(id));
      }
      if slot == 0 || slot > MAX_CACHE_SLOTS {
        return Some(InvalidCacheSlot(slot));
      }
      cache := cache[slot := r.value.GetSize()];
      sink := sink + [SinkToCache(id, r.value, slot)];
      return None;
    }

    method FromCache(slot: u16, id: u16, points: seq<Point16>) returns (error: Option<GfxError>)
      modifies this
      ensures Did(OnFromCache(old(Value()), slot, id, points), old(sink), error)
    {
      if slot !in cache {
        return Some(InvalidCacheSlot(slot));
      }
      if id !in surfaces {
        return Some(UnknownSurface(id));
      }
      var dests := CheckDestinations(points, surfaces[id].size, cache[slot]);
      if dests.None? {
        return Some(OutOfBounds(id));
      }
      sink := sink + [SinkFromCache(slot, id, dests.value)];
      return None;
    }

    method Evict(slot: u16) returns (error: Option<GfxError>)
      modifies this
      ensures Did(OnEvict(old(Value()), slot), old(sink), error)
    {
      if slot == 0 || slot > MAX_CACHE_SLOTS {
        return Some(InvalidCacheSlot(slot));
      }
      if slot in cache {
        cache := cache - {slot};
        sink := sink + [SinkEvict(slot)];
      }
      return None;
    }

    /** Sends the blits of one tile that lie inside the surface. */
    method BlitTile(id: u16, bounds: Size, tile: BgraTile)
      modifies this`sink
      ensures sink == old(sink) + TileCalls(id, bounds, tile)
    {
      var blits := Blits(tile, |tile.updateRects|);
      for i := 0 to |blits|
        invariant sink == old(sink) + BlitCalls(id, bounds, blits[..i])
      {
        assert blits[..i + 1][..i] == blits[..i];
        if blits[i].rect.FitsWithin(bounds) {
          sink := sink + [SinkBgra(id, blits[i].rect, blits[i].stride, blits[i].data)];
        }
      }
      assert blits[..|blits|] == blits;
    }

    method BlitTiles(id: u16, bounds: Size, tiles: seq<BgraTile>)
      modifies this`sink
      ensures sink == old(sink) + TilesCalls(id, bounds, tiles)
    {
      for i := 0 to |tiles|
        invariant sink == old(sink) + TilesCalls(id, bounds, tiles[..i])
      {
        assert tiles[..i + 1][..i] == tiles[..i];
        BlitTile(id, bounds, tiles[i]);
      }
      assert tiles[..|tiles|] == tiles;
    }

    method Avc(id: u16, bounds: Size, data: seq<u8>) returns (error: Option<GfxError>)
      modifies this
      ensures Did(OnAvc420(env, old(Value()), id, bounds, data), old(sink), error)
    {
      var stream := env.avc(data);
      if stream.None? {
        return Some(Decode);
      }
      var regions := ClipRects(stream.value.0, bounds);
      if regions.None? {
        return Some(Decode);
      }
      var (memory, picture) := env.h264(codecs, stream.value.1);
      codecs := memory;
      if picture.None? {
        return Some(CodecFailed);
      }
      if picture.value && regions.value != [] {
        sink := sink + [SinkNv12(id, regions.value)];
      }
      return None;
    }

    method Wire1(id: u16, codec: Codec1, format: PixelFormat, rect: Rect16, data: seq<u8>)
      returns (error: Option<GfxError>)
      modifies this
      ensures Did(OnWire1(env, old(Value()), id, codec, format, rect, data), old(sink), error)
    {
      if id !in surfaces {
        return Some(UnknownSurface(id));
      }
      var bounds := surfaces[id].size;
      var dest := ToRect(rect);
      if dest.None? {
        return Some(Decode);
      }
      if codec.Avc420? {
        error := Avc(id, bounds, data);
        return;
      }
      if codec.Unsupported? {
        return Some(UnsupportedCodec);
      }
      if !dest.value.FitsWithin(bounds) {
        return Some(OutOfBounds(id));
      }
      var tile;
      match codec {
        case Uncompressed => tile := env.uncompressed(dest.value, format, data);
        case Planar => tile := env.planar(dest.value, data);
        case ClearCodec =>
          var (memory, decoded) := env.clear(codecs, dest.value, data);
          codecs := memory;
          tile := decoded;
      }
      if tile.None? {
        return Some(CodecFailed);
      }
      BlitTile(id, bounds, tile.value);
      return None;
    }

    method Wire2(id: u16, context: u32, data: seq<u8>) returns (error: Option<GfxError>)
      modifies this
      ensures Did(OnWire2(env, old(Value()), id, context, data), old(sink), error)
    {
      if id !in surfaces {
        return Some(UnknownSurface(id));
      }
      var bounds := surfaces[id].size;
      var (memory, decoded) := env.progressive(codecs, id, context, bounds, data);
      codecs := memory;
      if decoded.None? {
        return Some(CodecFailed);
      }
      BlitTiles(id, bounds, decoded.value);
      return None;
    }

    /** The PDUs that draw or move pixels. */
    method HandleDrawing(pdu: Pdu) returns (error: Option<GfxError>)
      requires IsDrawing(pdu)
      modifies this
      ensures Did(Handle(env, old(Value()), pdu), old(sink), error)
    {
      match pdu {
        case SolidFill(id, pixel, rects) => error := Fill(id, pixel, rects);
        case SurfaceToSurface(src, dst, rect, dests) => error := Copy(src, dst, rect, dests);
        case SurfaceToCache(id, slot, rect) => error := ToCache(id, slot, rect);
        case CacheToSurface(slot, id, dests) => error := FromCache(slot, id, dests);
        case EvictCache(slot) => error := Evict(slot);
        case WireToSurface1(id, codec, format, rect, data) => error := Wire1(id, codec, format, rect, data);
        case WireToSurface2(id, context, data) => error := Wire2(id, context, data);
      }
    }

    /** Applies one decoded PDU; only EndFrame touches the acknowledgements. */
    method HandlePdu(pdu: Pdu) returns (error: Option<GfxError>)
      modifies this, acks
      ensures Did(Handle(env, old(Value()), pdu), old(sink), error)
      ensures acks.Value() == if pdu.EndFrame? then Ack.Step(old(acks.Value()), Ack.FrameEnded(pdu.frameId)).0
                              else old(acks.Value())
      ensures ended == old(ended) + FrameOf(pdu)
    {
      OnlyEndFrameEnds(env, Value(), pdu);
      error := None;
      match pdu {
        case CapabilitiesConfirm(parsed) =>
          if parsed.None? {
            return Some(Decode);
          }
          confirmed := parsed.value;
        case ResetGraphics(size) =>
          codecs := env.notify(codecs, GraphicsReset(surfaces.Keys));
          surfaces, cache, output := map[], map[], size;
          sink := sink + [SinkReset(size)];
        case CreateSurface(id, width, height, format) => error := Create(id, Size(width, height), format);
        case DeleteSurface(id) => Delete(id);
        case MapSurface(id, origin) =>
          if id !in surfaces {
            return Some(UnknownSurface(id));
          }
          sink := sink + [SinkMap(id, origin)];
        case Ignored =>
        case StartFrame => codecs := env.notify(codecs, FrameBegan);
        case EndFrame(frameId) =>
          codecs := env.notify(codecs, FrameFinished);
          acks.EndFrame(frameId);
          ended := ended + [frameId];
          sink := sink + [SinkEndFrame(frameId)];
        case DeleteContext(id, context) => codecs := env.notify(codecs, DroppedContext(id, context));
        case FromServerOnly => error := Some(UnexpectedPdu);
        case _ => error := HandleDrawing(pdu);
      }
    }

    /** Decodes and applies one framed PDU. */
    method HandleFrame(bytes: seq<u8>) returns (error: Option<GfxError>)
      modifies this, acks
      ensures Did(HandlerOf(env)(old(Value()), bytes), old(sink), error)
      ensures Acknowledged(old(ended), old(acks.Value()), ended, acks.Value())
    {
      assert HandlerOf(env)(Value(), bytes) == HandleBytes(env, Value(), bytes);
      var pdu := env.parse(bytes);
      if pdu.None? {
        return Some(Decode);
      }
      error := HandlePdu(pdu.value);
      OneFrameMore(old(ended), old(acks.Value()), FrameOf(pdu.value), acks.Value());
    }

    /**
     Splits a payload at the declared lengths and applies its PDUs until one fails. The outbox has
     then seen the end of each frame that the payload ended, in order, and nothing else.
     */
    method ProcessPayload(payload: seq<u8>) returns (error: Option<GfxError>)
      modifies this, acks
      ensures Did(ProcessPdus(HandlerOf(env), old(Value()), payload), old(sink), error)
      ensures Acknowledged(old(ended), old(acks.Value()), ended, acks.Value())
    {
      ghost var handle := HandlerOf(env);
      var data := payload;
      while data != []
        invariant GfxRuns.Onwards(handle, Value(), sink, data)
               == GfxRuns.Onwards(handle, old(Value()), old(sink), payload)
        invariant Acknowledged(old(ended), old(acks.Value()), ended, acks.Value())
        decreases |data|
      {
        GfxRuns.OnwardsStep(handle, Value(), sink, data);
        var len := FrameLength(data);
        if len.None? {
          return Some(Decode);
        }
        ghost var frames, outbox := ended, acks.Value();
        error := HandleFrame(data[..len.value]);
        AcknowledgedFurther(old(ended), old(acks.Value()), frames, outbox, ended, acks.Value());
        if error.Some? {
          return;
        }
        data := data[len.value..];
      }
      return None;
    }
  }
}
