/**
 The graphics session told from its PDUs alone: which surfaces are live and of which size and format,
 what the cache slots hold, and what the renderer is told about them, in order.
 */
module GfxHistory {
  import opened Prelude
  import opened Geometry
  import opened GfxBlits
  import opened GfxDrawing
  import opened GfxRuns
  import opened GfxSpec
  import opened Tile

  // ----- surfaces ---------------------------------------------------------------------------

  predicate Opens(pdu: Pdu, id: u16) {
    pdu.CreateSurface? && pdu.id == id && pdu.width > 0 && pdu.height > 0
  }

  predicate Ends(pdu: Pdu, id: u16) {
    pdu == DeleteSurface(id) || pdu.ResetGraphics?
  }

  /** PDU `k` asks for the surface, and nothing after it ends the surface. */
  ghost predicate OpenAt(pdus: seq<Pdu>, id: u16, k: nat) {
    && k < |pdus| && Opens(pdus[k], id)
    && forall later: nat | k < later < |pdus| :: !Ends(pdus[later], id)
  }

  ghost predicate Live(pdus: seq<Pdu>, id: u16) {
    exists k: nat :: OpenAt(pdus, id, k)
  }

  /** The earliest such PDU: a surface that is live already is not created again. */
  ghost predicate CreatedAt(pdus: seq<Pdu>, id: u16, k: nat) {
    OpenAt(pdus, id, k) && forall j: nat | j < k :: !OpenAt(pdus, id, j)
  }

  lemma OpenNext(init: seq<Pdu>, last: Pdu, id: u16, k: nat)
    ensures OpenAt(init + [last], id, k)
        <==> (OpenAt(init, id, k) && !Ends(last, id)) || (k == |init| && Opens(last, id))
  {
    var pdus := init + [last];
    forall j: nat | j < |init| ensures pdus[j] == init[j] {}
    if k < |init| && OpenAt(pdus, id, k) {
      assert !Ends(pdus[|init|], id);
      forall later: nat | k < later < |init| ensures !Ends(init[later], id) {
        assert !Ends(pdus[later], id);
      }
    }
  }

  lemma LiveNext(init: seq<Pdu>, last: Pdu, id: u16)
    ensures Live(init + [last], id) <==> (Live(init, id) && !Ends(last, id)) || Opens(last, id)
  {
    OpenNext(init, last, id, |init|);
    if Live(init, id) && !Ends(last, id) {
      var k: nat :| OpenAt(init, id, k);
      OpenNext(init, last, id, k);
    }
    if k: nat :| OpenAt(init + [last], id, k) {
      OpenNext(init, last, id, k);
    }
  }

  /** What one PDU does to the surfaces. */
  lemma SurfacesAfter(env: Env, c: Client, pdu: Pdu, id: u16)
    ensures var surfaces := Handle(env, c, pdu).client.surfaces;
      && (id in surfaces <==> (id in c.surfaces && !Ends(pdu, id)) || Opens(pdu, id))
      && (id in c.surfaces && id in surfaces ==> surfaces[id] == c.surfaces[id])
      && (id !in c.surfaces && id in surfaces ==> surfaces[id] == Surface(Size(pdu.width, pdu.height), pdu.format))
  {
  }

  lemma CreatedNext(init: seq<Pdu>, last: Pdu, id: u16, k: nat)
    requires CreatedAt(init + [last], id, k)
    ensures if Live(init, id) && !Ends(last, id) then CreatedAt(init, id, k) else k == |init|
  {
    OpenNext(init, last, id, k);
    if Live(init, id) && !Ends(last, id) {
      var j: nat :| OpenAt(init, id, j);
      OpenNext(init, last, id, j);
      forall i: nat | i < k ensures !OpenAt(init, id, i) {
        OpenNext(init, last, id, i);
      }
    }
  }

  /**
   Over every session a surface is live exactly when a PDU with a non-empty size asked for it and
   none ended it since, and it has the size and format of the first such PDU.
   */
  lemma {:induction false} SurfacesAreHistory(env: Env, c: Client, pdus: seq<Pdu>, id: u16)
    requires Initial(c)
    ensures var surfaces := Session(env, c, pdus).client.surfaces;
      && (id in surfaces <==> Live(pdus, id))
      && forall k: nat | CreatedAt(pdus, id, k) ::
           id in surfaces && surfaces[id] == Surface(Size(pdus[k].width, pdus[k].height), pdus[k].format)
  {
    if pdus == [] {
    } else {
      var init, last := pdus[..|pdus| - 1], pdus[|pdus| - 1];
      SurfacesAreHistory(env, c, init, id);
      assert pdus == init + [last];
      LiveNext(init, last, id);
      var before := Session(env, c, init).client;
      SurfacesAfter(env, before, last, id);
      var surfaces := Session(env, c, pdus).client.surfaces;
      forall k: nat | CreatedAt(pdus, id, k)
        ensures id in surfaces && surfaces[id] == Surface(Size(pdus[k].width, pdus[k].height), pdus[k].format)
      {
        CreatedNext(init, last, id, k);
        assert Live(pdus, id);
        if Live(init, id) && !Ends(last, id) {
          assert pdus[k] == init[k];
        }
      }
    }
  }

  // ----- cache slots ------------------------------------------------------------------------

  /** PDU `k` stores into the slot, from a rectangle that lies in a live surface. */
  ghost predicate Stores(pdus: seq<Pdu>, slot: u16, k: nat) {
    && k < |pdus| && pdus[k].SurfaceToCache? && pdus[k].slot == slot && 1 <= slot <= 25_600
    && Upright(pdus[k].rect)
    && exists j: nat :: CreatedAt(pdus[..k], pdus[k].id, j)
         && pdus[k].rect.right <= pdus[j].width && pdus[k].rect.bottom <= pdus[j].height
  }

  predicate Empties(pdu: Pdu, slot: u16) {
    pdu == EvictCache(slot) || pdu.ResetGraphics?
  }

  /** The last store into the slot, with nothing that empties it since. */
  ghost predicate FilledAt(pdus: seq<Pdu>, slot: u16, k: nat) {
    && Stores(pdus, slot, k)
    && forall later: nat | k < later < |pdus| :: !Empties(pdus[later], slot) && !Stores(pdus, slot, later)
  }

  lemma {:induction false} FirstOpen(pdus: seq<Pdu>, id: u16, k: nat) returns (first: nat)
    requires OpenAt(pdus, id, k)
    ensures CreatedAt(pdus, id, first)
    decreases k
  {
    if j: nat :| j < k && OpenAt(pdus, id, j) {
      first := FirstOpen(pdus, id, j);
    } else {
      first := k;
    }
  }

  /** PDU `k` stores exactly when handling it succeeds. */
  lemma StoreSucceeds(env: Env, c: Client, pdus: seq<Pdu>, k: nat)
    requires Initial(c) && k < |pdus| && pdus[k].SurfaceToCache?
    ensures Stores(pdus, pdus[k].slot, k) <==> Handle(env, Session(env, c, pdus[..k]).client, pdus[k]).error.None?
  {
    var before, pdu := Session(env, c, pdus[..k]).client, pdus[k];
    EverySessionIsMirrored(env, c, pdus[..k]);
    SurfacesAreHistory(env, c, pdus[..k], pdu.id);
    if pdu.id in before.surfaces {
      var i: nat :| OpenAt(pdus[..k], pdu.id, i);
      var j := FirstOpen(pdus[..k], pdu.id, i);
      if Upright(pdu.rect) {
        FitsWithinIsInside(Area(pdu.rect), before.surfaces[pdu.id].size);
      }
      if Stores(pdus, pdu.slot, k) {
        var j': nat :| CreatedAt(pdus[..k], pdu.id, j') && pdu.rect.right <= pdus[j'].width && pdu.rect.bottom <= pdus[j'].height;
        assert before.surfaces[pdu.id].size == Size(pdus[j'].width, pdus[j'].height);
      } else {
        assert pdus[..k][j] == pdus[j];
      }
    }
  }

  /** What one PDU does to a slot. */
  lemma SlotAfter(env: Env, c: Client, pdu: Pdu, slot: u16)
    requires Inv(c)
    ensures var h := Handle(env, c, pdu);
      var stored := pdu.SurfaceToCache? && pdu.slot == slot && h.error.None?;
      && (slot in h.client.cache <==> (slot in c.cache && !Empties(pdu, slot)) || stored)
      && (stored ==> h.client.cache[slot] == Area(pdu.rect).GetSize())
      && (!stored && slot in h.client.cache ==> h.client.cache[slot] == c.cache[slot])
  {
  }

  lemma StoresEarlier(init: seq<Pdu>, last: Pdu, slot: u16, k: nat)
    requires k < |init|
    ensures Stores(init + [last], slot, k) <==> Stores(init, slot, k)
  {
    assert (init + [last])[..k] == init[..k] && (init + [last])[k] == init[k];
    forall j: nat | j < k ensures (init + [last])[j] == init[j] {}
  }

  lemma FilledNext(init: seq<Pdu>, last: Pdu, slot: u16, k: nat)
    requires k < |init|
    ensures FilledAt(init + [last], slot, k)
        <==> FilledAt(init, slot, k) && !Empties(last, slot) && !Stores(init + [last], slot, |init|)
  {
    var pdus := init + [last];
    assert pdus[|init|] == last;
    forall j: nat | j < |init| ensures pdus[j] == init[j] && (Stores(pdus, slot, j) <==> Stores(init, slot, j)) {
      StoresEarlier(init, last, slot, j);
    }
  }

  /** The slot is filled, from PDU `k` on. */
  ghost predicate Filled(pdus: seq<Pdu>, slot: u16) {
    exists k: nat :: FilledAt(pdus, slot, k)
  }

  lemma FilledStep(init: seq<Pdu>, last: Pdu, slot: u16)
    ensures var pdus := init + [last];
      Filled(pdus, slot) <==> Stores(pdus, slot, |init|) || (Filled(init, slot) && !Empties(last, slot))
  {
    var pdus := init + [last];
    if Stores(pdus, slot, |init|) {
      assert FilledAt(pdus, slot, |init|);
    } else if k: nat :| FilledAt(init, slot, k) && !Empties(last, slot) {
      FilledNext(init, last, slot, k);
      assert FilledAt(pdus, slot, k);
    }
    if k: nat :| k < |init| && FilledAt(pdus, slot, k) {
      FilledNext(init, last, slot, k);
    }
  }

  lemma LastStores(env: Env, c: Client, init: seq<Pdu>, last: Pdu, slot: u16)
    requires Initial(c)
    ensures Stores(init + [last], slot, |init|)
        <==> last.SurfaceToCache? && last.slot == slot && Handle(env, Session(env, c, init).client, last).error.None?
  {
    var pdus := init + [last];
    assert pdus[..|init|] == init;
    if last.SurfaceToCache? {
      StoreSucceeds(env, c, pdus, |init|);
    }
  }

  /** The size a slot has when PDU `k` filled it last. */
  ghost predicate HasSizeOf(cache: map<u16, Size>, slot: u16, pdu: Pdu)
    requires pdu.SurfaceToCache?
  {
    slot in cache && Upright(pdu.rect) && cache[slot] == Area(pdu.rect).GetSize()
  }

  /**
   Over every session a cache slot is occupied exactly when a PDU stored into it, from inside a live
   surface, and none emptied it since; it has the size of the last such rectangle.
   */
  lemma {:induction false} CacheIsHistory(env: Env, c: Client, pdus: seq<Pdu>, slot: u16)
    requires Initial(c)
    ensures var cache := Session(env, c, pdus).client.cache;
      && (slot in cache <==> Filled(pdus, slot))
      && forall k: nat | FilledAt(pdus, slot, k) :: HasSizeOf(cache, slot, pdus[k])
  {
    if pdus == [] {
    } else {
      var init, last := pdus[..|pdus| - 1], pdus[|pdus| - 1];
      assert pdus == init + [last];
      CacheIsHistory(env, c, init, slot);
      EverySessionIsMirrored(env, c, init);
      var before := Session(env, c, init).client;
      SlotAfter(env, before, last, slot);
      LastStores(env, c, init, last, slot);
      FilledStep(init, last, slot);
      forall k: nat | FilledAt(pdus, slot, k) ensures HasSizeOf(Session(env, c, pdus).client.cache, slot, pdus[k]) {
        if k < |init| {
          FilledNext(init, last, slot, k);
          assert HasSizeOf(before.cache, slot, init[k]);
        }
      }
    }
  }

  // ----- what the renderer is told ----------------------------------------------------------

  /** Calls about surfaces and frames rather than pixels. */
  predicate IsNotice(call: SinkCall) {
    call.SinkReset? || call.SinkCreate? || call.SinkDelete? || call.SinkMap? || call.SinkEndFrame?
  }

  ghost predicate NoNotice(calls: seq<SinkCall>) {
    forall call <- calls :: !IsNotice(call)
  }

  ghost function Notices(calls: seq<SinkCall>): seq<SinkCall> {
    if calls == [] then []
    else
      Notices(calls[..|calls| - 1]) + if IsNotice(calls[|calls| - 1]) then [calls[|calls| - 1]] else []
  }

  /** What the renderer is told about a PDU that follows `before`. */
  ghost function Notice(before: seq<Pdu>, pdu: Pdu): seq<SinkCall> {
    match pdu
    case ResetGraphics(output) => [SinkReset(output)]
    case CreateSurface(id, width, height, _) =>
      if Opens(pdu, id) && !Live(before, id) then [SinkCreate(id, Size(width, height))] else []
    case DeleteSurface(id) => if Live(before, id) then [SinkDelete(id)] else []
    case MapSurface(id, origin) => if Live(before, id) then [SinkMap(id, origin)] else []
    case EndFrame(frameId) => [SinkEndFrame(frameId)]
    case _ => []
  }

  ghost function AllNotices(pdus: seq<Pdu>): seq<SinkCall> {
    if pdus == [] then []
    else AllNotices(pdus[..|pdus| - 1]) + Notice(pdus[..|pdus| - 1], pdus[|pdus| - 1])
  }

  lemma {:induction false} NoticesConcat(a: seq<SinkCall>, b: seq<SinkCall>)
    ensures Notices(a + b) == Notices(a) + Notices(b)
  {
    if b == [] {
      assert a + b == a && Notices(a) + [] == Notices(a);
    } else {
      NoticesConcat(a, b[..|b| - 1]);
      assert (a + b)[..|a + b| - 1] == a + b[..|b| - 1];
    }
  }

  lemma {:induction false} NoNotices(calls: seq<SinkCall>)
    requires NoNotice(calls)
    ensures Notices(calls) == []
  {
    if calls == [] {
    } else {
      assert calls[|calls| - 1] in calls && forall call <- calls[..|calls| - 1] :: call in calls;
      NoNotices(calls[..|calls| - 1]);
    }
  }

  lemma {:induction false} BlitsAreNoNotices(id: u16, bounds: Size, blits: seq<Blit>)
    ensures NoNotice(BlitCalls(id, bounds, blits))
  {
    if blits == [] {
    } else {
      BlitsAreNoNotices(id, bounds, blits[..|blits| - 1]);
    }
  }

  lemma {:induction false} TilesAreNoNotices(id: u16, bounds: Size, tiles: seq<BgraTile>)
    ensures NoNotice(TilesCalls(id, bounds, tiles))
  {
    if tiles == [] {
    } else {
      TilesAreNoNotices(id, bounds, tiles[..|tiles| - 1]);
      var tile := tiles[|tiles| - 1];
      BlitsAreNoNotices(id, bounds, Blits(tile, |tile.updateRects|));
    }
  }

  lemma DrawIsNoNotice(c: Client, id: u16, bounds: Size, tile: Option<BgraTile>)
    ensures NoNotice(Draw(c, id, bounds, tile).calls)
  {
    if tile.Some? {
      BlitsAreNoNotices(id, bounds, Blits(tile.value, |tile.value.updateRects|));
    }
  }

  lemma AvcIsNoNotice(env: Env, c: Client, id: u16, bounds: Size, data: seq<u8>)
    ensures NoNotice(OnAvc420(env, c, id, bounds, data).calls)
  {
  }

  /** A bitmap sends what its tile draws, or nothing. */
  lemma BitmapCalls(env: Env, c: Client, id: u16, codec: Codec1, format: PixelFormat, rect: Rect16, data: seq<u8>)
    requires IsBitmap(codec) && id in c.surfaces && ToRect(rect).Some?
    ensures var calls, bounds, dest := OnWire1(env, c, id, codec, format, rect, data).calls, c.surfaces[id].size, ToRect(rect).value;
      || calls == []
      || calls == Draw(c, id, bounds, env.uncompressed(dest, format, data)).calls
      || calls == Draw(c, id, bounds, env.planar(dest, data)).calls
      || calls == Draw(c, id, bounds, env.clear(c.codecs, dest, data).1).calls
  {
  }

  lemma BitmapIsNoNotice(env: Env, c: Client, id: u16, codec: Codec1, format: PixelFormat, rect: Rect16, data: seq<u8>)
    requires IsBitmap(codec)
    ensures NoNotice(OnWire1(env, c, id, codec, format, rect, data).calls)
  {
    if id in c.surfaces && ToRect(rect).Some? {
      var bounds, dest := c.surfaces[id].size, ToRect(rect).value;
      BitmapCalls(env, c, id, codec, format, rect, data);
      DrawIsNoNotice(c, id, bounds, env.uncompressed(dest, format, data));
      DrawIsNoNotice(c, id, bounds, env.planar(dest, data));
      DrawIsNoNotice(c, id, bounds, env.clear(c.codecs, dest, data).1);
    }
  }

  lemma Wire1IsNoNotice(env: Env, c: Client, id: u16, codec: Codec1, format: PixelFormat, rect: Rect16, data: seq<u8>)
    ensures NoNotice(OnWire1(env, c, id, codec, format, rect, data).calls)
  {
    match codec {
      case Avc420 =>
        if id in c.surfaces {
          AvcIsNoNotice(env, c, id, c.surfaces[id].size, data);
        }
      case Unsupported =>
      case _ => BitmapIsNoNotice(env, c, id, codec, format, rect, data);
    }
  }

  lemma DrawingIsNoNotice(env: Env, c: Client, pdu: Pdu)
    requires IsDrawing(pdu)
    ensures NoNotice(Handle(env, c, pdu).calls)
  {
    match pdu
    case WireToSurface1(id, codec, format, rect, data) => Wire1IsNoNotice(env, c, id, codec, format, rect, data);
    case WireToSurface2(id, context, data) =>
      if id in c.surfaces {
        var tiles := env.progressive(c.codecs, id, context, c.surfaces[id].size, data).1;
        if tiles.Some? {
          TilesAreNoNotices(id, c.surfaces[id].size, tiles.value);
        }
      }
    case _ =>
  }

  lemma OneNotice(call: SinkCall)
    ensures Notices([call]) == if IsNotice(call) then [call] else []
  {
    assert [call][..0] == [];
  }

  lemma HandleGivesNotice(env: Env, c: Client, init: seq<Pdu>, pdu: Pdu)
    requires forall id :: id in c.surfaces <==> Live(init, id)
    ensures Notices(Handle(env, c, pdu).calls) == Notice(init, pdu)
  {
    var calls := Handle(env, c, pdu).calls;
    if IsDrawing(pdu) {
      DrawingIsNoNotice(env, c, pdu);
      NoNotices(calls);
    } else if calls != [] {
      OneNotice(calls[0]);
      assert calls == [calls[0]];
    }
  }

  /**
   Over every session the renderer is told, in the order of the PDUs, of every reset, every surface
   created, deleted or placed on the output, and every ended frame, and of nothing else of the kind.
   */
  lemma {:induction false} NoticesAreHistory(env: Env, c: Client, pdus: seq<Pdu>)
    requires Initial(c)
    ensures Notices(Session(env, c, pdus).calls) == AllNotices(pdus)
  {
    if pdus == [] {
    } else {
      var init, last := pdus[..|pdus| - 1], pdus[|pdus| - 1];
      NoticesAreHistory(env, c, init);
      var before := Session(env, c, init);
      forall id ensures id in before.client.surfaces <==> Live(init, id) {
        SurfacesAreHistory(env, c, init, id);
      }
      HandleGivesNotice(env, before.client, init, last);
      NoticesConcat(before.calls, Handle(env, before.client, last).calls);
    }
  }

  /** The frames that ended, and the last output size. */
  ghost function FramesEnded(pdus: seq<Pdu>): seq<u32> {
    if pdus == [] then []
    else FramesEnded(pdus[..|pdus| - 1]) + match pdus[|pdus| - 1] case EndFrame(id) => [id] case _ => []
  }

  ghost function LastOutput(pdus: seq<Pdu>, initial: Size): Size {
    if pdus == [] then initial
    else match pdus[|pdus| - 1] case ResetGraphics(output) => output case _ => LastOutput(pdus[..|pdus| - 1], initial)
  }

  /** The capability set confirmed last, as far as one could be read. */
  ghost function LastConfirmed(pdus: seq<Pdu>, initial: Option<seq<u8>>): Option<seq<u8>> {
    if pdus == [] then initial
    else
      match pdus[|pdus| - 1]
      case CapabilitiesConfirm(Some(caps)) => caps
      case _ => LastConfirmed(pdus[..|pdus| - 1], initial)
  }

  lemma FramesAfter(env: Env, c: Client, pdu: Pdu)
    ensures var after := Handle(env, c, pdu).client;
      && after.ended == c.ended + (match pdu case EndFrame(id) => [id] case _ => [])
      && after.output == (match pdu case ResetGraphics(output) => output case _ => c.output)
      && after.confirmed == match pdu case CapabilitiesConfirm(Some(caps)) => caps case _ => c.confirmed
  {
    assert c.ended + [] == c.ended;
  }

  /**
   The client has seen exactly the frames of the session end; its output is that of the last reset, and
   its capabilities are those confirmed last.
   */
  lemma {:induction false} FramesAreHistory(env: Env, c: Client, pdus: seq<Pdu>)
    ensures var after := Session(env, c, pdus).client;
      && after.ended == c.ended + FramesEnded(pdus) && after.output == LastOutput(pdus, c.output)
      && after.confirmed == LastConfirmed(pdus, c.confirmed)
  {
    if pdus == [] {
      assert c.ended + [] == c.ended;
    } else {
      var init, last := pdus[..|pdus| - 1], pdus[|pdus| - 1];
      FramesAreHistory(env, c, init);
      FramesAfter(env, Session(env, c, init).client, last);
      assert c.ended + FramesEnded(init) + (match last case EndFrame(id) => [id] case _ => [])
          == c.ended + (FramesEnded(init) + match last case EndFrame(id) => [id] case _ => []);
    }
  }

  // ----- the length field -------------------------------------------------------------------

  /** Four bytes, the least significant first. */
  function Le32(n: u32): seq<u8> {
    [n % 0x100, n / 0x100 % 0x100, n / 0x1_0000 % 0x100, n / 0x100_0000]
  }

  lemma FourDigits(n: u32)
    ensures n == n % 0x100 + 0x100 * (n / 0x100 % 0x100) + 0x1_0000 * (n / 0x1_0000 % 0x100) + 0x100_0000 * (n / 0x100_0000)
  {
    var high := n / 0x1_0000;
    assert n / 0x100 / 0x100 == high && high / 0x100 == n / 0x100_0000;
    assert high == high % 0x100 + 0x100 * (high / 0x100);
    assert n / 0x100 == n / 0x100 % 0x100 + 0x100 * high;
  }

  /** The length of a PDU is bytes 4 to 7 of its header, least significant first. */
  lemma LengthIsLittleEndian(before: seq<u8>, n: u32, rest: seq<u8>)
    requires |before| == 4
    ensures DeclaredLength(before + Le32(n) + rest) == Some(n)
  {
    FourDigits(n);
    var data := before + Le32(n) + rest;
    assert data[4] == Le32(n)[0] && data[5] == Le32(n)[1] && data[6] == Le32(n)[2] && data[7] == Le32(n)[3];
  }
}
