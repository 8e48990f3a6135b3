/**
 The graphics client together with the progressive decoder it drives: over every sequence of PDUs the
 decoder remembers nothing of a surface that is not live, so a surface that reuses an id starts like
 in a new decoder.
 */
module GfxCodec {
  import opened Prelude
  import opened Geometry
  import opened GfxSpec
  import GfxRuns
  import opened ProgressiveCodec
  import PayloadSpec

  // ----- the decoder behind the client ------------------------------------------------------

  /** Every dropped surface deleted, then all contexts reset. */
  function WithoutSurfaces(s: State, dropped: set<u16>): State {
    State(map[], map ref | ref in s.references && ref.surface !in dropped :: s.references[ref], map[], false, s.flags - dropped)
  }

  /** What an event of the client does to the decoder. */
  ghost predicate Follows(s: State, e: Event, t: State) {
    match e
    case DroppedSurface(id) => Does(s, SurfaceDeleted(id), t)
    case DroppedContext(id, context) => Does(s, ContextDeleted(ContextId(id, context)), t)
    case FrameBegan => Does(s, FrameStarts, t)
    case FrameFinished => Does(s, FrameEnds, t)
    case GraphicsReset(dropped) => t == WithoutSurfaces(s, dropped)
  }

  ghost predicate FollowsEvents(env: Env) {
    forall m: Memory, e: Event {:trigger env.notify(m, e)} ::
      Consistent(m.progressive) ==> Follows(m.progressive, e, env.notify(m, e).progressive)
  }

  ghost predicate DecodesPayloads(env: Env) {
    forall m: Memory, id: u16, context: u32, bounds: Size, data: seq<u8> {:trigger env.progressive(m, id, context, bounds, data)} ::
      Consistent(m.progressive) ==>
      Does(m.progressive, PayloadFor(ContextId(id, context)), env.progressive(m, id, context, bounds, data).0.progressive)
  }

  ghost predicate OthersLeaveIt(env: Env) {
    && (forall m: Memory, rect: Rect, data: seq<u8> {:trigger env.clear(m, rect, data)} ::
          env.clear(m, rect, data).0.progressive == m.progressive)
    && (forall m: Memory, data: seq<u8> {:trigger env.h264(m, data)} :: env.h264(m, data).0.progressive == m.progressive)
  }

  /** The client's progressive decoder is the one of `ProgressiveCodec`, and no other codec touches it. */
  ghost predicate Drives(env: Env) {
    FollowsEvents(env) && DecodesPayloads(env) && OthersLeaveIt(env)
  }

  function Notified(s: State, e: Event): State {
    match e
    case DroppedSurface(id) => WithoutSurface(s, id)
    case DroppedContext(id, context) =>
      s.(contexts := s.contexts - {ContextId(id, context)}, frameTiles := s.frameTiles - {ContextId(id, context)})
    case FrameBegan => s.(frameTiles := map[], frameActive := true)
    case FrameFinished => s.(frameTiles := map[], frameActive := false)
    case GraphicsReset(dropped) => WithoutSurfaces(s, dropped)
  }

  /** Such an environment exists: one whose payloads all fail. */
  lemma SomeEnvironmentDrives() returns (env: Env)
    ensures Drives(env)
  {
    env := Env(
      (bytes: seq<u8>) => None,
      (m: Memory, e: Event) => Memory(Notified(m.progressive, e), m.others),
      (rect: Rect, format: PixelFormat, data: seq<u8>) => None,
      (rect: Rect, data: seq<u8>) => None,
      (m: Memory, rect: Rect, data: seq<u8>) => (m, None),
      (m: Memory, id: u16, context: u32, bounds: Size, data: seq<u8>) => (m, None),
      (data: seq<u8>) => None,
      (m: Memory, data: seq<u8>) => (m, None));
  }

  // ----- one PDU ----------------------------------------------------------------------------

  ghost predicate Unknown(c: Client, surface: u16) {
    Consistent(c.codecs.progressive) && Absent(c.codecs.progressive, surface)
  }

  lemma EventKeeps(env: Env, m: Memory, e: Event, surface: u16)
    requires Drives(env) && Consistent(m.progressive) && Absent(m.progressive, surface)
    ensures Consistent(env.notify(m, e).progressive) && Absent(env.notify(m, e).progressive, surface)
  {
    var s, t := m.progressive, env.notify(m, e).progressive;
    assert Follows(s, e, t);
    match e {
      case DroppedSurface(id) => AbsentStays(s, SurfaceDeleted(id), t, surface);
      case DroppedContext(id, context) => AbsentStays(s, ContextDeleted(ContextId(id, context)), t, surface);
      case FrameBegan => AbsentStays(s, FrameStarts, t, surface);
      case FrameFinished => AbsentStays(s, FrameEnds, t, surface);
      case GraphicsReset(dropped) =>
    }
  }

  /** Only progressive payloads and events reach the decoder. */
  lemma DrawingLeavesDecoder(env: Env, c: Client, pdu: Pdu)
    requires Drives(env) && IsDrawing(pdu) && !pdu.WireToSurface2?
    ensures Handle(env, c, pdu).client.codecs.progressive == c.codecs.progressive
  {
  }

  lemma PayloadConsistent(env: Env, c: Client, id: u16, context: u32, data: seq<u8>)
    requires Drives(env) && Consistent(c.codecs.progressive)
    ensures Consistent(OnWire2(env, c, id, context, data).client.codecs.progressive)
  {
  }

  lemma PayloadKeepsUnknown(env: Env, c: Client, id: u16, context: u32, data: seq<u8>, surface: u16)
    requires Drives(env) && Unknown(c, surface) && (id == surface ==> surface !in c.surfaces)
    ensures Unknown(OnWire2(env, c, id, context, data).client, surface)
  {
    PayloadConsistent(env, c, id, context, data);
    if id in c.surfaces {
      var m' := env.progressive(c.codecs, id, context, c.surfaces[id].size, data).0;
      AbsentStays(c.codecs.progressive, PayloadFor(ContextId(id, context)), m'.progressive, surface);
    }
  }

  /** A PDU brings nothing of a surface into the decoder unless it is a progressive payload for a live one. */
  lemma HandleKeepsUnknown(env: Env, c: Client, pdu: Pdu, surface: u16)
    requires Drives(env) && Unknown(c, surface)
    requires pdu.WireToSurface2? && pdu.id == surface ==> surface !in c.surfaces
    ensures Unknown(Handle(env, c, pdu).client, surface)
  {
    if pdu.WireToSurface2? {
      PayloadKeepsUnknown(env, c, pdu.id, pdu.context, pdu.data, surface);
    } else if IsDrawing(pdu) {
      DrawingLeavesDecoder(env, c, pdu);
    } else {
      match pdu {
        case ResetGraphics(_) => EventKeeps(env, c.codecs, GraphicsReset(c.surfaces.Keys), surface);
        case CreateSurface(id, _, _, _) => EventKeeps(env, c.codecs, DroppedSurface(id), surface);
        case DeleteSurface(id) => EventKeeps(env, c.codecs, DroppedSurface(id), surface);
        case StartFrame => EventKeeps(env, c.codecs, FrameBegan, surface);
        case EndFrame(_) => EventKeeps(env, c.codecs, FrameFinished, surface);
        case DeleteContext(id, context) => EventKeeps(env, c.codecs, DroppedContext(id, context), surface);
        case _ =>
      }
    }
  }

  /** A surface that a PDU removes is removed from the decoder as well. */
  lemma RemovedIsUnknown(env: Env, c: Client, pdu: Pdu, surface: u16)
    requires Drives(env) && Consistent(c.codecs.progressive)
    requires surface in c.surfaces && surface !in Handle(env, c, pdu).client.surfaces
    requires pdu.DeleteSurface? || pdu.ResetGraphics?
    ensures Unknown(Handle(env, c, pdu).client, surface)
  {
    if pdu.DeleteSurface? {
      var m' := env.notify(c.codecs, DroppedSurface(pdu.id));
      assert Follows(c.codecs.progressive, DroppedSurface(pdu.id), m'.progressive);
      DeletedIsAbsent(c.codecs.progressive, m'.progressive, surface);
    } else {
      assert Follows(c.codecs.progressive, GraphicsReset(c.surfaces.Keys),
                     env.notify(c.codecs, GraphicsReset(c.surfaces.Keys)).progressive);
    }
  }

  lemma OnlyTheseRemove(env: Env, c: Client, pdu: Pdu)
    requires !pdu.DeleteSurface? && !pdu.ResetGraphics?
    ensures c.surfaces.Keys <= Handle(env, c, pdu).client.surfaces.Keys
  {
  }

  // ----- sessions ---------------------------------------------------------------------------

  /** The decoder knows only live surfaces. */
  ghost predicate KnowsOnlyLive(c: Client) {
    Consistent(c.codecs.progressive) && forall surface: u16 :: surface !in c.surfaces ==> Unknown(c, surface)
  }

  lemma EventConsistent(env: Env, m: Memory, e: Event)
    requires Drives(env) && Consistent(m.progressive)
    ensures Consistent(env.notify(m, e).progressive)
  {
    assert Follows(m.progressive, e, env.notify(m, e).progressive);
  }

  lemma HandleConsistent(env: Env, c: Client, pdu: Pdu)
    requires Drives(env) && Consistent(c.codecs.progressive)
    ensures Consistent(Handle(env, c, pdu).client.codecs.progressive)
  {
    if pdu.WireToSurface2? {
      PayloadConsistent(env, c, pdu.id, pdu.context, pdu.data);
    } else if IsDrawing(pdu) {
      DrawingLeavesDecoder(env, c, pdu);
    } else {
      match pdu {
        case ResetGraphics(_) => EventConsistent(env, c.codecs, GraphicsReset(c.surfaces.Keys));
        case CreateSurface(id, _, _, _) => EventConsistent(env, c.codecs, DroppedSurface(id));
        case DeleteSurface(id) => EventConsistent(env, c.codecs, DroppedSurface(id));
        case StartFrame => EventConsistent(env, c.codecs, FrameBegan);
        case EndFrame(_) => EventConsistent(env, c.codecs, FrameFinished);
        case DeleteContext(id, context) => EventConsistent(env, c.codecs, DroppedContext(id, context));
        case _ =>
      }
    }
  }

  lemma HandleKnowsOnlyLive(env: Env, c: Client, pdu: Pdu)
    requires Drives(env) && KnowsOnlyLive(c)
    ensures KnowsOnlyLive(Handle(env, c, pdu).client)
  {
    HandleConsistent(env, c, pdu);
    var c' := Handle(env, c, pdu).client;
    forall surface: u16 | surface !in c'.surfaces ensures Unknown(c', surface) {
      if surface !in c.surfaces {
        HandleKeepsUnknown(env, c, pdu, surface);
      } else {
        if !pdu.DeleteSurface? && !pdu.ResetGraphics? {
          OnlyTheseRemove(env, c, pdu);
        }
        RemovedIsUnknown(env, c, pdu, surface);
      }
    }
  }

  /**
   Over every sequence of PDUs the decoder holds contexts, references, flags and, during a frame, frame
   tiles only of surfaces that are live in the client.
   */
  lemma {:induction false} DecoderKnowsOnlyLiveSurfaces(env: Env, c: Client, pdus: seq<Pdu>)
    requires Drives(env) && GfxRuns.Initial(c) && c.codecs.progressive == EMPTY
    ensures KnowsOnlyLive(GfxRuns.Session(env, c, pdus).client)
  {
    if pdus == [] {
      assert KnowsOnlyLive(c);
    } else {
      DecoderKnowsOnlyLiveSurfaces(env, c, pdus[..|pdus| - 1]);
      HandleKnowsOnlyLive(env, GfxRuns.Session(env, c, pdus[..|pdus| - 1]).client, pdus[|pdus| - 1]);
    }
  }

  lemma {:induction false} SessionKeepsUnknown(env: Env, c: Client, pdus: seq<Pdu>, surface: u16)
    requires Drives(env) && Unknown(c, surface)
    requires forall pdu <- pdus :: !(pdu.WireToSurface2? && pdu.id == surface)
    ensures Unknown(GfxRuns.Session(env, c, pdus).client, surface)
  {
    if pdus == [] {
    } else {
      var init, last := pdus[..|pdus| - 1], pdus[|pdus| - 1];
      assert last in pdus && forall pdu <- init :: pdu in pdus;
      SessionKeepsUnknown(env, c, init, surface);
      HandleKeepsUnknown(env, GfxRuns.Session(env, c, init).client, last, surface);
    }
  }

  /**
   After any session, a surface that is created, under a used id or a new one, has its first
   progressive payload decoded as in a new decoder, whatever PDUs come in between.
   */
  lemma CreatedSurfaceStartsNew(env: Env, c: Client, past: seq<Pdu>, create: Pdu, between: seq<Pdu>,
                                f: Foreign, context: u32, width: u16, height: u16,
                                blocks: seq<PayloadSpec.StreamBlock>, flag: bool)
    requires Drives(env) && GfxRuns.Initial(c) && c.codecs.progressive == EMPTY && create.CreateSurface?
    requires var c1 := GfxRuns.Session(env, c, past).client; Handle(env, c1, create).error.None?
    requires forall pdu <- between :: !(pdu.WireToSurface2? && pdu.id == create.id)
    ensures var c1 := GfxRuns.Session(env, c, past).client;
      var s := GfxRuns.Session(env, Handle(env, c1, create).client, between).client.codecs.progressive;
      && Consistent(s)
      && FlagFor(s, ContextId(create.id, context), Signalled(blocks))
         == FlagFor(EMPTY, ContextId(create.id, context), Signalled(blocks))
      && Yield(f, s, ContextId(create.id, context), width, height, blocks, flag)
         == Yield(f, EMPTY, ContextId(create.id, context), width, height, blocks, flag)
  {
    var c1 := GfxRuns.Session(env, c, past).client;
    DecoderKnowsOnlyLiveSurfaces(env, c, past);
    assert create.id !in c1.surfaces;
    HandleKeepsUnknown(env, c1, create, create.id);
    SessionKeepsUnknown(env, Handle(env, c1, create).client, between, create.id);
    AbsentStartsNew(f, GfxRuns.Session(env, Handle(env, c1, create).client, between).client.codecs.progressive,
                    ContextId(create.id, context), width, height, blocks, flag);
  }

  // ----- frames and contexts ----------------------------------------------------------------

  /** The session is inside a frame: one was started, and neither ended nor reset since. */
  ghost predicate InFrame(pdus: seq<Pdu>) {
    pdus != [] &&
    match pdus[|pdus| - 1]
    case StartFrame => true
    case EndFrame(_) => false
    case ResetGraphics(_) => false
    case _ => InFrame(pdus[..|pdus| - 1])
  }

  lemma PayloadKeepsFrame(env: Env, c: Client, id: u16, context: u32, data: seq<u8>)
    requires Drives(env) && Consistent(c.codecs.progressive)
    ensures OnWire2(env, c, id, context, data).client.codecs.progressive.frameActive == c.codecs.progressive.frameActive
  {
    if id in c.surfaces {
      var after := env.progressive(c.codecs, id, context, c.surfaces[id].size, data).0;
      assert Does(c.codecs.progressive, PayloadFor(ContextId(id, context)), after.progressive);
    }
  }

  lemma FrameAfter(env: Env, c: Client, pdu: Pdu)
    requires Drives(env) && Consistent(c.codecs.progressive)
    ensures Handle(env, c, pdu).client.codecs.progressive.frameActive ==
      match pdu
      case StartFrame => true
      case EndFrame(_) => false
      case ResetGraphics(_) => false
      case _ => c.codecs.progressive.frameActive
  {
    var s := c.codecs.progressive;
    if pdu.WireToSurface2? {
      PayloadKeepsFrame(env, c, pdu.id, pdu.context, pdu.data);
    } else if IsDrawing(pdu) {
      DrawingLeavesDecoder(env, c, pdu);
    } else {
      match pdu {
        case ResetGraphics(_) =>
          assert Follows(s, GraphicsReset(c.surfaces.Keys), env.notify(c.codecs, GraphicsReset(c.surfaces.Keys)).progressive);
        case CreateSurface(id, _, _, _) => assert Follows(s, DroppedSurface(id), env.notify(c.codecs, DroppedSurface(id)).progressive);
        case DeleteSurface(id) => assert Follows(s, DroppedSurface(id), env.notify(c.codecs, DroppedSurface(id)).progressive);
        case StartFrame => assert Follows(s, FrameBegan, env.notify(c.codecs, FrameBegan).progressive);
        case EndFrame(_) => assert Follows(s, FrameFinished, env.notify(c.codecs, FrameFinished).progressive);
        case DeleteContext(id, context) =>
          assert Follows(s, DroppedContext(id, context), env.notify(c.codecs, DroppedContext(id, context)).progressive);
        case _ =>
      }
    }
  }

  /** Over every session the decoder is inside a frame exactly when the PDUs are. */
  lemma {:induction false} FramesAreFollowed(env: Env, c: Client, pdus: seq<Pdu>)
    requires Drives(env) && GfxRuns.Initial(c) && c.codecs.progressive == EMPTY
    ensures GfxRuns.Session(env, c, pdus).client.codecs.progressive.frameActive == InFrame(pdus)
  {
    if pdus == [] {
    } else {
      var init := pdus[..|pdus| - 1];
      FramesAreFollowed(env, c, init);
      DecoderKnowsOnlyLiveSurfaces(env, c, init);
      FrameAfter(env, GfxRuns.Session(env, c, init).client, pdus[|pdus| - 1]);
    }
  }

  /** A deleted codec context is gone from the decoder with its frame tiles; a frame starts and ends without any. */
  lemma DroppedFromDecoder(env: Env, c: Client, id: u16, context: u32, frameId: u32)
    requires Drives(env) && Consistent(c.codecs.progressive)
    ensures var s := Handle(env, c, DeleteContext(id, context)).client.codecs.progressive;
      ContextId(id, context) !in s.contexts && ContextId(id, context) !in s.frameTiles
      && s.references == c.codecs.progressive.references
    ensures Handle(env, c, StartFrame).client.codecs.progressive.frameTiles == map[]
    ensures Handle(env, c, EndFrame(frameId)).client.codecs.progressive.frameTiles == map[]
  {
    var s := c.codecs.progressive;
    assert Follows(s, DroppedContext(id, context), env.notify(c.codecs, DroppedContext(id, context)).progressive);
    assert Follows(s, FrameBegan, env.notify(c.codecs, FrameBegan).progressive);
    assert Follows(s, FrameFinished, env.notify(c.codecs, FrameFinished).progressive);
  }
}
