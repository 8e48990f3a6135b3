/**
 The progressive decoder of a session: tile grids per surface and codec context, references per
 surface, and the tiles of the current frame. A decode works on the grid of its own context with the
 references of its own surface, and leaves everything of other surfaces and contexts alone.
 */
module ProgressiveCodec {
  import opened Arithmetic
  import opened Clipping
  import opened Geometry
  import opened PayloadSpec
  import opened Prelude
  import opened ProgressivePayload
  import opened ProgressiveTiles
  import opened RegionDecoder
  import opened RegionRounds
  import opened Tile

  datatype ContextId = ContextId(surface: u16, context: u32)

  datatype Grid = Grid(wide: u16, high: u16, reduceExtrapolate: bool, tiles: seq<Option<TileState>>)

  datatype State = State(
    contexts: map<ContextId, Grid>,
    references: map<RefKey, Coeffs>,
    frameTiles: map<ContextId, set<Key>>,
    frameActive: bool,
    /** The reduce-extrapolate flag a surface announced last. */
    flags: map<u16, bool>)

  datatype DecodeError = TooLarge | Malformed | MissingContext

  /** What does not belong to this repository: stream parsing, tile coding, rectangle lists. */
  datatype Foreign = Foreign(parse: seq<u8> -> Option<seq<StreamBlock>>, tiles: TileCodec, ops: RegionOps)

  const EMPTY: State := State(map[], map[], map[], false, map[])

  ghost predicate Consistent(s: State) {
    forall id <- s.contexts :: |s.contexts[id].tiles| == s.contexts[id].wide * s.contexts[id].high
  }

  // ----- where a decode starts --------------------------------------------------------------

  function TilesAcross(pixels: u16): u16 {
    (pixels + TILE_DIM - 1) / TILE_DIM
  }

  /** The flag of the first CONTEXT block. */
  function Signalled(blocks: seq<StreamBlock>): Option<bool> {
    if blocks == [] then None
    else if blocks[0].ContextBlock? then Some(blocks[0].reduceExtrapolate)
    else Signalled(blocks[1..])
  }

  function FlagsAfter(s: State, surface: u16, signalled: Option<bool>): map<u16, bool> {
    match signalled case Some(flag) => s.flags[surface := flag] case None => s.flags
  }

  /** The flag of a payload: its own, else its context's, else the surface's. */
  function FlagFor(s: State, id: ContextId, signalled: Option<bool>): Option<bool> {
    if signalled.Some? then signalled
    else if id in s.contexts then Some(s.contexts[id].reduceExtrapolate)
    else if id.surface in s.flags then Some(s.flags[id.surface])
    else None
  }

  predicate Resized(s: State, id: ContextId, wide: u16, high: u16) {
    id in s.contexts && (s.contexts[id].wide != wide || s.contexts[id].high != high)
  }

  function BlankTiles(wide: u16, high: u16): seq<Option<TileState>> {
    MulNonNegative(wide, high);
    seq(wide as int * high as int, _ => None)
  }

  function GridFor(s: State, id: ContextId, wide: u16, high: u16): seq<Option<TileState>> {
    if id in s.contexts && !Resized(s, id, wide, high) then s.contexts[id].tiles else BlankTiles(wide, high)
  }

  function FrameFor(s: State, id: ContextId, wide: u16, high: u16): set<Key> {
    if s.frameActive && id in s.frameTiles && !Resized(s, id, wide, high) then s.frameTiles[id] else {}
  }

  ghost function StartOf(s: State, id: ContextId, wide: u16, high: u16): Progress
    requires Consistent(s)
  {
    Progress(CellsOf(wide, high, GridFor(s, id, wide, high), s.references, id.surface), FrameFor(s, id, wide, high), [], 0)
  }

  /** What a payload yields: the foreign parser's blocks, decoded from the starting point. */
  ghost function Yield(f: Foreign, s: State, id: ContextId, width: u16, height: u16,
                       blocks: seq<StreamBlock>, flag: bool): Option<Progress>
    requires Consistent(s)
  {
    Payload(Screen(f.ops, f.tiles, id.surface, flag, width, height),
            StartOf(s, id, TilesAcross(width), TilesAcross(height)), Active(blocks))
  }

  /** The announced flags decide which flag is used, and nothing else. */
  lemma YieldIgnoresFlags(f: Foreign, s: State, t: State, id: ContextId, width: u16, height: u16,
                          blocks: seq<StreamBlock>, flag: bool)
    requires Consistent(s) && t == s.(flags := t.flags)
    ensures Consistent(t) && Yield(f, s, id, width, height, blocks, flag) == Yield(f, t, id, width, height, blocks, flag)
    ensures StartOf(s, id, TilesAcross(width), TilesAcross(height)) == StartOf(t, id, TilesAcross(width), TilesAcross(height))
  {
    var wide, high := TilesAcross(width), TilesAcross(height);
    assert GridFor(s, id, wide, high) == GridFor(t, id, wide, high);
    assert FrameFor(s, id, wide, high) == FrameFor(t, id, wide, high);
  }

  // ----- what a decode leaves alone ---------------------------------------------------------

  ghost predicate SameContext(s: State, t: State, id: ContextId) {
    && (id in s.contexts <==> id in t.contexts)
    && (id in s.contexts ==> s.contexts[id] == t.contexts[id])
  }

  ghost predicate SameReference(s: State, t: State, ref: RefKey) {
    && (ref in s.references <==> ref in t.references)
    && (ref in s.references ==> s.references[ref] == t.references[ref])
  }

  /** Other contexts, the references of other surfaces and their flags are as before. */
  ghost predicate Elsewhere(s: State, t: State, id: ContextId) {
    && (forall other :: other != id ==> SameContext(s, t, other))
    && (forall ref: RefKey :: ref.surface != id.surface ==> SameReference(s, t, ref))
    && (forall surface :: surface != id.surface ==>
          (surface in s.flags <==> surface in t.flags) && (surface in s.flags ==> s.flags[surface] == t.flags[surface]))
    && (s.frameActive ==> forall other :: other != id ==>
          (other in s.frameTiles <==> other in t.frameTiles)
          && (other in s.frameTiles ==> s.frameTiles[other] == t.frameTiles[other]))
  }

  // ----- operations -------------------------------------------------------------------------

  datatype Operation =
    | FrameStarts | FrameEnds | ContextDeleted(context: ContextId) | SurfaceDeleted(surface: u16) | AllReset
    | PayloadFor(id: ContextId)

  function WithoutSurface(s: State, surface: u16): State {
    s.(contexts := map id | id in s.contexts && id.surface != surface :: s.contexts[id],
       references := map ref | ref in s.references && ref.surface != surface :: s.references[ref],
       frameTiles := map id | id in s.frameTiles && id.surface != surface :: s.frameTiles[id],
       flags := s.flags - {surface})
  }

  /** What an operation does to the state; a payload may do anything to its own surface and context. */
  ghost predicate Does(s: State, op: Operation, t: State) {
    match op
    case FrameStarts => t == s.(frameTiles := map[], frameActive := true)
    case FrameEnds => t == s.(frameTiles := map[], frameActive := false)
    case ContextDeleted(id) => t == s.(contexts := s.contexts - {id}, frameTiles := s.frameTiles - {id})
    case SurfaceDeleted(surface) => t == WithoutSurface(s, surface)
    case AllReset => t == s.(contexts := map[], frameTiles := map[], frameActive := false)
    case PayloadFor(id) => Consistent(t) && t.frameActive == s.frameActive && Elsewhere(s, t, id)
  }

  /** `states` are those of a run of `ops`. */
  ghost predicate IsRun(states: seq<State>, ops: seq<Operation>) {
    |states| == |ops| + 1 && Consistent(states[0]) && forall i :: 0 <= i < |ops| ==> Does(states[i], ops[i], states[i + 1])
  }

  lemma {:induction false} RunConsistent(states: seq<State>, ops: seq<Operation>, n: nat)
    requires IsRun(states, ops) && n < |states|
    ensures Consistent(states[n])
  {
    if n == 0 {
    } else {
      RunConsistent(states, ops, n - 1);
      assert Does(states[n - 1], ops[n - 1], states[n]);
    }
  }

  // ----- forgetting -------------------------------------------------------------------------

  /** Nothing in the decoder that a payload could use belongs to the surface. */
  ghost predicate Absent(s: State, surface: u16) {
    && (forall id <- s.contexts :: id.surface != surface)
    && (forall ref <- s.references :: ref.surface != surface)
    && (s.frameActive ==> forall id <- s.frameTiles :: id.surface != surface)
    && surface !in s.flags
  }

  lemma DeletedIsAbsent(s: State, t: State, surface: u16)
    requires Does(s, SurfaceDeleted(surface), t)
    ensures Absent(t, surface)
  {
  }

  /** Only a payload of the surface itself brings anything of it back. */
  lemma AbsentStays(s: State, op: Operation, t: State, surface: u16)
    requires Absent(s, surface) && Does(s, op, t)
    requires op.PayloadFor? ==> op.id.surface != surface
    ensures Absent(t, surface)
  {
    if op.PayloadFor? {
      forall id <- t.contexts ensures id.surface != surface {
        assert id == op.id || SameContext(s, t, id);
      }
      forall ref <- t.references ensures ref.surface != surface {
        assert ref.surface == op.id.surface || SameReference(s, t, ref);
      }
    }
  }

  lemma {:induction false} AbsentSince(states: seq<State>, ops: seq<Operation>, first: nat, last: nat, surface: u16)
    requires IsRun(states, ops) && first <= last < |states| && Absent(states[first], surface)
    requires forall i :: first <= i < last && ops[i].PayloadFor? ==> ops[i].id.surface != surface
    ensures Absent(states[last], surface)
    decreases last
  {
    if first == last {
    } else {
      AbsentSince(states, ops, first, last - 1, surface);
      AbsentStays(states[last - 1], ops[last - 1], states[last], surface);
    }
  }

  /**
   A surface that reuses the id of a deleted one cannot inherit anything: whatever other surfaces,
   frames and resets did since the deletion, its first payload does what it does in a new decoder.
   */
  lemma NothingInherited(f: Foreign, states: seq<State>, ops: seq<Operation>, deleted: nat, now: nat, id: ContextId,
                         width: u16, height: u16, blocks: seq<StreamBlock>, flag: bool)
    requires IsRun(states, ops) && deleted < now < |states| && ops[deleted] == SurfaceDeleted(id.surface)
    requires forall i :: deleted < i < now && ops[i].PayloadFor? ==> ops[i].id.surface != id.surface
    ensures Consistent(states[now])
    ensures FlagFor(states[now], id, Signalled(blocks)) == FlagFor(EMPTY, id, Signalled(blocks))
    ensures Yield(f, states[now], id, width, height, blocks, flag) == Yield(f, EMPTY, id, width, height, blocks, flag)
  {
    DeletedIsAbsent(states[deleted], states[deleted + 1], id.surface);
    AbsentSince(states, ops, deleted + 1, now, id.surface);
    RunConsistent(states, ops, now);
    AbsentStartsNew(f, states[now], id, width, height, blocks, flag);
  }

  lemma AbsentStartsNew(f: Foreign, s: State, id: ContextId, width: u16, height: u16, blocks: seq<StreamBlock>, flag: bool)
    requires Consistent(s) && Absent(s, id.surface)
    ensures FlagFor(s, id, Signalled(blocks)) == FlagFor(EMPTY, id, Signalled(blocks))
    ensures Yield(f, s, id, width, height, blocks, flag) == Yield(f, EMPTY, id, width, height, blocks, flag)
  {
    var wide, high := TilesAcross(width), TilesAcross(height);
    assert id !in s.contexts && FrameFor(s, id, wide, high) == {};
    var tiles := GridFor(s, id, wide, high);
    assert tiles == GridFor(EMPTY, id, wide, high);
    CellsIgnore(wide, high, tiles, s.references, map[], id.surface);
  }

  lemma CellsIgnore(wide: u16, high: u16, tiles: seq<Option<TileState>>,
                    a: map<RefKey, Coeffs>, b: map<RefKey, Coeffs>, surface: u16)
    requires |tiles| == wide * high
    requires forall ref: RefKey :: ref.surface == surface ==>
               (ref in a <==> ref in b) && (ref in a ==> a[ref] == b[ref])
    ensures CellsOf(wide, high, tiles, a, surface) == CellsOf(wide, high, tiles, b, surface)
  {
    forall key <- GridKeys(wide, high)
      ensures CellAt(wide, high, tiles, a, surface, key) == CellAt(wide, high, tiles, b, surface, key)
    {
    }
  }

  /**
   Decoding for one surface is invisible to every other: whatever a decode did to the state, the
   outcome of any payload for another surface is the same before and after.
   */
  lemma SurfacesDoNotInterfere(f: Foreign, s: State, t: State, id: ContextId, other: ContextId,
                               width: u16, height: u16, blocks: seq<StreamBlock>, flag: bool)
    requires Consistent(s) && Consistent(t) && Elsewhere(s, t, id) && s.frameActive == t.frameActive
    requires other.surface != id.surface
    ensures FlagFor(s, other, Signalled(blocks)) == FlagFor(t, other, Signalled(blocks))
    ensures Yield(f, s, other, width, height, blocks, flag) == Yield(f, t, other, width, height, blocks, flag)
  {
    var wide, high := TilesAcross(width), TilesAcross(height);
    assert SameContext(s, t, other);
    var tiles := GridFor(s, other, wide, high);
    assert tiles == GridFor(t, other, wide, high);
    assert forall ref: RefKey :: ref.surface == other.surface ==> SameReference(s, t, ref);
    CellsIgnore(wide, high, tiles, s.references, t.references, other.surface);
  }

  /** The outcome, and the grid, references and frame tiles it leaves. */
  ghost predicate Stored(f: Foreign, s: State, t: State, id: ContextId, width: u16, height: u16, blocks: seq<StreamBlock>,
                         flag: bool, r: Result<seq<BgraTile>, DecodeError>)
    requires Consistent(s) && Consistent(t)
  {
    var wide, high := TilesAcross(width), TilesAcross(height);
    && id in t.contexts && t.contexts[id].wide == wide && t.contexts[id].high == high
    && t.contexts[id].reduceExtrapolate == flag
    && var cells := CellsOf(wide, high, t.contexts[id].tiles, t.references, id.surface);
    && KeepsAll(StartOf(s, id, wide, high).cells, cells)
    && SameElsewhere(s.references, t.references, id.surface, wide, high)
    && match Yield(f, s, id, width, height, blocks, flag)
       case None =>
         && r == Err(Malformed)
         && id in t.frameTiles && FrameFor(s, id, wide, high) <= t.frameTiles[id]
         && t.frameTiles == (if s.frameActive then s.frameTiles else map[])[id := t.frameTiles[id]]
       case Some(p) => r == Ok(p.out) && cells == p.cells
                       && t.frameTiles == if s.frameActive then s.frameTiles[id := p.frame] else map[]
  }

  /** What a decode of parsed blocks did. */
  ghost predicate Decoded(f: Foreign, s: State, t: State, id: ContextId, width: u16, height: u16, parsed: Option<seq<StreamBlock>>,
                          r: Result<seq<BgraTile>, DecodeError>)
    requires Consistent(s) && Consistent(t)
  {
    match parsed
    case None => r == Err(Malformed) && t == s
    case Some(blocks) =>
      match FlagFor(s, id, Signalled(blocks))
      case None => r == Err(MissingContext)
      case Some(flag) =>
        && t.flags == FlagsAfter(s, id.surface, Signalled(blocks))
        && Stored(f, s, t, id, width, height, blocks, flag, r)
  }

  lemma StoredIgnoresFlags(f: Foreign, s: State, s': State, t: State, id: ContextId, width: u16, height: u16,
                           blocks: seq<StreamBlock>, flag: bool, r: Result<seq<BgraTile>, DecodeError>)
    requires Consistent(s) && Consistent(s') && Consistent(t) && s' == s.(flags := s'.flags)
    requires Stored(f, s', t, id, width, height, blocks, flag, r)
    ensures Stored(f, s, t, id, width, height, blocks, flag, r)
  {
    YieldIgnoresFlags(f, s, s', id, width, height, blocks, flag);
  }

  lemma ElsewhereFlag(s: State, s': State, t: State, id: ContextId)
    requires Elsewhere(s', t, id) && t.flags == s'.flags
    requires s' == s.(flags := s'.flags) && forall surface :: surface != id.surface ==>
               (surface in s.flags <==> surface in s'.flags) && (surface in s.flags ==> s.flags[surface] == s'.flags[surface])
    ensures Elsewhere(s, t, id)
  {
    forall other | other != id ensures SameContext(s, t, other) {
      assert SameContext(s', t, other);
    }
    forall ref: RefKey | ref.surface != id.surface ensures SameReference(s, t, ref) {
      assert SameReference(s', t, ref);
    }
  }

  /** The state once a decode has put its grid, references and frame tiles back. */
  function PutBackGrid(s: State, id: ContextId, grid: Grid, refs: map<RefKey, Coeffs>, frame: set<Key>, done: bool): State {
    var frames := if s.frameActive then s.frameTiles else map[];
    State(s.contexts[id := grid], refs, if done && !s.frameActive then map[] else frames[id := frame], s.frameActive, s.flags)
  }

  lemma PutBackTouchesNoOther(s: State, id: ContextId, grid: Grid, refs: map<RefKey, Coeffs>, frame: set<Key>, done: bool)
    requires SameElsewhere(s.references, refs, id.surface, grid.wide, grid.high)
    ensures Elsewhere(s, PutBackGrid(s, id, grid, refs, frame, done), id)
  {
    var t := PutBackGrid(s, id, grid, refs, frame, done);
    forall other | other != id ensures SameContext(s, t, other) {
    }
    forall ref: RefKey | ref.surface != id.surface ensures SameReference(s, t, ref) {
    }
  }

  lemma PutBackStores(f: Foreign, s: State, id: ContextId, width: u16, height: u16, blocks: seq<StreamBlock>, flag: bool,
                      grid: Grid, refs: map<RefKey, Coeffs>, frame: set<Key>, out: Option<seq<BgraTile>>)
    requires Consistent(s) && grid.wide == TilesAcross(width) && grid.high == TilesAcross(height)
    requires grid.reduceExtrapolate == flag && |grid.tiles| == grid.wide * grid.high
    requires KeepsAll(StartOf(s, id, grid.wide, grid.high).cells, CellsOf(grid.wide, grid.high, grid.tiles, refs, id.surface))
    requires SameElsewhere(s.references, refs, id.surface, grid.wide, grid.high)
    requires match Yield(f, s, id, width, height, blocks, flag)
             case None => out.None? && FrameFor(s, id, grid.wide, grid.high) <= frame
             case Some(p) => out == Some(p.out) && CellsOf(grid.wide, grid.high, grid.tiles, refs, id.surface) == p.cells
                             && frame == if s.frameActive then p.frame else {}
    ensures var t := PutBackGrid(s, id, grid, refs, frame, out.Some?);
      Consistent(t) && Stored(f, s, t, id, width, height, blocks, flag, if out.Some? then Ok(out.value) else Err(Malformed))
  {
  }

  // ----- the decoder ------------------------------------------------------------------------

  class Decoder {
    const foreign: Foreign
    var contexts: map<ContextId, Grid>
    var references: map<RefKey, Coeffs>
    var frameTiles: map<ContextId, set<Key>>
    var frameActive: bool
    var flags: map<u16, bool>

    constructor (foreign: Foreign)
      ensures Value() == EMPTY && Consistent(Value()) && this.foreign == foreign
    {
      this.foreign := foreign;
      contexts, references, frameTiles, frameActive, flags := map[], map[], map[], false, map[];
    }

    ghost function Value(): State
      reads this
    {
      State(contexts, references, frameTiles, frameActive, flags)
    }

    method BeginFrame()
      modifies this`frameTiles, this`frameActive
      ensures Does(old(Value()), FrameStarts, Value())
    {
      frameTiles, frameActive := map[], true;
    }

    method EndFrame()
      modifies this`frameTiles, this`frameActive
      ensures Does(old(Value()), FrameEnds, Value())
    {
      frameTiles, frameActive := map[], false;
    }

    method DeleteContext(id: ContextId)
      requires Consistent(Value())
      modifies this`contexts, this`frameTiles
      ensures Consistent(Value()) && Does(old(Value()), ContextDeleted(id), Value())
    {
      contexts := contexts - {id};
      frameTiles := frameTiles - {id};
    }

    /** After deleting a surface nothing of it is left, and nothing else is gone. */
    method DeleteSurface(surface: u16)
      requires Consistent(Value())
      modifies this`contexts, this`references, this`frameTiles, this`flags
      ensures Consistent(Value()) && Absent(Value(), surface) && Does(old(Value()), SurfaceDeleted(surface), Value())
    {
      contexts := map id | id in contexts && id.surface != surface :: contexts[id];
      references := map ref | ref in references && ref.surface != surface :: references[ref];
      frameTiles := map id | id in frameTiles && id.surface != surface :: frameTiles[id];
      flags := flags - {surface};
    }

    /** All contexts go; references and flags stay. */
    method ResetContexts()
      modifies this`contexts, this`frameTiles, this`frameActive
      ensures Does(old(Value()), AllReset, Value())
    {
      contexts, frameTiles, frameActive := map[], map[], false;
    }

    /**
     One payload. Refused for the size, the stream or a missing flag it leaves everything but a
     signalled flag; otherwise it yields exactly the outcome of its blocks from its starting point.
     Whatever happens, nothing of its starting point is lost (a resize starts from a blank grid), no
     reference outside its grid and nothing of other surfaces or contexts changes, and a failure
     keeps the tiles the frame had.
     */
    method Decode(id: ContextId, surface: Size, data: seq<u8>) returns (r: Result<seq<BgraTile>, DecodeError>)
      requires Consistent(Value())
      modifies this
      ensures Consistent(Value()) && Does(old(Value()), PayloadFor(id), Value())
      ensures surface.width > MAX_SURFACE_DIM || surface.height > MAX_SURFACE_DIM <==> r == Err(TooLarge)
      ensures r == Err(TooLarge) || r == Err(MissingContext) ==> Value() == old(Value())
      ensures surface.width <= MAX_SURFACE_DIM && surface.height <= MAX_SURFACE_DIM ==>
                Decoded(foreign, old(Value()), Value(), id, surface.width, surface.height, foreign.parse(data), r)
    {
      if surface.width > MAX_SURFACE_DIM || surface.height > MAX_SURFACE_DIM {
        return Err(TooLarge);
      }
      ghost var s := Value();
      var parsed := foreign.parse(data);
      if parsed.None? {
        return Err(Malformed);
      }
      var blocks := parsed.value;
      var signalled := Signalled(blocks);
      if signalled.Some? {
        flags := flags[id.surface := signalled.value];
      }
      var flag := if signalled.Some? then signalled
                  else if id in contexts then Some(contexts[id].reduceExtrapolate)
                  else if id.surface in flags then Some(flags[id.surface]) else None;
      if flag.None? {
        return Err(MissingContext);
      }
      ghost var announced := Value();
      r := DecodeInto(id, surface.width, surface.height, blocks, flag.value);
      StoredIgnoresFlags(foreign, s, announced, Value(), id, surface.width, surface.height, blocks, flag.value, r);
      ElsewhereFlag(s, announced, Value(), id);
    }

    /** Decodes on a copy of the context's grid; nothing is stored yet. */
    method DecodeOn(id: ContextId, width: u16, height: u16, blocks: seq<StreamBlock>, flag: bool)
      returns (out: Option<seq<BgraTile>>, grid: Grid, refs: map<RefKey, Coeffs>, frame: set<Key>)
      requires Consistent(Value())
      ensures grid.wide == TilesAcross(width) && grid.high == TilesAcross(height) && grid.reduceExtrapolate == flag
      ensures |grid.tiles| == grid.wide * grid.high && SameElsewhere(references, refs, id.surface, grid.wide, grid.high)
      ensures KeepsAll(StartOf(Value(), id, grid.wide, grid.high).cells,
                       CellsOf(grid.wide, grid.high, grid.tiles, refs, id.surface))
      ensures match Yield(foreign, Value(), id, width, height, blocks, flag)
              case None => out.None? && FrameFor(Value(), id, grid.wide, grid.high) <= frame
              case Some(p) => out == Some(p.out) && CellsOf(grid.wide, grid.high, grid.tiles, refs, id.surface) == p.cells
                              && frame == if frameActive then p.frame else {}
    {
      var wide, high := TilesAcross(width), TilesAcross(height);
      var resized := id in contexts && (contexts[id].wide != wide || contexts[id].high != high);
      var tiles := if id in contexts && !resized then contexts[id].tiles else BlankTiles(wide, high);
      var kept := if frameActive && id in frameTiles && !resized then frameTiles[id] else {};
      var shared := new TileGrid.From(wide, high, flag, tiles, references);
      var context := new Context(shared, kept, frameActive);
      out := context.DecodeBlocks(Screen(foreign.ops, foreign.tiles, id.surface, flag, width, height), blocks);
      grid := Grid(wide, high, flag, shared.tiles);
      refs, frame := shared.references, context.frameTiles;
    }

    /** Stores what a decode made of the grid, the references and the frame's tiles. */
    method PutAway(id: ContextId, grid: Grid, refs: map<RefKey, Coeffs>, frame: set<Key>, done: bool)
      modifies this`contexts, this`references, this`frameTiles
      ensures Value() == PutBackGrid(old(Value()), id, grid, refs, frame, done)
    {
      contexts := contexts[id := grid];
      references := refs;
      if !frameActive {
        frameTiles := map[];
      }
      frameTiles := frameTiles[id := frame];
      if done && !frameActive {
        frameTiles := map[];
      }
    }

    /** The part of a decode that works on the grid. */
    method DecodeInto(id: ContextId, width: u16, height: u16, blocks: seq<StreamBlock>, flag: bool)
      returns (r: Result<seq<BgraTile>, DecodeError>)
      requires Consistent(Value())
      modifies this`contexts, this`references, this`frameTiles
      ensures Consistent(Value()) && Elsewhere(old(Value()), Value(), id)
      ensures Stored(foreign, old(Value()), Value(), id, width, height, blocks, flag, r)
      ensures r.Ok? || r == Err(Malformed)
    {
      var out, grid, refs, frame := DecodeOn(id, width, height, blocks, flag);
      PutBackTouchesNoOther(Value(), id, grid, refs, frame, out.Some?);
      PutBackStores(foreign, Value(), id, width, height, blocks, flag, grid, refs, frame, out);
      PutAway(id, grid, refs, frame, out.Some?);
      r := if out.Some? then Ok(out.value) else Err(Malformed);
    }
  }
}
