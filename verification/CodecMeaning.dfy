/**
 Where a progressive payload starts: which reduce-extrapolate flag it is decoded with, how many tiles
 its grid has, and what a context keeps from one payload to the next.
 */
module CodecMeaning {
  import opened Arithmetic
  import opened Geometry
  import opened PayloadSpec
  import opened Prelude
  import opened ProgressiveCodec
  import opened ProgressiveTiles
  import opened RegionDecoder
  import opened RegionRounds
  import opened Tile

  // ----- the flag ---------------------------------------------------------------------------

  /** Block `i` is the first CONTEXT block. */
  ghost predicate FirstContext(blocks: seq<StreamBlock>, i: nat) {
    && i < |blocks| && blocks[i].ContextBlock?
    && forall j: nat | j < i :: !blocks[j].ContextBlock?
  }

  lemma {:induction false} SignalledMeaning(blocks: seq<StreamBlock>)
    ensures Signalled(blocks).Some? <==> exists i: nat :: FirstContext(blocks, i)
    ensures forall i: nat | FirstContext(blocks, i) :: Signalled(blocks) == Some(blocks[i].reduceExtrapolate)
  {
    if blocks == [] {
    } else if blocks[0].ContextBlock? {
      assert FirstContext(blocks, 0);
    } else {
      var rest := blocks[1..];
      SignalledMeaning(rest);
      forall i: nat | i < |rest| ensures FirstContext(rest, i) <==> FirstContext(blocks, i + 1) {
        if FirstContext(blocks, i + 1) {
          forall j: nat | j < i ensures !rest[j].ContextBlock? {
            assert rest[j] == blocks[j + 1];
          }
        }
        if FirstContext(rest, i) {
          forall j: nat | j < i + 1 ensures !blocks[j].ContextBlock? {
            assert j > 0 ==> blocks[j] == rest[j - 1];
          }
        }
      }
      if i: nat :| FirstContext(blocks, i) {
        assert FirstContext(rest, i - 1);
      }
      forall i: nat | FirstContext(blocks, i) ensures Signalled(blocks) == Some(blocks[i].reduceExtrapolate) {
        assert FirstContext(rest, i - 1);
      }
    }
  }

  /**
   A payload is decoded with the flag of its first CONTEXT block; without one, with that of its own
   codec context; for a new context, with the one its surface announced last; and without any of the
   three it is refused.
   */
  lemma FlagOrder(s: State, id: ContextId, blocks: seq<StreamBlock>)
    ensures var flag := FlagFor(s, id, Signalled(blocks));
      && (forall i: nat | FirstContext(blocks, i) :: flag == Some(blocks[i].reduceExtrapolate))
      && ((forall b <- blocks :: !b.ContextBlock?) ==>
            && (id in s.contexts ==> flag == Some(s.contexts[id].reduceExtrapolate))
            && (id !in s.contexts && id.surface in s.flags ==> flag == Some(s.flags[id.surface]))
            && (id !in s.contexts && id.surface !in s.flags ==> flag.None?))
  {
    SignalledMeaning(blocks);
    if forall b <- blocks :: !b.ContextBlock? {
      assert forall i: nat | i < |blocks| :: blocks[i] in blocks;
    }
  }

  /**
   The flag a payload was decoded with stays that of its context, and one announced in it is the flag
   of every context its surface opens afterwards, as long as those payloads announce none.
   */
  lemma AnnouncedFlagIsUsed(f: Foreign, s: State, t: State, id: ContextId, width: u16, height: u16, blocks: seq<StreamBlock>,
                            r: Result<seq<BgraTile>, DecodeError>, later: ContextId)
    requires Consistent(s) && Consistent(t) && Decoded(f, s, t, id, width, height, Some(blocks), r)
    requires r != Err(MissingContext)
    requires later.surface == id.surface && later !in t.contexts
    ensures FlagFor(t, id, None) == FlagFor(s, id, Signalled(blocks))
    ensures Signalled(blocks).Some? ==> FlagFor(t, later, None) == Signalled(blocks)
    ensures Signalled(blocks).None? ==>
      FlagFor(t, later, None) == if id.surface in s.flags then Some(s.flags[id.surface]) else None
  {
  }

  // ----- the grid ---------------------------------------------------------------------------

  /** The tiles of a grid cover the surface, and none of them lies outside. */
  lemma GridCovers(width: u16, height: u16, px: nat, py: nat, key: Key)
    requires width <= 32768 && height <= 32768
    ensures px < width && py < height ==> Key(px / 64, py / 64) in GridKeys(TilesAcross(width), TilesAcross(height))
    ensures key in GridKeys(TilesAcross(width), TilesAcross(height)) <==> key.x * 64 < width && key.y * 64 < height
  {
  }

  /** The context has a grid of this many tiles. */
  predicate HasGrid(s: State, id: ContextId, wide: u16, high: u16) {
    id in s.contexts && s.contexts[id].wide == wide && s.contexts[id].high == high
  }

  /**
   A payload starts from its context's tiles when there are as many as its surface needs, and from
   blank ones otherwise; from the surface's references in any case; and, inside a frame, from the
   frame's tiles unless the grid was replaced.
   */
  lemma StartMeaning(s: State, id: ContextId, width: u16, height: u16, key: Key)
    requires Consistent(s) && key in GridKeys(TilesAcross(width), TilesAcross(height))
    ensures var wide, high := TilesAcross(width), TilesAcross(height);
      var start, ref := StartOf(s, id, wide, high), RefKey(id.surface, key.x, key.y);
      && start.cells.Keys == GridKeys(wide, high)
      && start.cells[key].reference == (if ref in s.references then Some(s.references[ref]) else None)
      && (HasGrid(s, id, wide, high) ==>
            var at := key.y as int * wide as int + key.x as int;
            0 <= at < |s.contexts[id].tiles| && start.cells[key].slot == s.contexts[id].tiles[at])
      && (!HasGrid(s, id, wide, high) ==> start.cells[key].slot.None?)
      && start.frame == (if s.frameActive && id in s.frameTiles && (id in s.contexts ==> HasGrid(s, id, wide, high))
                         then s.frameTiles[id] else {})
      && start.out == [] && start.work == 0
  {
    var wide, high := TilesAcross(width), TilesAcross(height);
    IndexRange(key.x, key.y, wide, high);
  }
}
