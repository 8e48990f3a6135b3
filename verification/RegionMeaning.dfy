/**
 What one REGION leaves behind, tile by tile: each tile goes through its own blocks in order, and the
 tiles that were drawn join the frame.
 */
module RegionMeaning {
  import opened Clipping
  import opened PayloadSpec
  import opened Prelude
  import opened ProgressiveTiles
  import opened RegionRounds
  import opened TileMeaning
  import opened TileSchedule

  /** The cells a tile passes through, one block after the other, none of which fails. */
  ghost predicate IsLife(step: Transition, blocks: seq<Block>, chain: seq<Cell>) {
    && |chain| == |blocks| + 1
    && forall k: nat | k < |blocks| ::
         !step(chain[k], blocks[k]).outcome.Failed? && chain[k + 1] == step(chain[k], blocks[k]).cell
  }

  ghost predicate DrawnAt(step: Transition, blocks: seq<Block>, chain: seq<Cell>, k: nat)
    requires k < |blocks| < |chain|
  {
    step(chain[k], blocks[k]).outcome.Drawn?
  }

  /** The pixels of the last block that drew the tile. */
  ghost predicate ShowsLast(step: Transition, blocks: seq<Block>, chain: seq<Cell>, pixels: Option<seq<u8>>)
    requires |blocks| < |chain|
  {
    if pixels.None? then
      forall k: nat | k < |blocks| :: !DrawnAt(step, blocks, chain, k)
    else
      exists k: nat ::
        && k < |blocks| && DrawnAt(step, blocks, chain, k)
        && step(chain[k], blocks[k]).outcome.pixels == pixels.value
        && forall later: nat | k < later < |blocks| :: !DrawnAt(step, blocks, chain, later)
  }

  ghost predicate Lives(step: Transition, blocks: seq<Block>, chain: seq<Cell>, before: Cell, after: Cell, pixels: Option<seq<u8>>) {
    && IsLife(step, blocks, chain) && ShowsLast(step, blocks, chain, pixels)
    && chain[0] == before && chain[|blocks|] == after
  }

  lemma LifeGoesOn(step: Transition, init: seq<Block>, block: Block, chain: seq<Cell>, before: Cell, after: Cell,
                   pixels: Option<seq<u8>>)
    requires Lives(step, init, chain, before, after, pixels) && !step(after, block).outcome.Failed?
    ensures var s := step(after, block);
      Lives(step, init + [block], chain + [s.cell], before, s.cell, if s.outcome.Drawn? then Some(s.outcome.pixels) else pixels)
  {
    var s := step(after, block);
    var blocks, longer := init + [block], chain + [s.cell];
    forall k: nat | k < |blocks|
      ensures !step(longer[k], blocks[k]).outcome.Failed? && longer[k + 1] == step(longer[k], blocks[k]).cell
      ensures k < |init| ==> (DrawnAt(step, blocks, longer, k) <==> DrawnAt(step, init, chain, k))
      ensures k < |init| ==> step(longer[k], blocks[k]) == step(chain[k], init[k])
    {
    }
    assert DrawnAt(step, blocks, longer, |init|) <==> s.outcome.Drawn?;
    if pixels.Some? && !s.outcome.Drawn? {
      var k: nat :| k < |init| && DrawnAt(step, init, chain, k) && step(chain[k], init[k]).outcome.pixels == pixels.value
        && forall later: nat | k < later < |init| :: !DrawnAt(step, init, chain, later);
      assert DrawnAt(step, blocks, longer, k);
    }
  }

  /** A tile that follows its blocks without an error lives through all of them. */
  lemma {:induction false} FollowIsLife(step: Transition, cell: Cell, blocks: seq<Block>) returns (chain: seq<Cell>)
    requires Follow(step, cell, blocks).error.None?
    ensures var t := Follow(step, cell, blocks); Lives(step, blocks, chain, cell, t.cell, t.pixels)
  {
    if blocks == [] {
      chain := [cell];
    } else {
      var init, block := blocks[..|blocks| - 1], blocks[|blocks| - 1];
      var before := FollowIsLife(step, cell, init);
      var t := Follow(step, cell, init);
      LifeGoesOn(step, init, block, before, cell, t.cell, t.pixels);
      chain := before + [step(t.cell, block).cell];
      assert blocks == init + [block];
    }
  }

  // ----- a REGION ---------------------------------------------------------------------------

  /** What a REGION did to one tile, and whether the tile is in the frame afterwards. */
  ghost predicate TileLives(step: Transition, p: Progress, q: Progress, blocks: seq<Block>, key: Key)
    requires key in p.cells && key in q.cells
  {
    exists chain, pixels ::
      && Lives(step, Of(blocks, key), chain, p.cells[key], q.cells[key], pixels)
      && (key in q.frame <==> key in p.frame || pixels.Some?)
  }

  lemma TileLived(step: Transition, p: Progress, q: Progress, blocks: seq<Block>, d: Decoded, key: Key)
    requires key in p.cells && d.cells.Keys == p.cells.Keys && q.cells == d.cells && q.frame == p.frame + d.pixels.Keys
    requires Matches(d, key, Follow(step, p.cells[key], Of(blocks, key)))
    ensures TileLives(step, p, q, blocks, key)
  {
    var chain := FollowIsLife(step, p.cells[key], Of(blocks, key));
    var t := Follow(step, p.cells[key], Of(blocks, key));
    assert Lives(step, Of(blocks, key), chain, p.cells[key], q.cells[key], t.pixels);
  }

  /**
   After a REGION every tile of the grid has gone through its own blocks in order, and the frame has
   gained exactly the tiles that one of them drew.
   */
  lemma RegionLeaves(screen: Screen, p: Progress, r: StreamRegion)
    requires RegionStep(screen, p, r).Some?
    ensures var q, step := RegionStep(screen, p, r).value, TileStep(RegionOf(screen, r), screen.gridFlag);
      && q.cells.Keys == p.cells.Keys
      && p.frame <= q.frame <= p.frame + p.cells.Keys
      && forall key <- p.cells :: TileLives(step, p, q, r.blocks, key)
  {
    var q, step := RegionStep(screen, p, r).value, TileStep(RegionOf(screen, r), screen.gridFlag);
    var d := OneByOne(step, p.cells, r.blocks);
    TilesAreIndependent(step, p.cells, r.blocks);
    forall key <- p.cells ensures TileLives(step, p, q, r.blocks, key) {
      TileLived(step, p, q, r.blocks, d, key);
    }
  }

  // ----- what a REGION hands its tiles ------------------------------------------------------

  /** The arguments a block of this REGION has: its tables, and the flag the payload is decoded with. */
  ghost predicate RegionAsks(screen: Screen, r: StreamRegion, block: Block, args: FirstArgs)
    requires !block.Upgrade?
  {
    && args.data == block.data && args.quantIdx == block.quantIdx && args.quality == QualityOf(block)
    && IndexesInto(r.quantVals, block.quantIdx, args.base)
    && QualityStandsFor(screen.codec.lossless, r.progVals, QualityOf(block), args.prog)
    && args.useReduceExtrapolate == screen.gridFlag
  }

  /** A first pass in a REGION is decoded with the REGION's tables and the payload's flag. */
  lemma FirstPassInRegion(screen: Screen, r: StreamRegion, cell: Cell, block: Block, start: TileState, args: FirstArgs)
    requires !block.Upgrade? && StartsFrom(screen.codec, screen.gridFlag, cell.slot, start)
    requires !(IsDifferenceBlock(block) && cell.reference.None?) && RegionAsks(screen, r, block, args)
    ensures FirstLeaves(screen.codec, start, args, IsDifferenceBlock(block), cell,
                        TileStep(RegionOf(screen, r), screen.gridFlag)(cell, block))
  {
    FirstPassMeaning(RegionOf(screen, r), screen.gridFlag, cell, block, start, args);
  }

  lemma UpgradeInRegion(screen: Screen, r: StreamRegion, cell: Cell, block: Block, start: TileState, args: UpgradeArgs)
    requires block.Upgrade? && StartsFrom(screen.codec, screen.gridFlag, cell.slot, start) && start.pass != 0
    requires args.srl == block.srl && args.raw == block.raw && args.quality == block.quality
    requires QualityStandsFor(screen.codec.lossless, r.progVals, block.quality, args.prog)
    ensures UpgradeLeaves(screen.codec, start, args, cell, TileStep(RegionOf(screen, r), screen.gridFlag)(cell, block))
  {
    UpgradeMeaning(RegionOf(screen, r), screen.gridFlag, cell, block, start, args);
  }

  // ----- the work limit ---------------------------------------------------------------------

  /** The rectangle covers a pixel of the surface. */
  ghost predicate Touches(r: WireRect, width: u16, height: u16) {
    exists px, py :: 0 <= px < width && 0 <= py < height && Holds(r, px, py)
  }

  lemma TouchesMeaning(r: WireRect, width: u16, height: u16)
    ensures Touches(r, width, height) <==> OnSurface(r, width, height).Some?
  {
    if OnSurface(r, width, height).Some? {
      var clipped := OnSurface(r, width, height).value;
      ClipKeepsPixels(r, width, height, clipped.left, clipped.top);
      assert Holds(r, clipped.left, clipped.top);
    }
    if px, py :| 0 <= px < width && 0 <= py < height && Holds(r, px, py) {
      ClipKeepsPixels(r, width, height, px, py);
    }
  }

  /** The visits for rectangle `i`: every rectangle of the union so far, and itself. */
  ghost function Visits(screen: Screen, rects: seq<WireRect>, i: nat): nat
    requires i < |rects|
  {
    if Touches(rects[i], screen.width, screen.height)
    then |Union(screen.ops, rects[..i], screen.width, screen.height)| + 1 else 0
  }

  ghost function AllVisits(screen: Screen, rects: seq<WireRect>, n: nat): nat
    requires n <= |rects|
  {
    if n == 0 then 0 else AllVisits(screen, rects, n - 1) + Visits(screen, rects, n - 1)
  }

  /** Building the clipping region costs its visits, one turn per rectangle that touches the surface. */
  lemma {:induction false} UnionWorkIsVisits(screen: Screen, rects: seq<WireRect>, n: nat)
    requires n <= |rects|
    ensures UnionWork(screen.ops, rects[..n], screen.width, screen.height) == AllVisits(screen, rects, n)
  {
    if n == 0 {
    } else {
      UnionWorkIsVisits(screen, rects, n - 1);
      TouchesMeaning(rects[n - 1], screen.width, screen.height);
      assert rects[..n][..n - 1] == rects[..n - 1];
    }
  }

  /** A REGION is refused exactly when some tile's own blocks go wrong, or its clipping passes the work limit. */
  lemma RegionRefused(screen: Screen, p: Progress, r: StreamRegion)
    ensures var step := TileStep(RegionOf(screen, r), screen.gridFlag);
      var frame := p.frame + OneByOne(step, p.cells, r.blocks).pixels.Keys;
      var clipping := Union(screen.ops, r.rects, screen.width, screen.height);
      RegionStep(screen, p, r).None? <==>
        || !AllRight(step, p.cells, r.blocks)
        || p.work + UnionWork(screen.ops, r.rects, screen.width, screen.height)
           + |frame| * (if clipping == [] then 1 else |clipping|) > 0x10_0000
  {
    TilesAreIndependent(TileStep(RegionOf(screen, r), screen.gridFlag), p.cells, r.blocks);
  }

  // ----- which REGIONs ----------------------------------------------------------------------

  /** A REGION between the first FrameBegin and the first FrameEnd. */
  ghost predicate IsActive(blocks: seq<StreamBlock>, i: nat)
    requires i < |blocks|
  {
    && blocks[i].RegionBlock?
    && (exists j: nat :: j < i && blocks[j] == FrameBegin)
    && (forall j: nat | j < i :: blocks[j] != FrameEnd)
  }

  ghost predicate Increasing(picked: seq<nat>) {
    forall a, b :: 0 <= a < b < |picked| ==> picked[a] < picked[b]
  }

  /** `picked` are the positions of exactly those REGIONs, in order. */
  ghost predicate PicksActive(blocks: seq<StreamBlock>, picked: seq<nat>) {
    && Increasing(picked)
    && (forall k :: 0 <= k < |picked| ==> picked[k] < |blocks| && IsActive(blocks, picked[k]))
    && (forall i: nat | i < |blocks| && IsActive(blocks, i) :: i in picked)
  }

  lemma {:induction false} SeenMeaning(blocks: seq<StreamBlock>, marker: StreamBlock)
    ensures Seen(blocks, marker) <==> exists j: nat :: j < |blocks| && blocks[j] == marker
  {
    if blocks == [] {
    } else {
      var n := |blocks| - 1;
      SeenMeaning(blocks[..n], marker);
      if j: nat :| j < |blocks| && blocks[j] == marker {
        assert j < n ==> blocks[..n][j] == marker;
      }
      if j: nat :| j < n && blocks[..n][j] == marker {
        assert blocks[j] == marker;
      }
    }
  }

  lemma ActiveStays(init: seq<StreamBlock>, last: StreamBlock, i: nat)
    requires i < |init|
    ensures IsActive(init + [last], i) <==> IsActive(init, i)
  {
    var blocks := init + [last];
    forall j: nat | j < i ensures blocks[j] == init[j] {}
    if IsActive(blocks, i) {
      var j: nat :| j < i && blocks[j] == FrameBegin;
      assert init[j] == FrameBegin;
    }
    if IsActive(init, i) {
      var j: nat :| j < i && init[j] == FrameBegin;
      assert blocks[j] == FrameBegin;
    }
  }

  lemma LastActive(init: seq<StreamBlock>, last: StreamBlock)
    ensures IsActive(init + [last], |init|) <==> last.RegionBlock? && Seen(init, FrameBegin) && !Seen(init, FrameEnd)
  {
    var blocks := init + [last];
    SeenMeaning(init, FrameBegin);
    SeenMeaning(init, FrameEnd);
    forall j: nat | j < |init| ensures blocks[j] == init[j] {}
    if Seen(init, FrameBegin) {
      var j: nat :| j < |init| && init[j] == FrameBegin;
      assert blocks[j] == FrameBegin;
    }
  }

  /** The decoded REGIONs of a payload are those of its first frame, in order. */
  lemma {:induction false} ActiveMeaning(blocks: seq<StreamBlock>) returns (picked: seq<nat>)
    ensures PicksActive(blocks, picked) && |picked| == |Active(blocks)|
    ensures forall k :: 0 <= k < |picked| ==> Active(blocks)[k] == blocks[picked[k]].region
  {
    if blocks == [] {
      picked := [];
    } else {
      var init, last := blocks[..|blocks| - 1], blocks[|blocks| - 1];
      var before := ActiveMeaning(init);
      assert blocks == init + [last];
      forall i: nat | i < |init| ensures IsActive(blocks, i) <==> IsActive(init, i) {
        ActiveStays(init, last, i);
      }
      LastActive(init, last);
      if IsActive(blocks, |init|) {
        picked := before + [|init|];
        assert picked[|before|] == |init|;
        forall i: nat | i < |blocks| && IsActive(blocks, i) ensures i in picked {
          assert i < |init| ==> i in before;
        }
      } else {
        picked := before;
      }
    }
  }
}
