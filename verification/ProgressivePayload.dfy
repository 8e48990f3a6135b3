/** The decode loop, over the shared grid and the tiles of the current frame. */
module ProgressivePayload {
  import opened Arithmetic
  import opened Clipping
  import opened Geometry
  import opened PayloadSpec
  import opened Prelude
  import opened ProgressiveTiles
  import opened RegionDecoder
  import opened RegionRounds
  import opened Tile
  import opened TileSchedule

  /** A tile of the grid, `None` off the grid or without a state. */
  function GridGet(grid: TileGrid, key: Key): (slot: Option<TileState>)
    requires grid.Valid()
    reads grid
    ensures forall surface: u16 :: slot ==
              if key in grid.Cells(surface) then grid.Cells(surface)[key].slot else None
  {
    assert key in GridKeys(grid.tilesWide, grid.tilesHigh) <==> InGrid(key, grid.tilesWide, grid.tilesHigh);
    if key.x < grid.tilesWide && key.y < grid.tilesHigh then
      IndexRange(key.x, key.y, grid.tilesWide, grid.tilesHigh);
      grid.tiles[IndexOf(key, grid.tilesWide)]
    else
      None
  }

  /** Pixels decoded by this REGION are those of the stored states. */
  ghost predicate Fresh(screen: Screen, cells: Cells, pixels: map<Key, seq<u8>>) {
    forall key <- pixels :: key in cells && Settled(screen.codec, cells[key], pixels[key])
  }

  lemma OneLess(keys: nat, units: nat)
    requires keys > 0
    ensures keys * units == (keys - 1) * units + units && (keys - 1) * units >= 0
  {
    MulNonNegative(keys - 1, units);
  }

  lemma SameElsewhereTransitive(a: map<RefKey, Coeffs>, b: map<RefKey, Coeffs>, c: map<RefKey, Coeffs>,
                                surface: u16, wide: u16, high: u16)
    requires SameElsewhere(a, b, surface, wide, high) && SameElsewhere(b, c, surface, wide, high)
    ensures SameElsewhere(a, c, surface, wide, high)
  {
  }

  lemma KeepsItself(cells: Cells)
    ensures KeepsAll(cells, cells)
  {
  }

  lemma MoveOn(done: seq<Key>, key: Key, rest: seq<Key>, all: seq<Key>)
    requires done + ([key] + rest) == all
    ensures (done + [key]) + rest == all
  {
  }

  /** The next tile of an ordered walk. */
  method TakeLeast(left: set<Key>) returns (key: Key)
    requires left != {}
    ensures key in left && |left - {key}| == |left| - 1
    ensures Sorted(left) == [key] + Sorted(left - {key})
  {
    LeastExists(left);
    key :| IsLeast(left, key);
    assert IsLeast(left, Sorted(left)[0]);
  }

  class Context {
    const grid: TileGrid
    var frameTiles: set<Key>
    var frameActive: bool

    constructor (grid: TileGrid, frameTiles: set<Key>, frameActive: bool)
      ensures this.grid == grid && this.frameTiles == frameTiles && this.frameActive == frameActive
    {
      this.grid, this.frameTiles, this.frameActive := grid, frameTiles, frameActive;
    }

    /** Emits one tile if the REGION shows any of it; without fresh pixels it stays empty for now. */
    method ShowTile(screen: Screen, pixels: map<Key, seq<u8>>, clipping: seq<Inclusive>, ghost target: seq<BgraTile>,
                    drafts: seq<BgraTile>, pending: seq<(nat, Key)>, key: Key)
      returns (tiles: seq<BgraTile>, waiting: seq<(nat, Key)>)
      requires grid.Valid() && Fresh(screen, grid.Cells(screen.surface), pixels)
      requires Drafted(screen, target, drafts, pending, grid.Cells(screen.surface))
      ensures Drafted(screen, target + Emits(screen, grid.Cells(screen.surface), clipping, key), tiles, waiting,
                      grid.Cells(screen.surface))
    {
      tiles, waiting := drafts, pending;
      ghost var cells := grid.Cells(screen.surface);
      assert target + [] == target;
      var rects := VisibleRects(screen.ops, clipping, key, screen.width, screen.height);
      if rects != [] {
        if key in pixels {
          assert Settled(screen.codec, cells[key], pixels[key]);
          DraftFinished(screen, target, drafts, pending, cells, TileAt(screen, clipping, key, pixels[key]));
          tiles := tiles + [TileAt(screen, clipping, key, pixels[key])];
        } else if GridGet(grid, key).Some? {
          assert key in cells && cells[key].slot == GridGet(grid, key);
          DraftPending(screen, clipping, target, drafts, pending, cells, key);
          waiting := waiting + [(|tiles|, key)];
          tiles := tiles + [TileAt(screen, clipping, key, [])];
        }
      }
    }

    /** Charges for the next tile and emits it. */
    method ShowNext(screen: Screen, pixels: map<Key, seq<u8>>, clipping: seq<Inclusive>, total: nat, ghost done: seq<Key>,
                    left: set<Key>, drafts: seq<BgraTile>, pending: seq<(nat, Key)>)
      returns (charged: Option<nat>, key: Key, tiles: seq<BgraTile>, waiting: seq<(nat, Key)>)
      requires left != {} && grid.Valid() && Fresh(screen, grid.Cells(screen.surface), pixels)
      requires Drafted(screen, Shown(screen, grid.Cells(screen.surface), clipping, done), drafts, pending,
                       grid.Cells(screen.surface))
      ensures charged == Charge(total, TileWork(clipping))
      ensures key in left && |left - {key}| == |left| - 1 && Sorted(left) == [key] + Sorted(left - {key})
      ensures charged.Some? ==> Drafted(screen, Shown(screen, grid.Cells(screen.surface), clipping, done + [key]), tiles,
                                        waiting, grid.Cells(screen.surface))
    {
      charged := Charge(total, TileWork(clipping));
      key := TakeLeast(left);
      tiles, waiting := drafts, pending;
      if charged.None? {
        return;
      }
      ShownNext(screen, grid.Cells(screen.surface), clipping, done, key);
      tiles, waiting := ShowTile(screen, pixels, clipping, Shown(screen, grid.Cells(screen.surface), clipping, done),
                                 drafts, pending, key);
    }

    /**
     Emits the frame's tiles that a REGION shows, in key order. Tiles decoded by an earlier payload
     are left empty at first and rendered from their stored state afterwards.
     */
    method ShowTiles(screen: Screen, pixels: map<Key, seq<u8>>, clipping: seq<Inclusive>, work: nat)
      returns (tiles: seq<BgraTile>, used: Option<nat>)
      requires grid.Valid() && Fresh(screen, grid.Cells(screen.surface), pixels)
      requires work <= MAX_REGION_CLIPPING_WORK
      ensures used == Charge(work, ShowWork(|frameTiles|, clipping))
      ensures used.Some? ==> tiles == Shown(screen, grid.Cells(screen.surface), clipping, Sorted(frameTiles))
    {
      ghost var cells := grid.Cells(screen.surface);
      ghost var done: seq<Key> := [];
      var units := TileWork(clipping);
      var total: nat := work;
      var pending: seq<(nat, Key)> := [];
      tiles := [];
      var left := frameTiles;
      ghost var due := |left| * units;
      ghost var goal := work + due;
      while left != {}
        invariant done + Sorted(left) == Sorted(frameTiles)
        invariant due == |left| * units && total + due == goal && total <= MAX_REGION_CLIPPING_WORK
        invariant Drafted(screen, Shown(screen, cells, clipping, done), tiles, pending, cells)
        decreases |left|
      {
        OneLess(|left|, units);
        var charged, key;
        charged, key, tiles, pending := ShowNext(screen, pixels, clipping, total, done, left, tiles, pending);
        if charged.None? {
          return tiles, None;
        }
        total := charged.value;
        MoveOn(done, key, Sorted(left - {key}), Sorted(frameTiles));
        left := left - {key};
        due := due - units;
        done := done + [key];
      }
      assert done == Sorted(frameTiles);
      used := Some(total);
      tiles := Render(screen, clipping, Shown(screen, cells, clipping, done), tiles, pending);
    }

    /** Fills in the tiles that were left empty. */
    method Render(screen: Screen, clipping: seq<Inclusive>, ghost target: seq<BgraTile>,
                  drafts: seq<BgraTile>, pending: seq<(nat, Key)>)
      returns (tiles: seq<BgraTile>)
      requires grid.Valid() && Drafted(screen, target, drafts, pending, grid.Cells(screen.surface))
      ensures tiles == target
    {
      tiles := drafts;
      DraftMeaning(screen, target, drafts, pending, grid.Cells(screen.surface));
      for j := 0 to |pending|
        invariant |tiles| == |target|
        invariant forall i :: 0 <= i < |tiles| ==> tiles[i] == target[i].(data := tiles[i].data)
        invariant forall i :: 0 <= i < |tiles| ==>
                    tiles[i] == target[i] || exists k :: j <= k < |pending| && pending[k].0 == i
      {
        var (i, key) := pending[j];
        var slot := GridGet(grid, key);
        tiles := tiles[i := tiles[i].(data := if slot.Some? then screen.codec.render(slot.value) else [])];
      }
      assert forall i :: 0 <= i < |tiles| ==> tiles[i] == target[i];
    }

    /** Decodes one REGION and emits what it shows. */
    method DecodeRegion(screen: Screen, region: StreamRegion, out: seq<BgraTile>, work: nat)
      returns (shown: seq<BgraTile>, used: Option<nat>)
      requires grid.Valid() && grid.useReduceExtrapolate == screen.gridFlag && work <= MAX_REGION_CLIPPING_WORK
      modifies this`frameTiles, grid`tiles, grid`references
      ensures grid.Valid() && used.Some? ==> used.value <= MAX_REGION_CLIPPING_WORK
      ensures grid.Valid() && KeepsAll(old(grid.Cells(screen.surface)), grid.Cells(screen.surface))
      ensures SameElsewhere(old(grid.references), grid.references, screen.surface, grid.tilesWide, grid.tilesHigh)
      ensures old(frameTiles) <= frameTiles
      ensures var p := Progress(old(grid.Cells(screen.surface)), old(frameTiles), out, work);
        RegionStep(screen, p, region) ==
          if used.None? then None
          else Some(Progress(grid.Cells(screen.surface), frameTiles, shown, used.value))
    {
      shown := out;
      ghost var p := Progress(grid.Cells(screen.surface), frameTiles, out, work);
      var r := grid.DecodeRegionTiles(RegionOf(screen, region), region.blocks);
      if r.Err? {
        return shown, None;
      }
      frameTiles := frameTiles + r.value.Keys;
      ghost var d := OneByOne(TileStep(RegionOf(screen, region), screen.gridFlag), p.cells, region.blocks);
      var clipping, clipped := ClippingRegion(screen.ops, region.rects, screen.width, screen.height, work);
      var tiles := [];
      used := clipped;
      if clipped.Some? {
        tiles, used := ShowTiles(screen, r.value, clipping, clipped.value);
      }
      ghost var union := Union(screen.ops, region.rects, screen.width, screen.height);
      ChargedTwice(screen, p, d, union, UnionWork(screen.ops, region.rects, screen.width, screen.height),
                   ShowWork(|frameTiles|, union), used);
      if used.Some? {
        shown := out + tiles;
      }
    }

    /** One block of a payload whose blocks before `i` went well. */
    method DecodeBlock(screen: Screen, ghost start: Progress, ghost cells: Cells, ghost refs: map<RefKey, Coeffs>,
                       ghost blocks: seq<StreamBlock>, ghost i: nat, block: StreamBlock, inFrame: bool,
                       out: seq<BgraTile>, work: nat)
      returns (shown: seq<BgraTile>, used: Option<nat>)
      requires grid.Valid() && grid.useReduceExtrapolate == screen.gridFlag && work <= MAX_REGION_CLIPPING_WORK
      requires i < |blocks| && block == blocks[i] && inFrame == (Seen(blocks[..i], FrameBegin) && !Seen(blocks[..i], FrameEnd))
      requires KeepsAll(cells, grid.Cells(screen.surface))
      requires SameElsewhere(refs, grid.references, screen.surface, grid.tilesWide, grid.tilesHigh)
      requires Payload(screen, start, Active(blocks[..i])) == Some(Progress(grid.Cells(screen.surface), frameTiles, out, work))
      modifies this`frameTiles, grid`tiles, grid`references
      ensures grid.Valid() && KeepsAll(cells, grid.Cells(screen.surface))
      ensures SameElsewhere(refs, grid.references, screen.surface, grid.tilesWide, grid.tilesHigh)
      ensures used.Some? ==> used.value <= MAX_REGION_CLIPPING_WORK
      ensures old(frameTiles) <= frameTiles
      ensures Payload(screen, start, Active(blocks[..i + 1])) ==
                if used.None? then None
                else Some(Progress(grid.Cells(screen.surface), frameTiles, shown, used.value))
    {
      ActiveNext(blocks, i);
      if !(block.RegionBlock? && inFrame) {
        return out, Some(work);
      }
      PayloadNext(screen, start, Active(blocks[..i]), block.region);
      ghost var mid := grid.Cells(screen.surface);
      ghost var midRefs := grid.references;
      shown, used := DecodeRegion(screen, block.region, out, work);
      KeepsAllTransitive(cells, mid, grid.Cells(screen.surface));
      SameElsewhereTransitive(refs, midRefs, grid.references, screen.surface, grid.tilesWide, grid.tilesHigh);
    }

    /** The loop over the blocks of one payload. */
    method RunBlocks(screen: Screen, blocks: seq<StreamBlock>) returns (out: seq<BgraTile>, used: Option<nat>)
      requires grid.Valid() && grid.useReduceExtrapolate == screen.gridFlag
      modifies this`frameTiles, grid`tiles, grid`references
      ensures grid.Valid() && KeepsAll(old(grid.Cells(screen.surface)), grid.Cells(screen.surface))
      ensures SameElsewhere(old(grid.references), grid.references, screen.surface, grid.tilesWide, grid.tilesHigh)
      ensures old(frameTiles) <= frameTiles
      ensures used.Some? ==> used.value <= MAX_REGION_CLIPPING_WORK
      ensures Payload(screen, Progress(old(grid.Cells(screen.surface)), old(frameTiles), [], 0), Active(blocks)) ==
                if used.None? then None
                else Some(Progress(grid.Cells(screen.surface), frameTiles, out, used.value))
    {
      ghost var cells := grid.Cells(screen.surface);
      KeepsItself(cells);
      ghost var refs := grid.references;
      ghost var start := Progress(cells, frameTiles, [], 0);
      out := [];
      var work: nat := 0;
      var inFrame, frameEnded := false, false;
      for i := 0 to |blocks|
        invariant grid.Valid() && KeepsAll(cells, grid.Cells(screen.surface)) && work <= MAX_REGION_CLIPPING_WORK
        invariant SameElsewhere(refs, grid.references, screen.surface, grid.tilesWide, grid.tilesHigh)
        invariant old(frameTiles) <= frameTiles
        invariant inFrame == (Seen(blocks[..i], FrameBegin) && !Seen(blocks[..i], FrameEnd))
        invariant frameEnded == Seen(blocks[..i], FrameEnd)
        invariant Payload(screen, start, Active(blocks[..i]))
               == Some(Progress(grid.Cells(screen.surface), frameTiles, out, work))
      {
        ActiveNext(blocks, i);
        out, used := DecodeBlock(screen, start, cells, refs, blocks, i, blocks[i], inFrame, out, work);
        if used.None? {
          RegionFails(screen, start, blocks, i);
          return;
        }
        work := used.value;
        match blocks[i] {
          case FrameBegin =>
            if !frameEnded {
              inFrame := true;
            }
          case FrameEnd =>
            inFrame, frameEnded := false, true;
          case _ =>
        }
      }
      assert blocks[..|blocks|] == blocks;
      used := Some(work);
    }

    /**
     Decodes the blocks of one payload. Only the REGIONs of its first frame count; the result is
     that of handling them in order, and a failure leaves every earlier tile state in place.
     */
    method DecodeBlocks(screen: Screen, blocks: seq<StreamBlock>) returns (r: Option<seq<BgraTile>>)
      requires grid.Valid() && grid.useReduceExtrapolate == screen.gridFlag
      modifies this`frameTiles, grid`tiles, grid`references
      ensures grid.Valid() && KeepsAll(old(grid.Cells(screen.surface)), grid.Cells(screen.surface))
      ensures SameElsewhere(old(grid.references), grid.references, screen.surface, grid.tilesWide, grid.tilesHigh)
      ensures var start := Progress(old(grid.Cells(screen.surface)), if frameActive then old(frameTiles) else {}, [], 0);
        match Payload(screen, start, Active(blocks))
        case None => r.None? && start.frame <= frameTiles
        case Some(p) => r == Some(p.out) && grid.Cells(screen.surface) == p.cells && p.work <= MAX_REGION_CLIPPING_WORK
                        && frameTiles == if frameActive then p.frame else {}
    {
      ghost var cells := grid.Cells(screen.surface);
      if !frameActive {
        frameTiles := {};
      }
      assert grid.Cells(screen.surface) == cells;
      var out, used := RunBlocks(screen, blocks);
      if used.None? {
        return None;
      }
      ghost var decoded := grid.Cells(screen.surface);
      if !frameActive {
        frameTiles := {};
      }
      assert grid.Cells(screen.surface) == decoded;
      r := Some(out);
    }
  }

  /** `drafts` are the target tiles, except that the pending ones, listed in order, still lack their pixels. */
  ghost predicate Drafted(screen: Screen, target: seq<BgraTile>, drafts: seq<BgraTile>,
                          pending: seq<(nat, Key)>, cells: Cells)
  {
    if drafts == [] || target == [] then
      drafts == target == [] && pending == []
    else
      var n := |drafts| - 1;
      var want, have := target[|target| - 1], drafts[n];
      if pending != [] && pending[|pending| - 1].0 == n then
        && have == want.(data := have.data)
        && RendersTo(screen, cells, pending[|pending| - 1].1, want.data)
        && Drafted(screen, target[..|target| - 1], drafts[..n], pending[..|pending| - 1], cells)
      else
        have == want && Drafted(screen, target[..|target| - 1], drafts[..n], pending, cells)
  }

  ghost predicate RendersTo(screen: Screen, cells: Cells, key: Key, pixels: seq<u8>) {
    key in cells && cells[key].slot.Some? && screen.codec.render(cells[key].slot.value) == pixels
  }

  lemma DraftFinished(screen: Screen, target: seq<BgraTile>, drafts: seq<BgraTile>, pending: seq<(nat, Key)>,
                      cells: Cells, tile: BgraTile)
    requires Drafted(screen, target, drafts, pending, cells)
    ensures Drafted(screen, target + [tile], drafts + [tile], pending, cells)
  {
    DraftMeaning(screen, target, drafts, pending, cells);
    assert (target + [tile])[..|target|] == target && (drafts + [tile])[..|drafts|] == drafts;
  }

  lemma DraftPending(screen: Screen, clipping: seq<Inclusive>, target: seq<BgraTile>, drafts: seq<BgraTile>,
                     pending: seq<(nat, Key)>, cells: Cells, key: Key)
    requires Drafted(screen, target, drafts, pending, cells)
    requires key in cells && cells[key].slot.Some?
    ensures var px := screen.codec.render(cells[key].slot.value);
      Drafted(screen, target + [TileAt(screen, clipping, key, px)], drafts + [TileAt(screen, clipping, key, [])],
              pending + [(|drafts|, key)], cells)
  {
    var have, want := TileAt(screen, clipping, key, []), TileAt(screen, clipping, key, screen.codec.render(cells[key].slot.value));
    assert (target + [want])[..|target|] == target && (drafts + [have])[..|drafts|] == drafts;
    assert (pending + [(|drafts|, key)])[..|pending|] == pending;
  }

  /** Each draft is its target up to the pixels, and lacks those only if it is pending. */
  lemma {:induction false} DraftMeaning(screen: Screen, target: seq<BgraTile>, drafts: seq<BgraTile>,
                                        pending: seq<(nat, Key)>, cells: Cells)
    requires Drafted(screen, target, drafts, pending, cells)
    ensures |drafts| == |target|
    ensures forall i :: 0 <= i < |drafts| ==> drafts[i] == target[i].(data := drafts[i].data)
    ensures forall i :: 0 <= i < |drafts| ==> drafts[i] == target[i] || exists k :: 0 <= k < |pending| && pending[k].0 == i
    ensures forall k :: 0 <= k < |pending| ==>
              pending[k].0 < |target| && RendersTo(screen, cells, pending[k].1, target[pending[k].0].data)
  {
    if drafts == [] || target == [] {
    } else {
      var n, m := |drafts| - 1, |pending| - 1;
      if pending != [] && pending[m].0 == n {
        DraftMeaning(screen, target[..|target| - 1], drafts[..n], pending[..m], cells);
        forall i | 0 <= i < n && drafts[i] != target[i] ensures exists k :: 0 <= k < |pending| && pending[k].0 == i {
          assert drafts[..n][i] != target[..|target| - 1][i];
          var k :| 0 <= k < m && pending[..m][k].0 == i;
          assert pending[k].0 == i;
        }
        forall k | 0 <= k < m ensures pending[k].0 < |target| && RendersTo(screen, cells, pending[k].1, target[pending[k].0].data) {
          assert pending[..m][k] == pending[k];
        }
      } else {
        DraftMeaning(screen, target[..|target| - 1], drafts[..n], pending, cells);
        forall i | 0 <= i < n && drafts[i] != target[i] ensures exists k :: 0 <= k < |pending| && pending[k].0 == i {
          assert drafts[..n][i] != target[..|target| - 1][i];
        }
      }
    }
  }
}
