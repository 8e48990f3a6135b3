/**
 One RFX Progressive payload: its REGIONs are decoded in turn, and after each one every tile of the
 frame that the REGION shows is emitted, whether this payload decoded it or an earlier one of the
 same frame did.
 */
module PayloadSpec {
  import opened Arithmetic
  import opened Clipping
  import opened Geometry
  import opened Prelude
  import opened ProgressiveTiles
  import opened RegionRounds
  import opened Tile
  import opened TileSchedule

  /** What stays the same during one payload. */
  datatype Screen = Screen(ops: RegionOps, codec: TileCodec, surface: u16, gridFlag: bool, width: u16, height: u16)

  datatype StreamRegion = StreamRegion(quantVals: seq<Quant>, progVals: seq<ProgQuant>, blocks: seq<Block>, rects: seq<WireRect>)

  datatype StreamBlock =
    | FrameBegin | FrameEnd | RegionBlock(region: StreamRegion) | ContextBlock(reduceExtrapolate: bool) | Other

  function RegionOf(screen: Screen, r: StreamRegion): Region {
    Region(screen.surface, screen.gridFlag, r.quantVals, r.progVals, screen.codec)
  }

  /** Whether a marker occurs among the blocks. */
  predicate Seen(blocks: seq<StreamBlock>, marker: StreamBlock) {
    blocks != [] && (blocks[|blocks| - 1] == marker || Seen(blocks[..|blocks| - 1], marker))
  }

  /** The REGIONs a payload decodes: those of its first frame. */
  function Active(blocks: seq<StreamBlock>): seq<StreamRegion> {
    if blocks == [] then []
    else
      var init, last := blocks[..|blocks| - 1], blocks[|blocks| - 1];
      Active(init) + if last.RegionBlock? && Seen(init, FrameBegin) && !Seen(init, FrameEnd) then [last.region] else []
  }

  // ----- tile order -------------------------------------------------------------------------

  predicate Less(a: Key, b: Key) {
    a.x < b.x || (a.x == b.x && a.y < b.y)
  }

  predicate IsLeast(keys: set<Key>, key: Key) {
    key in keys && forall other <- keys :: other == key || Less(key, other)
  }

  lemma {:induction false} LeastExists(keys: set<Key>)
    requires keys != {}
    ensures exists key :: IsLeast(keys, key)
    decreases |keys|
  {
    var key :| key in keys;
    if keys == {key} {
      assert IsLeast(keys, key);
    } else {
      LeastExists(keys - {key});
      var rest :| IsLeast(keys - {key}, rest);
      var least := if Less(rest, key) then rest else key;
      forall other <- keys ensures other == least || Less(least, other) {
        assert other == key || other in keys - {key};
      }
      assert IsLeast(keys, least);
    }
  }

  /** The keys in ascending order. */
  ghost function Sorted(keys: set<Key>): seq<Key>
    decreases |keys|
  {
    if keys == {} then [] else
      LeastExists(keys);
      var least :| IsLeast(keys, least);
      [least] + Sorted(keys - {least})
  }

  lemma SortedUnfolds(keys: set<Key>)
    requires keys != {}
    ensures IsLeast(keys, Sorted(keys)[0])
    ensures Sorted(keys) == [Sorted(keys)[0]] + Sorted(keys - {Sorted(keys)[0]})
  {
  }

  lemma {:induction false} SortedMeaning(keys: set<Key>)
    ensures |Sorted(keys)| == |keys|
    ensures forall key :: key in Sorted(keys) <==> key in keys
    ensures forall i, j :: 0 <= i < j < |Sorted(keys)| ==>
      var a, b := Sorted(keys)[i], Sorted(keys)[j]; a.x < b.x || (a.x == b.x && a.y < b.y)
    decreases |keys|
  {
    if keys == {} {
    } else {
      SortedUnfolds(keys);
      var least := Sorted(keys)[0];
      var rest := Sorted(keys - {least});
      SortedMeaning(keys - {least});
      forall j | 0 <= j < |rest| ensures Less(least, rest[j]) {
        assert rest[j] in keys - {least};
      }
    }
  }

  // ----- what a REGION shows ----------------------------------------------------------------

  function TileAt(screen: Screen, clipping: seq<Inclusive>, key: Key, pixels: seq<u8>): BgraTile {
    BgraTile(Point(key.x * TILE_SIZE, key.y * TILE_SIZE), Size(TILE_SIZE, TILE_SIZE), pixels,
             VisibleRects(screen.ops, clipping, key, screen.width, screen.height))
  }

  /** The tile of `key`, if the REGION shows any of it and it has a state. */
  ghost function Emits(screen: Screen, cells: Cells, clipping: seq<Inclusive>, key: Key): seq<BgraTile> {
    if VisibleRects(screen.ops, clipping, key, screen.width, screen.height) == [] then []
    else if key in cells && cells[key].slot.Some? then
      [TileAt(screen, clipping, key, screen.codec.render(cells[key].slot.value))]
    else []
  }

  ghost function Shown(screen: Screen, cells: Cells, clipping: seq<Inclusive>, keys: seq<Key>): seq<BgraTile> {
    if keys == [] then []
    else
      Shown(screen, cells, clipping, keys[..|keys| - 1]) + Emits(screen, cells, clipping, keys[|keys| - 1])
  }

  lemma ShownNext(screen: Screen, cells: Cells, clipping: seq<Inclusive>, keys: seq<Key>, key: Key)
    ensures Shown(screen, cells, clipping, keys + [key])
         == Shown(screen, cells, clipping, keys) + Emits(screen, cells, clipping, key)
  {
    assert (keys + [key])[..|keys|] == keys;
  }

  datatype Progress = Progress(cells: Cells, frame: set<Key>, out: seq<BgraTile>, work: nat)

  function TileWork(clipping: seq<Inclusive>): nat {
    Max(|clipping|, 1)
  }

  /** The work of visiting the frame's tiles once. */
  function ShowWork(tiles: nat, clipping: seq<Inclusive>): nat {
    MulNonNegative(tiles, TileWork(clipping));
    tiles * TileWork(clipping)
  }

  /** The progress after a REGION that decoded well, unless its clipping took too much work. */
  ghost function Shows(screen: Screen, p: Progress, d: Decoded, clipping: seq<Inclusive>, work: nat): Option<Progress> {
    var frame := p.frame + d.pixels.Keys;
    if work > MAX_REGION_CLIPPING_WORK then None
    else Some(Progress(d.cells, frame, p.out + Shown(screen, d.cells, clipping, Sorted(frame)), work))
  }

  ghost function RegionStep(screen: Screen, p: Progress, r: StreamRegion): Option<Progress> {
    var d := OneByOne(TileStep(RegionOf(screen, r), screen.gridFlag), p.cells, r.blocks);
    var clipping := Union(screen.ops, r.rects, screen.width, screen.height);
    if d.error.Some? then
      None
    else
      Shows(screen, p, d, clipping,
            p.work + UnionWork(screen.ops, r.rects, screen.width, screen.height)
            + ShowWork(|p.frame + d.pixels.Keys|, clipping))
  }

  /** Two charges in a row pass exactly when their sum does. */
  lemma ChargedTwice(screen: Screen, p: Progress, d: Decoded, clipping: seq<Inclusive>, a: nat, b: nat, used: Option<nat>)
    requires used == if Charge(p.work, a).Some? then Charge(p.work + a, b) else None
    ensures Shows(screen, p, d, clipping, p.work + a + b) ==
              if used.None? then None
              else Some(Progress(d.cells, p.frame + d.pixels.Keys,
                                 p.out + Shown(screen, d.cells, clipping, Sorted(p.frame + d.pixels.Keys)), used.value))
  {
  }

  /** All REGIONs of a payload in order; `None` as soon as one fails. */
  ghost function Payload(screen: Screen, p: Progress, regions: seq<StreamRegion>): Option<Progress> {
    if regions == [] then Some(p)
    else
      match Payload(screen, p, regions[..|regions| - 1])
      case None => None
      case Some(q) => RegionStep(screen, q, regions[|regions| - 1])
  }

  lemma PayloadNext(screen: Screen, p: Progress, regions: seq<StreamRegion>, r: StreamRegion)
    requires Payload(screen, p, regions).Some?
    ensures Payload(screen, p, regions + [r]) == RegionStep(screen, Payload(screen, p, regions).value, r)
  {
    assert (regions + [r])[..|regions|] == regions;
  }

  lemma {:induction false} PayloadFails(screen: Screen, p: Progress, regions: seq<StreamRegion>, n: nat)
    requires n <= |regions| && Payload(screen, p, regions[..n]).None?
    ensures Payload(screen, p, regions).None?
    decreases |regions|
  {
    if n < |regions| {
      assert regions[..|regions| - 1][..n] == regions[..n];
      PayloadFails(screen, p, regions[..|regions| - 1], n);
    } else {
      assert regions[..n] == regions;
    }
  }

  lemma ActiveNext(blocks: seq<StreamBlock>, i: nat)
    requires i < |blocks|
    ensures Active(blocks[..i + 1]) ==
              if blocks[i].RegionBlock? && Seen(blocks[..i], FrameBegin) && !Seen(blocks[..i], FrameEnd)
              then Active(blocks[..i]) + [blocks[i].region] else Active(blocks[..i])
    ensures Seen(blocks[..i + 1], FrameBegin) <==> Seen(blocks[..i], FrameBegin) || blocks[i] == FrameBegin
    ensures Seen(blocks[..i + 1], FrameEnd) <==> Seen(blocks[..i], FrameEnd) || blocks[i] == FrameEnd
  {
    assert blocks[..i + 1] == blocks[..i] + [blocks[i]] && blocks[..i + 1][..i] == blocks[..i];
  }

  lemma {:induction false} ActiveGrows(blocks: seq<StreamBlock>, n: nat)
    requires n <= |blocks|
    ensures Active(blocks[..n]) <= Active(blocks)
    decreases |blocks|
  {
    if n < |blocks| {
      assert blocks[..|blocks| - 1][..n] == blocks[..n];
      ActiveGrows(blocks[..|blocks| - 1], n);
    } else {
      assert blocks[..n] == blocks;
    }
  }

  /** A REGION that fails makes its whole payload fail. */
  lemma RegionFails(screen: Screen, p: Progress, blocks: seq<StreamBlock>, i: nat)
    requires i < |blocks| && Payload(screen, p, Active(blocks[..i + 1])).None?
    ensures Payload(screen, p, Active(blocks)).None?
  {
    ActiveGrows(blocks, i + 1);
    var n := |Active(blocks[..i + 1])|;
    assert Active(blocks)[..n] == Active(blocks[..i + 1]);
    PayloadFails(screen, p, Active(blocks), n);
  }

  /** The list of emitted tiles, read as a relation. */
  ghost predicate IsShown(screen: Screen, cells: Cells, clipping: seq<Inclusive>, keys: seq<Key>, tiles: seq<BgraTile>) {
    && (forall tile <- tiles :: exists key <- keys :: Emits(screen, cells, clipping, key) == [tile])
    && (forall key <- keys :: Emits(screen, cells, clipping, key) == [] || Emits(screen, cells, clipping, key)[0] in tiles)
  }

  lemma {:induction false} ShownMeaning(screen: Screen, cells: Cells, clipping: seq<Inclusive>, keys: seq<Key>)
    ensures IsShown(screen, cells, clipping, keys, Shown(screen, cells, clipping, keys))
  {
    if keys == [] {
    } else {
      var init, last := keys[..|keys| - 1], keys[|keys| - 1];
      ShownMeaning(screen, cells, clipping, init);
      assert keys == init + [last];
      var before, added := Shown(screen, cells, clipping, init), Emits(screen, cells, clipping, last);
      forall tile <- before + added ensures exists key <- keys :: Emits(screen, cells, clipping, key) == [tile] {
        if tile in before {
          var key :| key in init && Emits(screen, cells, clipping, key) == [tile];
          assert key in keys;
        } else {
          assert added == [tile] && last in keys;
        }
      }
      forall key <- keys
        ensures Emits(screen, cells, clipping, key) == [] || Emits(screen, cells, clipping, key)[0] in before + added
      {
        assert key in init || key == last;
      }
    }
  }

  ghost predicate CoversPixel(tile: BgraTile, px: int, py: int) {
    exists rect <- tile.updateRects :: rect.Covers(px, py)
  }

  ghost predicate ShowsPixel(tiles: seq<BgraTile>, px: int, py: int) {
    exists tile <- tiles :: CoversPixel(tile, px, py)
  }

  /** The pixel lies on the surface, in the REGION and in the tile of `key`, which has a state. */
  ghost predicate HasPixel(screen: Screen, cells: Cells, rects: seq<WireRect>, key: Key, px: int, py: int) {
    && px < screen.width && py < screen.height && InSome(rects, px, py)
    && InTile(key, px, py) && key in cells && cells[key].slot.Some?
  }

  lemma KeyPixels(screen: Screen, cells: Cells, rects: seq<WireRect>, key: Key, px: int, py: int)
    requires Exact(screen.ops) && screen.width <= MAX_SURFACE_DIM && screen.height <= MAX_SURFACE_DIM
    ensures ShowsPixel(Emits(screen, cells, Union(screen.ops, rects, screen.width, screen.height), key), px, py)
        <==> HasPixel(screen, cells, rects, key, px, py)
  {
    var tiles := Emits(screen, cells, Union(screen.ops, rects, screen.width, screen.height), key);
    VisiblePixels(screen.ops, rects, key, screen.width, screen.height, px, py);
    if tiles != [] {
      assert tiles[0] in tiles;
      assert ShowsPixel(tiles, px, py) <==> CoversPixel(tiles[0], px, py);
    }
  }

  /**
   A surface pixel is in an emitted tile's update rectangles exactly when the REGION covers it and
   its tile belongs to the frame and has a state; the pixels come from that state.
   */
  lemma EmittedPixels(screen: Screen, cells: Cells, rects: seq<WireRect>, frame: set<Key>, px: int, py: int)
    requires Exact(screen.ops) && screen.width <= MAX_SURFACE_DIM && screen.height <= MAX_SURFACE_DIM
    ensures var clipping := Union(screen.ops, rects, screen.width, screen.height);
            var tiles := Shown(screen, cells, clipping, Sorted(frame));
      ShowsPixel(tiles, px, py) <==> exists key <- frame :: HasPixel(screen, cells, rects, key, px, py)
  {
    var clipping := Union(screen.ops, rects, screen.width, screen.height);
    var keys := Sorted(frame);
    var tiles := Shown(screen, cells, clipping, keys);
    SortedMeaning(frame);
    ShownMeaning(screen, cells, clipping, keys);
    forall key ensures ShowsPixel(Emits(screen, cells, clipping, key), px, py)
                   <==> HasPixel(screen, cells, rects, key, px, py) {
      KeyPixels(screen, cells, rects, key, px, py);
    }
    if ShowsPixel(tiles, px, py) {
      var tile :| tile in tiles && CoversPixel(tile, px, py);
      var key :| key in keys && Emits(screen, cells, clipping, key) == [tile];
      assert ShowsPixel(Emits(screen, cells, clipping, key), px, py);
      assert HasPixel(screen, cells, rects, key, px, py) && key in frame;
    }
    if exists key <- frame :: HasPixel(screen, cells, rects, key, px, py) {
      var key :| key in frame && HasPixel(screen, cells, rects, key, px, py);
      assert key in keys && ShowsPixel(Emits(screen, cells, clipping, key), px, py);
      assert Emits(screen, cells, clipping, key)[0] in tiles;
    }
  }
}
