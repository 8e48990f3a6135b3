/**
 What a REGION's list of tile blocks means, and why the order across tiles does not matter.

 `OneByOne` is the reference: every block in list order. `TilesAreIndependent` reduces it to the
 life of each single tile, for any per-tile transition whatsoever.
 */
module TileSchedule {
  import opened Prelude
  import opened ProgressiveTiles

  type Cells = map<Key, Cell>
  type Transition = (Cell, Block) -> Stepped

  datatype Decoded = Decoded(cells: Cells, pixels: map<Key, seq<u8>>, error: Option<TileError>)

  /** The reference meaning of a REGION: every block in list order, stopping at the first error. */
  ghost function OneByOne(step: Transition, cells: Cells, blocks: seq<Block>): Decoded {
    if blocks == [] then
      Decoded(cells, map[], None)
    else
      Extend(step, OneByOne(step, cells, blocks[..|blocks| - 1]), blocks[|blocks| - 1])
  }

  ghost function Extend(step: Transition, d: Decoded, block: Block): Decoded {
    if d.error.Some? then
      d
    else if block.key !in d.cells then
      d.(error := Some(OutOfBounds(block.key)))
    else
      var s := step(d.cells[block.key], block);
      var after := d.cells[block.key := s.cell];
      match s.outcome
      case Drawn(px) => Decoded(after, d.pixels[block.key := px], None)
      case Passed => d.(cells := after)
      case Failed(e) => Decoded(after, d.pixels, Some(e))
  }

  /** The blocks addressed to one tile, in list order. */
  ghost function Of(blocks: seq<Block>, key: Key): seq<Block> {
    if blocks == [] then
      []
    else
      var before := Of(blocks[..|blocks| - 1], key);
      var block := blocks[|blocks| - 1];
      if block.key == key then before + [block] else before
  }

  datatype Trail = Trail(cell: Cell, pixels: Option<seq<u8>>, error: Option<TileError>)

  /** The life of one tile through its own blocks only. */
  ghost function Follow(step: Transition, cell: Cell, blocks: seq<Block>): Trail {
    if blocks == [] then
      Trail(cell, None, None)
    else
      Advance(step, Follow(step, cell, blocks[..|blocks| - 1]), blocks[|blocks| - 1])
  }

  ghost function Advance(step: Transition, t: Trail, block: Block): Trail {
    if t.error.Some? then
      t
    else
      var s := step(t.cell, block);
      match s.outcome
      case Drawn(px) => Trail(s.cell, Some(px), None)
      case Passed => t.(cell := s.cell)
      case Failed(e) => Trail(s.cell, t.pixels, Some(e))
  }

  lemma OfAppend(init: seq<Block>, block: Block, key: Key)
    ensures Of(init + [block], key) == if block.key == key then Of(init, key) + [block] else Of(init, key)
  {
    assert (init + [block])[..|init|] == init;
  }

  lemma FollowAppend(step: Transition, cell: Cell, init: seq<Block>, block: Block)
    ensures Follow(step, cell, init + [block]) == Advance(step, Follow(step, cell, init), block)
  {
    assert (init + [block])[..|init|] == init;
  }

  /** `d` is, tile by tile, what each tile's own blocks make of it. */
  ghost predicate TileByTile(step: Transition, cells: Cells, blocks: seq<Block>, d: Decoded) {
    && d.cells.Keys == cells.Keys
    && d.pixels.Keys <= cells.Keys
    && forall key <- cells :: Matches(d, key, Follow(step, cells[key], Of(blocks, key)))
  }

  ghost predicate Matches(d: Decoded, key: Key, t: Trail)
    requires key in d.cells
  {
    && t.error.None?
    && d.cells[key] == t.cell
    && t.pixels == if key in d.pixels then Some(d.pixels[key]) else None
  }

  /** A list of blocks goes wrong at a tile off the grid, or at one whose own blocks fail. */
  ghost predicate Wrong(step: Transition, cells: Cells, blocks: seq<Block>, key: Key) {
    && Of(blocks, key) != []
    && (key in cells ==> Follow(step, cells[key], Of(blocks, key)).error.Some?)
  }

  ghost predicate AllRight(step: Transition, cells: Cells, blocks: seq<Block>) {
    forall key :: !Wrong(step, cells, blocks, key)
  }

  lemma WrongStays(step: Transition, cells: Cells, init: seq<Block>, block: Block, key: Key)
    requires Wrong(step, cells, init, key)
    ensures Wrong(step, cells, init + [block], key)
  {
    OfAppend(init, block, key);
    if key in cells && block.key == key {
      FollowAppend(step, cells[key], Of(init, key), block);
    }
  }

  lemma Elsewhere(step: Transition, cells: Cells, init: seq<Block>, block: Block)
    requires AllRight(step, cells, init)
    ensures AllRight(step, cells, init + [block]) <==> !Wrong(step, cells, init + [block], block.key)
  {
    forall key | key != block.key
      ensures !Wrong(step, cells, init + [block], key)
    {
      OfAppend(init, block, key);
      assert !Wrong(step, cells, init, key);
    }
  }

  /** One more block, for the tile it addresses. */
  lemma ExtendAddressed(step: Transition, cell: Cell, own: seq<Block>, block: Block, d: Decoded)
    requires d.error.None? && block.key in d.cells && Matches(d, block.key, Follow(step, cell, own))
    ensures var after, t := Extend(step, d, block), Follow(step, cell, own + [block]);
      && (after.error.Some? <==> t.error.Some?)
      && (after.error.None? ==>
            && after.cells.Keys == d.cells.Keys && after.pixels.Keys <= d.pixels.Keys + {block.key}
            && Matches(after, block.key, t))
  {
    FollowAppend(step, cell, own, block);
    var s := step(d.cells[block.key], block);
    assert Follow(step, cell, own + [block]).cell == s.cell;
    match s.outcome {
      case Drawn(px) => assert Extend(step, d, block) == Decoded(d.cells[block.key := s.cell], d.pixels[block.key := px], None);
      case Passed => assert Extend(step, d, block) == d.(cells := d.cells[block.key := s.cell]);
      case Failed(_) =>
    }
  }

  /** One more block, for any other tile. */
  lemma ExtendElsewhere(step: Transition, d: Decoded, block: Block, key: Key, t: Trail)
    requires d.error.None? && block.key in d.cells && key in d.cells && key != block.key && Matches(d, key, t)
    requires Extend(step, d, block).error.None?
    ensures key in Extend(step, d, block).cells && Matches(Extend(step, d, block), key, t)
  {
  }

  lemma ExtendErrs(step: Transition, cells: Cells, init: seq<Block>, block: Block, d: Decoded)
    requires d.error.None? && TileByTile(step, cells, init, d)
    ensures Extend(step, d, block).error.Some? <==> Wrong(step, cells, init + [block], block.key)
  {
    OfAppend(init, block, block.key);
    if block.key in cells {
      ExtendAddressed(step, cells[block.key], Of(init, block.key), block, d);
    }
  }

  lemma ExtendOne(step: Transition, cells: Cells, init: seq<Block>, block: Block, d: Decoded, key: Key)
    requires d.error.None? && TileByTile(step, cells, init, d) && block.key in cells && key in cells
    requires Extend(step, d, block).error.None?
    ensures key in Extend(step, d, block).cells
    ensures Matches(Extend(step, d, block), key, Follow(step, cells[key], Of(init + [block], key)))
  {
    OfAppend(init, block, key);
    if key == block.key {
      ExtendAddressed(step, cells[key], Of(init, key), block, d);
    } else {
      ExtendElsewhere(step, d, block, key, Follow(step, cells[key], Of(init, key)));
    }
  }

  lemma ExtendAll(step: Transition, cells: Cells, init: seq<Block>, block: Block, d: Decoded, after: Decoded)
    requires d.error.None? && TileByTile(step, cells, init, d) && block.key in cells
    requires after == Extend(step, d, block) && after.error.None?
    ensures TileByTile(step, cells, init + [block], after)
  {
    ExtendAddressed(step, cells[block.key], Of(init, block.key), block, d);
    forall key <- cells
      ensures key in after.cells && Matches(after, key, Follow(step, cells[key], Of(init + [block], key)))
    {
      ExtendOne(step, cells, init, block, d, key);
    }
  }

  lemma ExtendMatches(step: Transition, cells: Cells, init: seq<Block>, block: Block, d: Decoded)
    requires d.error.None? && TileByTile(step, cells, init, d)
    ensures var after := Extend(step, d, block);
      && (after.error.Some? <==> Wrong(step, cells, init + [block], block.key))
      && (after.error.None? ==> TileByTile(step, cells, init + [block], after))
  {
    ExtendErrs(step, cells, init, block, d);
    if Extend(step, d, block).error.None? {
      ExtendAll(step, cells, init, block, d, Extend(step, d, block));
    }
  }

  /** Tiles do not influence each other: what a REGION does to a tile is what its own blocks do. */
  lemma {:induction false} TilesAreIndependent(step: Transition, cells: Cells, blocks: seq<Block>)
    ensures var d := OneByOne(step, cells, blocks);
      && (d.error.None? <==> AllRight(step, cells, blocks))
      && (d.error.None? ==> TileByTile(step, cells, blocks, d))
  {
    if blocks == [] {
    } else {
      var init, block := blocks[..|blocks| - 1], blocks[|blocks| - 1];
      assert blocks == init + [block];
      TilesAreIndependent(step, cells, init);
      var before := OneByOne(step, cells, init);
      if before.error.Some? {
        var key :| Wrong(step, cells, init, key);
        WrongStays(step, cells, init, block, key);
      } else {
        Elsewhere(step, cells, init, block);
        ExtendMatches(step, cells, init, block, before);
      }
    }
  }

  /** Reordering blocks across tiles changes nothing, as long as each tile keeps its own order. */
  lemma OnlyOwnOrderMatters(step: Transition, cells: Cells, a: seq<Block>, b: seq<Block>)
    requires forall key :: Of(a, key) == Of(b, key)
    ensures var da, db := OneByOne(step, cells, a), OneByOne(step, cells, b);
      && (da.error.None? <==> db.error.None?)
      && (da.error.None? ==> da == db)
  {
    TilesAreIndependent(step, cells, a);
    TilesAreIndependent(step, cells, b);
    var da, db := OneByOne(step, cells, a), OneByOne(step, cells, b);
    assert AllRight(step, cells, a) <==> AllRight(step, cells, b) by {
      forall key ensures Wrong(step, cells, a, key) <==> Wrong(step, cells, b, key) {
      }
    }
    if da.error.None? {
      forall key <- cells
        ensures da.cells[key] == db.cells[key]
        ensures key in da.pixels <==> key in db.pixels
        ensures key in da.pixels ==> da.pixels[key] == db.pixels[key]
      {
        assert Matches(da, key, Follow(step, cells[key], Of(a, key)));
        assert Matches(db, key, Follow(step, cells[key], Of(b, key)));
      }
      assert da.cells == db.cells;
      assert da.pixels == db.pixels;
    }
  }

  lemma ExtendPixels(step: Transition, d: Decoded, earlier: map<Key, seq<u8>>, block: Block)
    ensures Extend(step, d.(pixels := earlier + d.pixels), block)
         == var after := Extend(step, d, block); after.(pixels := earlier + after.pixels)
  {
    if d.error.None? && block.key in d.cells {
      var outcome := step(d.cells[block.key], block).outcome;
      if outcome.Drawn? {
        assert (earlier + d.pixels)[block.key := outcome.pixels] == earlier + d.pixels[block.key := outcome.pixels];
      }
    }
  }

  /** Decoding may stop between two blocks and go on later. */
  lemma {:induction false} OneByOneConcat(step: Transition, cells: Cells, a: seq<Block>, b: seq<Block>)
    requires OneByOne(step, cells, a).error.None?
    ensures var da := OneByOne(step, cells, a);
      var db := OneByOne(step, da.cells, b);
      OneByOne(step, cells, a + b) == db.(pixels := da.pixels + db.pixels)
  {
    var da := OneByOne(step, cells, a);
    if b == [] {
      assert a + b == a;
      assert da.pixels + map[] == da.pixels;
    } else {
      var init, last := b[..|b| - 1], b[|b| - 1];
      OneByOneConcat(step, cells, a, init);
      assert (a + b)[..|a + b| - 1] == a + init;
      ExtendPixels(step, OneByOne(step, da.cells, init), da.pixels, last);
    }
  }

  // ----- rounds -----------------------------------------------------------------------------

  ghost predicate DistinctKeys(blocks: seq<Block>) {
    forall i, j :: 0 <= i < j < |blocks| ==> blocks[i].key != blocks[j].key
  }

  ghost predicate Addressed(blocks: seq<Block>, key: Key) {
    exists i :: 0 <= i < |blocks| && blocks[i].key == key
  }

  lemma {:induction false} OfEmpty(blocks: seq<Block>, key: Key)
    ensures Of(blocks, key) == [] <==> !Addressed(blocks, key)
  {
    if blocks == [] {
    } else {
      var n := |blocks| - 1;
      OfEmpty(blocks[..n], key);
      assert Addressed(blocks, key) <==> Addressed(blocks[..n], key) || blocks[n].key == key by {
        if Addressed(blocks, key) {
          var i :| 0 <= i < |blocks| && blocks[i].key == key;
          assert i < n ==> blocks[..n][i].key == key;
        }
        if Addressed(blocks[..n], key) {
          var i :| 0 <= i < n && blocks[..n][i].key == key;
          assert blocks[i].key == key;
        }
      }
    }
  }

  lemma {:induction false} OfConcat(a: seq<Block>, b: seq<Block>, key: Key)
    ensures Of(a + b, key) == Of(a, key) + Of(b, key)
  {
    if b == [] {
      assert a + b == a;
    } else {
      OfConcat(a, b[..|b| - 1], key);
      assert (a + b)[..|a + b| - 1] == a + b[..|b| - 1];
    }
  }

  ghost function Flatten(rounds: seq<seq<Block>>): seq<Block> {
    if rounds == [] then [] else Flatten(rounds[..|rounds| - 1]) + rounds[|rounds| - 1]
  }

  /** The `n`-th element as a list of at most one. */
  function Nth(blocks: seq<Block>, n: nat): seq<Block> {
    if n < |blocks| then [blocks[n]] else []
  }

  /** Round `n` holds exactly the `n`-th occurrence of each tile. */
  ghost predicate IsSplit(rounds: seq<seq<Block>>, blocks: seq<Block>) {
    && (forall n :: 0 <= n < |rounds| ==> DistinctKeys(rounds[n]))
    && (forall n, key :: 0 <= n < |rounds| ==> Of(rounds[n], key) == Nth(Of(blocks, key), n))
    && (forall key :: |Of(blocks, key)| <= |rounds|)
  }

  lemma {:induction false} FlattenOf(rounds: seq<seq<Block>>, own: seq<Block>, key: Key)
    requires forall n :: 0 <= n < |rounds| ==> Of(rounds[n], key) == Nth(own, n)
    ensures Of(Flatten(rounds), key) == own[..Min(|rounds|, |own|)]
  {
    if rounds == [] {
    } else {
      var n := |rounds| - 1;
      assert forall m :: 0 <= m < n ==> rounds[..n][m] == rounds[m];
      FlattenOf(rounds[..n], own, key);
      OfConcat(Flatten(rounds[..n]), rounds[n], key);
      assert n < |own| ==> own[..n] + [own[n]] == own[..n + 1];
    }
  }

  /** A split only reorders across tiles. */
  lemma SplitKeepsOwnOrder(rounds: seq<seq<Block>>, blocks: seq<Block>)
    requires IsSplit(rounds, blocks)
    ensures forall key :: Of(Flatten(rounds), key) == Of(blocks, key)
  {
    forall key
      ensures Of(Flatten(rounds), key) == Of(blocks, key)
    {
      FlattenOf(rounds, Of(blocks, key), key);
      assert |Of(blocks, key)| <= |rounds|;
    }
  }

  lemma {:induction false} ErrorStays(step: Transition, cells: Cells, a: seq<Block>, b: seq<Block>)
    requires OneByOne(step, cells, a).error.Some?
    ensures OneByOne(step, cells, a + b).error.Some?
  {
    if b == [] {
      assert a + b == a;
    } else {
      ErrorStays(step, cells, a, b[..|b| - 1]);
      assert (a + b)[..|a + b| - 1] == a + b[..|b| - 1];
    }
  }

  lemma {:induction false} FlattenFails(step: Transition, cells: Cells, rounds: seq<seq<Block>>, n: nat)
    requires n <= |rounds| && OneByOne(step, cells, Flatten(rounds[..n])).error.Some?
    ensures OneByOne(step, cells, Flatten(rounds)).error.Some?
    decreases |rounds|
  {
    if n == |rounds| {
      assert rounds[..n] == rounds;
    } else {
      var m := |rounds| - 1;
      assert rounds[..m][..n] == rounds[..n];
      FlattenFails(step, cells, rounds[..m], n);
      ErrorStays(step, cells, Flatten(rounds[..m]), rounds[m]);
    }
  }

  /** Appends `block` to round `n`, opening that round when it is the next one. */
  function AddToRound(rounds: seq<seq<Block>>, n: nat, block: Block): seq<seq<Block>>
    requires n <= |rounds|
  {
    if n == |rounds| then rounds + [[block]] else rounds[n := rounds[n] + [block]]
  }

  lemma SplitStaysDistinct(round: seq<Block>, block: Block)
    requires DistinctKeys(round) && Of(round, block.key) == []
    ensures DistinctKeys(round + [block])
  {
    OfEmpty(round, block.key);
    forall i | 0 <= i < |round|
      ensures round[i].key != block.key
    {
      assert !Addressed(round, block.key);
    }
  }

  lemma NthGrows(round: seq<Block>, own: seq<Block>, block: Block, n: nat, m: nat, key: Key)
    requires Of(round, key) == Nth(own, m)
    requires key == block.key ==> n == |own|
    ensures Of(if m == n then round + [block] else round, key)
         == Nth(if key == block.key then own + [block] else own, m)
  {
    OfAppend(round, block, key);
  }

  lemma SplitGrows(rounds: seq<seq<Block>>, blocks: seq<Block>, block: Block)
    requires IsSplit(rounds, blocks)
    ensures |Of(blocks, block.key)| <= |rounds|
    ensures IsSplit(AddToRound(rounds, |Of(blocks, block.key)|, block), blocks + [block])
  {
    var n := |Of(blocks, block.key)|;
    assert n <= |rounds|;
    var after := AddToRound(rounds, n, block);
    forall m | 0 <= m < |after|
      ensures DistinctKeys(after[m])
    {
      if m == n && n < |rounds| {
        assert Of(rounds[n], block.key) == Nth(Of(blocks, block.key), n);
        SplitStaysDistinct(rounds[n], block);
      }
    }
    forall m, key | 0 <= m < |after|
      ensures Of(after[m], key) == Nth(Of(blocks + [block], key), m)
    {
      assert |Of(blocks, key)| <= |rounds|;
      OfAppend(blocks, block, key);
      var round := if m < |rounds| then rounds[m] else [];
      assert after[m] == if m == n then round + [block] else round;
      NthGrows(round, Of(blocks, key), block, n, m, key);
    }
    forall key
      ensures |Of(blocks + [block], key)| <= |after|
    {
      OfAppend(blocks, block, key);
      assert |Of(blocks, key)| <= |rounds|;
    }
  }

  /** `seen` counts the blocks of each tile. */
  ghost predicate Counts(seen: map<Key, nat>, blocks: seq<Block>) {
    forall key :: (if key in seen then seen[key] else 0) == |Of(blocks, key)|
  }

  lemma CountOneMore(seen: map<Key, nat>, blocks: seq<Block>, block: Block)
    requires Counts(seen, blocks)
    ensures Counts(seen[block.key := |Of(blocks, block.key)| + 1], blocks + [block])
  {
    forall key ensures |Of(blocks + [block], key)| == |Of(blocks, key)| + (if key == block.key then 1 else 0) {
      OfAppend(blocks, block, key);
    }
  }

  /** Appends one block to the round of its tile's next occurrence. */
  method PlaceBlock(before: seq<seq<Block>>, counted: map<Key, nat>, ghost blocks: seq<Block>, block: Block)
    returns (rounds: seq<seq<Block>>, seen: map<Key, nat>)
    requires IsSplit(before, blocks) && Counts(counted, blocks)
    ensures IsSplit(rounds, blocks + [block]) && Counts(seen, blocks + [block])
  {
    rounds, seen := before, counted;
    var n := if block.key in seen then seen[block.key] else 0;
    assert n == |Of(blocks, block.key)|;
    SplitGrows(rounds, blocks, block);
    CountOneMore(seen, blocks, block);
    if |rounds| <= n {
      rounds := rounds + [[]];
    }
    rounds := rounds[n := rounds[n] + [block]];
    assert [] + [block] == [block];
    assert rounds == AddToRound(before, n, block);
    seen := seen[block.key := n + 1];
  }

  /** Splits a REGION's blocks into rounds with one counter per tile. */
  method SplitRounds(blocks: seq<Block>) returns (rounds: seq<seq<Block>>)
    ensures IsSplit(rounds, blocks)
  {
    rounds := [];
    var seen: map<Key, nat> := map[];
    for i := 0 to |blocks|
      invariant IsSplit(rounds, blocks[..i]) && Counts(seen, blocks[..i])
    {
      assert blocks[..i + 1] == blocks[..i] + [blocks[i]];
      rounds, seen := PlaceBlock(rounds, seen, blocks[..i], blocks[i]);
    }
    assert blocks[..|blocks|] == blocks;
  }
}
