/**
 Which parts of a tile a REGION shows. The union and the intersection of rectangle lists belong to
 IronRDP; they are the two fields of `RegionOps`, and `Exact` is the contract they are used under.
 Clipping is charged against a work limit per payload.
 */
module Clipping {
  import opened Arithmetic
  import opened Geometry
  import opened Prelude
  import opened ProgressiveTiles

  const TILE_SIZE: u32 := 64
  const TILE_DIM: u16 := 64
  const U16_MAX: u16 := 0xFFFF
  /** Largest surface side. */
  const MAX_SURFACE_DIM: u16 := 32768
  const MAX_REGION_CLIPPING_WORK: nat := 0x10_0000

  /** A rectangle of a REGION as sent. */
  datatype WireRect = WireRect(x: u16, y: u16, width: u16, height: u16)

  /** Both ends belong to the rectangle. */
  datatype Inclusive = Inclusive(left: u16, top: u16, right: u16, bottom: u16) {
    ghost predicate Proper() {
      left <= right && top <= bottom
    }

    ghost predicate Has(px: int, py: int) {
      left <= px <= right && top <= py <= bottom
    }
  }

  datatype RegionOps = RegionOps(
    union: (seq<Inclusive>, Inclusive) -> seq<Inclusive>,
    intersect: (seq<Inclusive>, Inclusive) -> seq<Inclusive>)

  ghost predicate Covered(rects: seq<Inclusive>, px: int, py: int) {
    exists r <- rects :: r.Has(px, py)
  }

  /** Union and intersection are those of the pixel sets; an intersection lists no empty rectangle. */
  ghost predicate Exact(ops: RegionOps) {
    && (forall rects: seq<Inclusive>, r: Inclusive, px: int, py: int ::
          Covered(ops.union(rects, r), px, py) <==> Covered(rects, px, py) || r.Has(px, py))
    && (forall rects: seq<Inclusive>, r: Inclusive, px: int, py: int ::
          Covered(ops.intersect(rects, r), px, py) <==> Covered(rects, px, py) && r.Has(px, py))
    && (forall rects: seq<Inclusive>, r: Inclusive :: forall part <- ops.intersect(rects, r) :: part.Proper())
  }

  function SaturatingMul16(a: u16, b: u16): u16 {
    MulNonNegative(a, b);
    Min(a * b, U16_MAX)
  }

  function SaturatingAdd16(a: u16, b: u16): u16 {
    Min(a + b, U16_MAX)
  }

  /** A REGION rectangle clipped to the surface, if anything is left. */
  function OnSurface(r: WireRect, width: u16, height: u16): Option<Inclusive> {
    var left, top := Min(r.x, width), Min(r.y, height);
    var right := Min(SaturatingAdd16(r.x, r.width), width);
    var bottom := Min(SaturatingAdd16(r.y, r.height), height);
    if left < right && top < bottom then Some(Inclusive(left, top, right - 1, bottom - 1)) else None
  }

  /** The clipping region of a REGION, and the work it takes to build. */
  function Union(ops: RegionOps, rects: seq<WireRect>, width: u16, height: u16): seq<Inclusive> {
    if rects == [] then []
    else
      var before := Union(ops, rects[..|rects| - 1], width, height);
      match OnSurface(rects[|rects| - 1], width, height)
      case None => before
      case Some(r) => ops.union(before, r)
  }

  function UnionWork(ops: RegionOps, rects: seq<WireRect>, width: u16, height: u16): nat {
    if rects == [] then 0
    else
      var init := rects[..|rects| - 1];
      UnionWork(ops, init, width, height) +
      if OnSurface(rects[|rects| - 1], width, height).Some? then |Union(ops, init, width, height)| + 1 else 0
  }

  function Charge(work: nat, units: nat): Option<nat> {
    if work + units <= MAX_REGION_CLIPPING_WORK then Some(work + units) else None
  }

  lemma {:induction false} UnionWorkGrows(ops: RegionOps, rects: seq<WireRect>, width: u16, height: u16, n: nat)
    requires n <= |rects|
    ensures UnionWork(ops, rects[..n], width, height) <= UnionWork(ops, rects, width, height)
    decreases |rects|
  {
    if n < |rects| {
      UnionWorkGrows(ops, rects[..|rects| - 1], width, height, n);
      assert rects[..|rects| - 1][..n] == rects[..n];
    } else {
      assert rects[..n] == rects;
    }
  }

  /** Builds the clipping region, or stops when the work limit is passed. */
  method ClippingRegion(ops: RegionOps, rects: seq<WireRect>, width: u16, height: u16, work: nat)
    returns (clipping: seq<Inclusive>, used: Option<nat>)
    requires work <= MAX_REGION_CLIPPING_WORK
    ensures used == Charge(work, UnionWork(ops, rects, width, height))
    ensures used.Some? ==> clipping == Union(ops, rects, width, height)
  {
    clipping := [];
    var total := work;
    for i := 0 to |rects|
      invariant clipping == Union(ops, rects[..i], width, height)
      invariant total == work + UnionWork(ops, rects[..i], width, height) <= MAX_REGION_CLIPPING_WORK
    {
      assert rects[..i + 1][..i] == rects[..i];
      UnionWorkGrows(ops, rects, width, height, i + 1);
      var r := OnSurface(rects[i], width, height);
      if r.Some? {
        var charged := Charge(total, |clipping| + 1);
        if charged.None? {
          return clipping, None;
        }
        total := charged.value;
        clipping := ops.union(clipping, r.value);
      }
    }
    assert rects[..|rects|] == rects;
    used := Some(total);
  }

  /** What the clipping region covers: the surface pixels inside some rectangle of the REGION. */
  lemma {:induction false} UnionCovers(ops: RegionOps, rects: seq<WireRect>, width: u16, height: u16, px: int, py: int)
    requires Exact(ops)
    ensures Covered(Union(ops, rects, width, height), px, py)
        <==> 0 <= px < width && 0 <= py < height && InSome(rects, px, py)
  {
    if rects == [] {
    } else {
      var init, last := rects[..|rects| - 1], rects[|rects| - 1];
      UnionCovers(ops, init, width, height, px, py);
      InSomeSplits(init, last, px, py);
      assert rects == init + [last];
      ClipKeepsPixels(last, width, height, px, py);
    }
  }

  ghost predicate Holds(r: WireRect, px: int, py: int) {
    r.x <= px < r.x + r.width && r.y <= py < r.y + r.height
  }

  ghost predicate InSome(rects: seq<WireRect>, px: int, py: int) {
    exists r <- rects :: Holds(r, px, py)
  }

  lemma InSomeSplits(init: seq<WireRect>, last: WireRect, px: int, py: int)
    ensures InSome(init + [last], px, py) <==> InSome(init, px, py) || Holds(last, px, py)
  {
    if Holds(last, px, py) {
      assert last in init + [last];
    }
    if InSome(init, px, py) {
      var r :| r in init && Holds(r, px, py);
      assert r in init + [last];
    }
  }

  /** The 16-bit saturation of the wire rectangle's far edges loses no surface pixel. */
  lemma ClipKeepsPixels(r: WireRect, width: u16, height: u16, px: int, py: int)
    ensures OnSurface(r, width, height).Some? && OnSurface(r, width, height).value.Has(px, py)
        <==> 0 <= px < width && 0 <= py < height && Holds(r, px, py)
  {
  }

  // ----- one tile ---------------------------------------------------------------------------

  function ToRect(r: Inclusive): Rect
    requires r.left <= r.right + 1 && r.top <= r.bottom + 1
  {
    Rect(r.left, r.top, r.right + 1 - r.left, r.bottom + 1 - r.top)
  }

  /** The tile's own rectangle on the surface, if it lies there at all. */
  function TileOnSurface(key: Key, width: u16, height: u16): Option<Inclusive> {
    var left, top := SaturatingMul16(key.x, TILE_DIM), SaturatingMul16(key.y, TILE_DIM);
    var right := Min(SaturatingAdd16(left, TILE_DIM), width);
    var bottom := Min(SaturatingAdd16(top, TILE_DIM), height);
    if left >= right || top >= bottom then None else Some(Inclusive(left, top, right - 1, bottom - 1))
  }

  function Rects(parts: seq<Inclusive>): seq<Rect> {
    seq(|parts|, i requires 0 <= i < |parts| =>
      if parts[i].left <= parts[i].right + 1 && parts[i].top <= parts[i].bottom + 1
      then ToRect(parts[i]) else Rect(parts[i].left, parts[i].top, 0, 0))
  }

  function VisibleRects(ops: RegionOps, clipping: seq<Inclusive>, key: Key, width: u16, height: u16): seq<Rect> {
    match TileOnSurface(key, width, height)
    case None => []
    case Some(tile) => Rects(ops.intersect(clipping, tile))
  }

  ghost predicate InTile(key: Key, px: int, py: int) {
    key.x * TILE_DIM <= px < (key.x + 1) * TILE_DIM && key.y * TILE_DIM <= py < (key.y + 1) * TILE_DIM
  }

  lemma TileHas(key: Key, width: u16, height: u16, px: int, py: int)
    requires width <= MAX_SURFACE_DIM && height <= MAX_SURFACE_DIM
    ensures var tile := TileOnSurface(key, width, height);
      tile.Some? && tile.value.Has(px, py) <==> InTile(key, px, py) && px < width && py < height
  {
  }

  lemma RectsCover(parts: seq<Inclusive>, px: int, py: int)
    requires forall part <- parts :: part.Proper()
    ensures (exists rect <- Rects(parts) :: rect.Covers(px, py)) <==> Covered(parts, px, py)
    ensures forall rect <- Rects(parts) :: !rect.IsEmpty()
  {
    forall i | 0 <= i < |parts| ensures Rects(parts)[i] in Rects(parts) && parts[i] in parts
      && Rects(parts)[i] == ToRect(parts[i])
    {
      assert parts[i].Proper();
    }
    if Covered(parts, px, py) {
      var i :| 0 <= i < |parts| && parts[i].Has(px, py);
      assert Rects(parts)[i].Covers(px, py);
    }
    if exists rect <- Rects(parts) :: rect.Covers(px, py) {
      var i :| 0 <= i < |parts| && Rects(parts)[i].Covers(px, py);
      assert parts[i].Has(px, py);
    }
  }

  /**
   The rectangles of a tile cover exactly its pixels that are on the surface and in some rectangle
   of the REGION, and none of them is empty.
   */
  lemma VisiblePixels(ops: RegionOps, rects: seq<WireRect>, key: Key, width: u16, height: u16, px: int, py: int)
    requires Exact(ops) && width <= MAX_SURFACE_DIM && height <= MAX_SURFACE_DIM
    ensures var visible := VisibleRects(ops, Union(ops, rects, width, height), key, width, height);
      && ((exists rect <- visible :: rect.Covers(px, py)) <==>
          InTile(key, px, py) && px < width && py < height && InSome(rects, px, py))
      && (forall rect <- visible :: !rect.IsEmpty())
  {
    var clipping := Union(ops, rects, width, height);
    UnionCovers(ops, rects, width, height, px, py);
    TileHas(key, width, height, px, py);
    match TileOnSurface(key, width, height) {
      case None =>
      case Some(tile) =>
        RectsCover(ops.intersect(clipping, tile), px, py);
    }
  }

  // ----- the contract can be met ------------------------------------------------------------

  /** Rectangle lists without any merging: append for the union, pairwise for the intersection. */
  function Meet(rects: seq<Inclusive>, r: Inclusive): seq<Inclusive> {
    if rects == [] then []
    else
      var last := rects[|rects| - 1];
      var part := Inclusive(Max(last.left, r.left), Max(last.top, r.top), Min(last.right, r.right), Min(last.bottom, r.bottom));
      Meet(rects[..|rects| - 1], r) + if part.left <= part.right && part.top <= part.bottom then [part] else []
  }

  lemma AppendCovers(rects: seq<Inclusive>, r: Inclusive, px: int, py: int)
    ensures Covered(rects + [r], px, py) <==> Covered(rects, px, py) || r.Has(px, py)
  {
    assert r in rects + [r];
    forall q <- rects ensures q in rects + [r] {}
  }

  lemma {:induction false} MeetCovers(rects: seq<Inclusive>, r: Inclusive, px: int, py: int)
    ensures Covered(Meet(rects, r), px, py) <==> Covered(rects, px, py) && r.Has(px, py)
    ensures forall part <- Meet(rects, r) :: part.Proper()
  {
    if rects == [] {
    } else {
      var init, last := rects[..|rects| - 1], rects[|rects| - 1];
      MeetCovers(init, r, px, py);
      assert rects == init + [last];
      AppendCovers(init, last, px, py);
      var part := Inclusive(Max(last.left, r.left), Max(last.top, r.top), Min(last.right, r.right), Min(last.bottom, r.bottom));
      AppendCovers(Meet(init, r), part, px, py);
    }
  }

  lemma SomeOpsAreExact() returns (ops: RegionOps)
    ensures Exact(ops)
  {
    ops := RegionOps((rects: seq<Inclusive>, r) => rects + [r], Meet);
    forall rects: seq<Inclusive>, r: Inclusive, px: int, py: int
      ensures Covered(ops.union(rects, r), px, py) <==> Covered(rects, px, py) || r.Has(px, py)
      ensures Covered(ops.intersect(rects, r), px, py) <==> Covered(rects, px, py) && r.Has(px, py)
    {
      AppendCovers(rects, r, px, py);
      MeetCovers(rects, r, px, py);
    }
    forall rects: seq<Inclusive>, r: Inclusive
      ensures forall part <- ops.intersect(rects, r) :: part.Proper()
    {
      MeetCovers(rects, r, 0, 0);
    }
  }
}
