# Drift, verified

A Dafny model of the decision logic of Drift, an RDP client for macOS, with proofs of what that
logic promises. Each component appears in two forms: a specification made of datatypes and
functions (one step of the component), and, where the program updates state in place, a class whose
methods are proved equal to that specification. What the program promises over whole runs, for all
interleavings or for all inputs, is proved about the specification.

- **RFX Progressive decoding** (`ProgressiveTiles`, `TileMeaning`, `TileSchedule`, `RegionRounds`,
  `RegionDecoder`, `RegionMeaning`, `Clipping`, `PayloadSpec`, `PayloadPixels`, `ProgressivePayload`,
  `ProgressiveCodec`, `CodecMeaning`). A REGION's tiles are decoded in rounds of independent jobs over a
  flat grid; the result is that of decoding one by one, nothing is lost on any failure, a payload puts
  exactly the pixels it shows on the surface, and surfaces do not influence each other.
- **Tiles and surfaces** (`Geometry`, `Tile`). The copy of a tile onto a surface, byte for byte.
- **Graphics client** (`GfxSpec`, `GfxRuns`, `GfxHistory`, `GfxDrawing`, `GfxBlits`, `GfxCodec`,
  `GfxClient`, `Ack`). The client's book-keeping against a renderer that replays its calls and against
  the history of PDUs, what the drawing PDUs mean and which bytes they send, the splitting of payloads,
  what the progressive decoder remembers across a session, and the acknowledgement policy read off the
  history.
- **Keyboard** (`Keymap`, `Modifiers`, `KeyboardSpec`, `KeyboardRuns`, `KeyboardMenu`, `KeyboardTaps`,
  `KeyboardWire`, `KeyboardCaps`, `KeyboardText`, `Keyboard`). Reference counts against a remote
  keyboard that refuses double presses and stray releases, deferred Command keys, those the menu used
  and those tapped alone, the order in which combinations arrive, Caps Lock reports, lifted modifiers,
  and the text that arrives.
- **Clipboard** (`Utf16`, `ClipboardText`, `ClipboardWire`, `ClipboardFormats`, `ClipboardExchange`,
  `ClipboardSpec`, `ClipboardHistory`, `ClipboardRuns`, `ClipboardEchoes`, `ClipboardOff`,
  `ClipboardFetch`, `ClipboardSync`). Text conversion, what arrives of an offered item, echo prevention
  read off the history, coherence of the advertisement, and pairing of requests and answers by an
  observer of the wire.
- **Session windows** (`SessionSpec`, `SessionRuns`, `SessionHistory`, `SessionViews`,
  `SessionManager`). The manager's locked sections interleaved in every order.
- **Reconnect, layout, thumbnails** (`Backoff`, `Reconnect`, `Layout`, `Thumbnail`).

`Prelude` and `Arithmetic` hold what they share. Code the repository does not contain (the entropy
decoders, H.264 and image codecs, rectangle-list operations, view folding, the mixing function of the
random generator) appears as function-valued fields or parameters, and every statement holds for any
choice of them; the exceptions are the contract `Clipping.Exact` of the rectangle-list operations and
`GfxCodec.Drives`, which makes the client's progressive decoder the one of `ProgressiveCodec`;
`Clipping.SomeOpsAreExact` and `GfxCodec.SomeEnvironmentDrives` show that they can be met.

Verify with `dafny verify dfyconfig.toml`.

## Where the code and its documentation differ

- `crates/drift-clipboard/src/sync.rs:8-9` says that nothing is advertised before the server's first
  request. Gaining focus does not check for it: `ClipboardRuns.ListsBeforeReady` gives the exact
  condition and `ClipboardRuns.AdvertisesUnasked` a run.
- `crates/drift-clipboard/src/sync.rs:18-20` says that superseded requests are tracked so that answers
  pair up. A timeout forgets the request instead: `ClipboardFetch.OnlyTimeoutsUnpair` and
  `ClipboardFetch.LateAnswerIsMistaken`.
- `crates/drift-clipboard/src/sync.rs:11-13` says that changes made by our own writes are ignored. Only
  the last eight are remembered: `ClipboardHistory.OwnChangeIsIgnored` and
  `ClipboardHistory.OtherChangeIsTakenUp` give the exact condition and
  `ClipboardEchoes.NinthWriteForgetsTheFirst` a run. And only the change itself is ignored: the contents
  may be offered back later (`ClipboardEchoes.LocalIsOfferedExactly`,
  `ClipboardEchoes.WrittenImageIsOfferedBack`).
- `crates/drift-core/src/profile.rs:89` says that Off means no clipboard traffic. A fetch of a session
  out of focus is not given up: `ClipboardOff.OffGivesUpExactly` and `ClipboardOff.WrittenWhileOff`;
  without one the session is quiet (`ClipboardOff.OffIsQuiet`), but for the empty list it sends.
- `src-tauri/src/manager.rs:61-62` promises exactly one `session_ended` per session. Two overlapping
  opens of one window lose a session: `SessionRuns.EndedUnlessOverwritten` says exactly which sessions,
  `SessionViews.OverlappingOpensLoseASession` gives a run; without overlap the promise holds
  (`SessionRuns.EndedExactlyOnce`).
- `crates/drift-core/src/reconnect.rs:145` gives the ceiling as min(cap, base * 2^(attempt-1)). The
  factor is capped at 2^32 - 1: `Backoff.CeilingAgainstClosedForm` says exactly when the two agree,
  `Backoff.CeilingMissesClosedForm` gives a configuration where they do not, and
  `Backoff.DefaultMeetsClosedForm` shows that the default one is not affected.
- `crates/drift-codec/src/tile.rs:115-120` compares saturated edges:
  `Tile.ContainsIsExactWhen` says for which footprints that is exact, and `Tile.ContainsTooMuch` gives a
  rectangle that is wrongly accepted.

## Model

| member | source | states |
|---|---|---|
| RegionDecoder.TileGrid.DecodeRegionTiles | crates/drift-codec/src/progressive.rs:393-450 | Decoding a REGION in rounds succeeds exactly when decoding its blocks one by one in list order does, with the same grid, references and pixels; on success or failure no tile state or reference is lost; the lost-reference error never occurs; every returned tile shows its stored state and its reference is its own coefficients |
| TileSchedule.SplitRounds | crates/drift-codec/src/progressive.rs:399-411 | Round k holds the k-th block of each tile: keys are distinct inside a round, and a tile's blocks read round by round are its blocks in list order |
| TileSchedule.TilesAreIndependent | crates/drift-codec/src/progressive.rs:346-356 | For any per-tile transition, what a block list does is, tile by tile, what each tile's own blocks do; it fails exactly when some tile is off the grid or its own blocks fail |
| TileSchedule.OnlyOwnOrderMatters | crates/drift-codec/src/progressive.rs:399-411 | Two block lists with the same blocks per tile in the same order have the same outcome, and on success the same result |
| TileSchedule.OneByOneConcat | crates/drift-codec/src/progressive.rs:413-449 | Decoding one list after another is decoding their concatenation |
| TileSchedule.SplitKeepsOwnOrder | crates/drift-codec/src/progressive.rs:399-411 | Reading the rounds one after the other keeps every tile's own block order |
| RegionRounds.RoundIsOneByOne | crates/drift-codec/src/progressive.rs:414-447 | Taking a round's tiles out, running them as jobs and putting them back equals decoding that round's blocks one by one, both in success and in result |
| RegionRounds.PutBackKeepsAll | crates/drift-codec/src/progressive.rs:432-440 | Putting the jobs back restores every state and reference that was taken out, also after a failure |
| RegionRounds.TakeOutAccounts | crates/drift-codec/src/progressive.rs:417-426 | While tiles are out, every state and reference is in the shared maps or with a job, and a difference job always holds its reference |
| RegionRounds.DrawnTilesSettle | crates/drift-codec/src/progressive.rs:607-630 | After a successful REGION each drawn tile's pixels are those of its stored state and its reference equals its coefficients |
| ProgressiveTiles.StepFacts | crates/drift-codec/src/progressive.rs:593-631 | One block keeps every state and reference, never fails for a lost reference, and leaves a drawn tile settled |
| TileMeaning.FirstPassMeaning | crates/drift-codec/src/progressive.rs:593-630 | A first pass decodes the block's data from the tile's own or a blank state, with the table entry of each quant index and the quants of its quality byte (0xFF and TILE_SIMPLE are lossless); a difference block leaves each coefficient as its decoded value plus the reference's, held to 16 bits and unchanged where the reference is shorter, and marks the state; any other block leaves exactly what was decoded; the reference becomes the coefficients and the pixels are those of the state; a decoding error keeps the reference |
| TileMeaning.UpgradeMeaning | crates/drift-codec/src/progressive.rs:490-502 | An upgrade of a tile that had a first pass decodes its data under the quants of its quality byte and leaves exactly what was decoded |
| TileMeaning.UpgradeBeforeFirst | crates/drift-codec/src/progressive.rs:490-495 | An upgrade of a tile without a first pass does nothing but allocate it |
| TileMeaning.DifferenceNeedsReference | crates/drift-codec/src/progressive.rs:527-535 | A difference block without a retained reference is refused and changes nothing, not even an unallocated tile |
| TileMeaning.UnanswerableIsRefused | crates/drift-codec/src/progressive.rs:536-546 | Any other block without a table entry for an index or its quality is refused after the tile is allocated, and the refusal names the largest index or the quality |
| TileMeaning.EveryBlockIsCovered | crates/drift-codec/src/progressive.rs:454-558 | Those cases are all: a block has arguments exactly when the tables answer it |
| RegionMeaning.FirstPassInRegion | crates/drift-codec/src/progressive.rs:393-450 | In a REGION a first pass is decoded with that REGION's tables and the flag of the payload |
| RegionMeaning.UpgradeInRegion | crates/drift-codec/src/progressive.rs:490-502 | So is an upgrade |
| RegionMeaning.FollowIsLife | crates/drift-codec/src/progressive.rs:399-411 | A tile that follows its blocks without an error passes through them one by one, and shows the pixels of the last block that drew it |
| RegionMeaning.RegionLeaves | crates/drift-codec/src/progressive.rs:192-194 | After a REGION every tile of the grid has gone through its own blocks in order, and the frame has gained exactly the tiles that one of them drew |
| RegionMeaning.RegionRefused | crates/drift-codec/src/progressive.rs:192-199 | A REGION is refused exactly when some tile's own blocks go wrong or the visits of its clipping and of the frame's tiles pass 2^20 |
| RegionMeaning.UnionWorkIsVisits | crates/drift-codec/src/progressive.rs:291-309 | Building the clipping region costs, for each rectangle that covers a pixel of the surface, one visit and one for each rectangle so far |
| RegionMeaning.ActiveMeaning | crates/drift-codec/src/progressive.rs:175-190 | The decoded REGIONs of a payload are those after a FrameBegin and before the first FrameEnd, in order |
| RegionDecoder.IndexInverse | crates/drift-codec/src/progressive.rs:271-274 | Dividing a grid index by the grid width recovers the tile coordinates it was made from |
| RegionDecoder.IndexCover | crates/drift-codec/src/progressive.rs:271-274 | Every slot of the flat grid belongs to exactly one tile key |
| RegionDecoder.CellsDetermineGrid | crates/drift-codec/src/progressive.rs:271-278 | Equal tile cells mean equal grids and equal references of the surface |
| RegionDecoder.TileGrid.EnsureTileAt | crates/drift-codec/src/progressive.rs:561-570 | A missing tile is created blank with the grid's extrapolation flag; a present one is kept |
| RegionDecoder.TileGrid.FirstPassAt | crates/drift-codec/src/progressive.rs:520-558 | The reference check through the divided index is the check of the addressed tile; same order of checks, same side effect on the grid |
| RegionDecoder.TileGrid.PassAt | crates/drift-codec/src/progressive.rs:466-502 | A block becomes the pass, the skip or the refusal the per-tile transition prescribes |
| RegionDecoder.TileGrid.TakeTile | crates/drift-codec/src/progressive.rs:505-508 | A tile and its reference leave the shared maps together |
| RegionDecoder.TileGrid.PrepareInGrid | crates/drift-codec/src/progressive.rs:454-509 | Validating a block of the grid changes only its own cell, as the per-tile transition says |
| RegionDecoder.TileGrid.PrepareBlock | crates/drift-codec/src/progressive.rs:454-509 | Off the grid a block is refused and nothing changes; otherwise its tile is taken, skipped or refused |
| RegionDecoder.TileGrid.PutTile | crates/drift-codec/src/progressive.rs:432-440 | A job's tile and reference return to the cell they came from and to no other |
| RegionDecoder.TileGrid.PutTiles | crates/drift-codec/src/progressive.rs:432-440 | All jobs of a round are put back |
| RegionDecoder.TileGrid.PrepareRound | crates/drift-codec/src/progressive.rs:414-426 | A round's blocks are prepared in order up to the first refusal |
| RegionDecoder.TileGrid.DecodeRound | crates/drift-codec/src/progressive.rs:414-447 | One round equals decoding its blocks one by one and keeps every state and reference |
| RegionDecoder.RunJobs | crates/drift-codec/src/progressive.rs:427-431 | Every job runs once on its own state and reference |
| RegionDecoder.Collect | crates/drift-codec/src/progressive.rs:444-447 | The pixels of a round, or the error of the first job that failed |
| Clipping.ClippingRegion | crates/drift-codec/src/progressive.rs:291-309 | The clipping region is the union of the REGION's rectangles clipped to the surface; it fails exactly when the summed work passes the limit |
| Clipping.UnionCovers | crates/drift-codec/src/progressive.rs:291-309 | The clipping region covers exactly the surface pixels inside some REGION rectangle, saturated edges included |
| Clipping.VisiblePixels | crates/drift-codec/src/progressive.rs:312-333 | A tile's update rectangles are non-empty and cover exactly the pixels of the tile that are on the surface and in the REGION |
| Clipping.SomeOpsAreExact | crates/drift-codec/src/progressive.rs:303-322 | The contract asked of the foreign rectangle operations can be met |
| PayloadSpec.SortedMeaning | crates/drift-codec/src/progressive.rs:201-201 | The frame's tiles are visited in ascending key order, each once |
| PayloadSpec.ShownMeaning | crates/drift-codec/src/progressive.rs:200-222 | A REGION emits exactly the frame's tiles that it shows and that have a state, with the pixels of that state |
| PayloadSpec.EmittedPixels | crates/drift-codec/src/progressive.rs:197-222 | A pixel is in an emitted tile's update rectangles exactly when the REGION covers it and its tile is of the frame and has a state |
| PayloadPixels.ShownTilesFit | crates/drift-codec/src/progressive.rs:200-218 | Every emitted tile is a 64 by 64 square at its place with one pixel per position, and each of its non-empty update rectangles lies inside its footprint and the surface |
| PayloadPixels.RegionPixels | crates/drift-codec/src/progressive.rs:198-231 | Copying the tiles a REGION emits onto a surface of the screen's size gives every pixel it shows the bytes at ((y % 64) * 64 + x % 64) * 4 of the picture of tile (x / 64, y / 64), and leaves every other pixel alone |
| PayloadPixels.EveryPixelOfAPayload | crates/drift-codec/src/progressive.rs:173-236 | For a whole payload each pixel ends with the colour its tile had after the last REGION that shows it, and keeps its colour if none does |
| PayloadSpec.RegionFails | crates/drift-codec/src/progressive.rs:196-198 | A REGION that fails makes the whole payload fail |
| ProgressivePayload.Context.ShowTiles | crates/drift-codec/src/progressive.rs:200-230 | Tiles decoded now and tiles re-rendered afterwards come out alike, in key order, each with the pixels of its stored state; fails exactly when the clipping work passes the limit |
| ProgressivePayload.Context.Render | crates/drift-codec/src/progressive.rs:223-230 | Filling in the pending tiles yields the tiles that were meant |
| ProgressivePayload.Context.DecodeRegion | crates/drift-codec/src/progressive.rs:195-230 | One REGION: decode, extend the frame's tiles, emit what is shown; whatever fails, no state is lost and no frame tile forgotten |
| ProgressivePayload.Context.DecodeBlocks | crates/drift-codec/src/progressive.rs:166-237 | A payload is its first frame's REGIONs handled one by one; frame tiles live on exactly while an RDPGFX frame is active, also through a failure; work stays within 2^20 |
| ProgressiveCodec.Decoder.Decode | crates/drift-codec/src/progressive.rs:119-237 | One payload: refused for its size, its stream or a missing flag, or exactly the outcome of its blocks from its context's grid (blank after a resize), its surface's references and the frame's tiles. Whatever happens, nothing of that starting point is lost, references outside the grid and everything of other surfaces and contexts stay, and a failure keeps the tiles the frame had |
| ProgressiveCodec.Decoder.DecodeInto | crates/drift-codec/src/progressive.rs:152-237 | Grid and frame tiles are taken as the resize rule says; grid, references and frame tiles are stored whatever the outcome, after a failure at least the frame's earlier tiles |
| ProgressiveCodec.Decoder.DecodeOn | crates/drift-codec/src/progressive.rs:152-237 | The decode on a context's grid |
| ProgressiveCodec.Decoder.DeleteSurface | crates/drift-codec/src/progressive.rs:247-252 | Nothing of a deleted surface is left, and nothing else is gone |
| ProgressiveCodec.Decoder.DeleteContext | crates/drift-codec/src/progressive.rs:240-243 | A deleted context is gone with its frame tiles; nothing else changes |
| ProgressiveCodec.NothingInherited | crates/drift-codec/src/progressive.rs:245-252 | A surface that reuses the id of a deleted one inherits nothing: over every run of operations since the deletion without a payload of its own, its first payload does what it does in a new decoder |
| CodecMeaning.SignalledMeaning | crates/drift-codec/src/progressive.rs:140-143 | The flag a payload signals is that of its first CONTEXT block |
| CodecMeaning.FlagOrder | crates/drift-codec/src/progressive.rs:140-150 | A payload is decoded with its own flag, else with its context's, else with the one its surface announced last, and without any it is refused |
| CodecMeaning.AnnouncedFlagIsUsed | crates/drift-codec/src/progressive.rs:144-166 | The flag a payload was decoded with stays its context's, and an announced one serves every context the surface opens afterwards |
| CodecMeaning.GridCovers | crates/drift-codec/src/progressive.rs:161-165 | The grid has a tile for every pixel of the surface and none outside it |
| CodecMeaning.StartMeaning | crates/drift-codec/src/progressive.rs:152-171 | A payload starts from its context's tiles when the grid still has the size its surface needs and from blank ones otherwise, from the surface's references in any case, and inside a frame from its tiles unless the grid was replaced |
| ProgressiveCodec.AbsentStays | crates/drift-codec/src/progressive.rs:98-259 | Only a payload of a surface itself brings anything of it into the decoder |
| GfxCodec.DecoderKnowsOnlyLiveSurfaces | crates/drift-gfx/src/client.rs:143-249 | Over every PDU sequence the progressive decoder holds contexts, references, flags and, during a frame, frame tiles only of surfaces live in the client |
| GfxCodec.CreatedSurfaceStartsNew | crates/drift-gfx/src/client.rs:152-159 | After any session a created surface, whatever its id was used for, has its first progressive payload decoded as in a new decoder |
| GfxCodec.FramesAreFollowed | crates/drift-gfx/src/client.rs:178-183 | Over every session the decoder is inside a frame exactly when a frame was started and neither ended nor reset since |
| GfxCodec.DroppedFromDecoder | crates/drift-gfx/src/client.rs:178-197 | A deleted codec context is gone from the decoder with its frame tiles while the references stay, and a frame starts and ends without tiles |
| GfxCodec.HandleKeepsUnknown | crates/drift-gfx/src/client.rs:143-208 | A PDU brings nothing of a surface into the decoder unless it is a progressive payload for that surface and the surface is live |
| GfxCodec.SomeEnvironmentDrives | crates/drift-gfx/src/client.rs:143-208 | The hypothesis linking client and decoder can be met |
| ProgressiveCodec.SurfacesDoNotInterfere | crates/drift-codec/src/progressive.rs:63-70 | Whatever a decode for one surface did, the outcome of any payload for another surface is the same before and after |
| Tile.BlitsAreBacked | crates/drift-codec/src/tile.rs:59-73 | Every blit has a non-empty rectangle inside the tile's footprint and enough data behind it |
| Tile.BlitInto | crates/drift-codec/src/tile.rs:77-95 | Every byte of the surface afterwards: the tile's byte for that pixel if some blit paints it, otherwise the old byte, for any overlap of rectangles; nothing is read or written out of range |
| Tile.ContainsExactly | crates/drift-codec/src/tile.rs:115-120 | Which rectangles the comparison of saturated edges accepts |
| Tile.ContainsTooMuch | crates/drift-codec/src/tile.rs:115-120 | Counterexample: a rectangle that is accepted although it reaches beyond the footprint |
| Tile.ContainsIsExactWhen | crates/drift-codec/src/tile.rs:115-120 | The comparison is exact for every inner rectangle exactly when each far edge of the footprint is below 2^32 - 1 or as far out as any rectangle reaches |
| Tile.ExactlyTheVisiblePixels | crates/drift-codec/src/tile.rs:59-95 | On a correctly sized surface a rectangle paints exactly its pixels inside footprint and surface, whenever it is non-empty and truly inside the footprint |
| Tile.PaintRow | crates/drift-codec/src/tile.rs:84-92 | One row is copied to its place and nothing else changes |
| Tile.PaintRect | crates/drift-codec/src/tile.rs:77-95 | One rectangle paints exactly its visible pixels |
| Geometry.FitsWithinIsInside | crates/drift-core/src/geometry.rs:71-93 | The saturating bounds test is exact on every surface narrower and lower than 2^32 - 1 |
| Geometry.FromLtrb | crates/drift-core/src/geometry.rs:66-68 | A rectangle exists exactly when no edge is inverted, and has the edges asked for |
| GfxRuns.EverySessionIsMirrored | crates/drift-gfx/src/client.rs:143-208 | Over every PDU sequence the renderer, replaying the sink calls, accepts each of them (live surface, occupied slot, all rectangles inside) and holds exactly the client's surfaces and cache sizes |
| GfxHistory.SurfacesAreHistory | crates/drift-gfx/src/client.rs:151-164 | Over every session a surface is live exactly when a PDU with a non-empty size asked for it and none ended it since, with the size and format of the first such PDU |
| GfxHistory.CacheIsHistory | crates/drift-gfx/src/client.rs:276-292 | Over every session a cache slot is occupied exactly when a PDU stored into it from inside a live surface and none emptied it since, with the size of the last such rectangle |
| GfxHistory.NoticesAreHistory | crates/drift-gfx/src/client.rs:151-183 | Over every session the renderer is told, in the order of the PDUs, of every reset, every surface created, deleted or placed, and every ended frame, and of nothing else of the kind |
| GfxHistory.FramesAreHistory | crates/drift-gfx/src/client.rs:146-183 | The ended frames, the output size and the confirmed capabilities are those of the session's PDUs |
| GfxRuns.HandleMirrored | crates/drift-gfx/src/client.rs:143-208 | One PDU: the renderer follows, or nothing reaches it and no surface or slot changes |
| GfxRuns.PayloadSplits | crates/drift-gfx/src/client.rs:116-137 | Whole PDUs back to back are split exactly at their declared lengths, whatever follows them |
| GfxRuns.PayloadPrefix | crates/drift-gfx/src/client.rs:116-137 | Any payload is some framed PDUs that succeed and then nothing or a failure; after a failure calls, surfaces and cache are as after those PDUs |
| GfxHistory.LengthIsLittleEndian | crates/drift-gfx/src/client.rs:117-123 | The length of a PDU is bytes 4 to 7 of its header, least significant first |
| GfxRuns.ClientIsCareful | crates/drift-gfx/src/client.rs:132-134 | The client's own PDU handling meets the hypothesis of the payload lemmas |
| GfxRuns.ClipAllPixels | crates/drift-gfx/src/state.rs:113-118 | Clipping a list of rectangles keeps exactly the requested pixels that lie on the surface |
| GfxDrawing.FillMeaning | crates/drift-gfx/src/client.rs:250-264 | A solid fill succeeds exactly on a live surface with no inverted rectangle, changes no book-keeping, and fills exactly the requested pixels of the surface with the colour the surface's format stores |
| GfxDrawing.CopyMeaning | crates/drift-gfx/src/client.rs:266-274 | A copy succeeds exactly when both surfaces live, the rectangle lies in the source and the image fits at every point; it copies that rectangle to those points in their order |
| GfxBlits.Wire2Meaning | crates/drift-gfx/src/client.rs:340-349 | A progressive payload succeeds exactly on a live surface whose decoder accepts it; for each decoded tile in order there is one blit per update rectangle that is drawable and inside the surface, naming that surface and rectangle and holding the tile's byte for each of its pixels, and no other call |
| GfxBlits.BitmapMeaning | crates/drift-gfx/src/client.rs:311-338 | A bitmap inside its live surface goes to the codec its type names, with the destination, the data and, uncompressed, the pixel format; the decoded tile is drawn in the same way, and nothing else is |
| GfxBlits.BitmapRefused | crates/drift-gfx/src/client.rs:311-336 | Any other bitmap is refused before a codec sees it, with the error of the first check that fails |
| GfxBlits.PictureMeaning | crates/drift-gfx/src/client.rs:353-369 | An AVC420 picture is decoded whenever its stream and rectangles are in order, wanted or not, and a shown one is drawn on exactly the requested pixels that lie on the surface |
| GfxDrawing.StoredThenDrawn | crates/drift-gfx/src/client.rs:276-291 | What is stored in a cache slot is drawn with the stored size, exactly when it fits at every point |
| GfxDrawing.DestinationsMeaning | crates/drift-gfx/src/client.rs:294-309 | Destinations are accepted exactly when the image fits at each in exact arithmetic, and come out as sent |
| GfxDrawing.ClipAllAccepts | crates/drift-gfx/src/client.rs:253-257 | A list of rectangles is refused exactly when one is inverted |
| GfxSpec.Clip | crates/drift-gfx/src/state.rs:113-118 | The clipped rectangle is inside the surface, non-empty, and covers exactly the common pixels |
| GfxClient.ClipRects | crates/drift-gfx/src/client.rs:250-264 | A list of rectangles is clipped as a whole or refused for an inverted one |
| GfxClient.CheckDestinations | crates/drift-gfx/src/client.rs:294-309 | Destinations are accepted exactly when the image fits at each of them |
| GfxClient.Graphics.Create | crates/drift-gfx/src/state.rs:40-50 | A surface is created unless it is empty or its id is live; only then is the sink called |
| GfxClient.Graphics.Delete | crates/drift-gfx/src/client.rs:160-165 | Deleting an unknown surface does nothing; a known one leaves state, codecs and sink together |
| GfxClient.Graphics.Fill | crates/drift-gfx/src/client.rs:250-264 | A solid fill reaches the sink with the clipped rectangles |
| GfxClient.Graphics.Copy | crates/drift-gfx/src/client.rs:266-274 | A copy between surfaces checks both and every destination before the sink sees it |
| GfxClient.Graphics.ToCache | crates/drift-gfx/src/client.rs:276-283 | A cache store checks slot, surface and rectangle, then remembers the size |
| GfxClient.Graphics.FromCache | crates/drift-gfx/src/client.rs:285-291 | A cache draw needs an occupied slot and fitting destinations |
| GfxClient.Graphics.Evict | crates/drift-gfx/src/state.rs:83-86 | Evicting empties the slot; the sink hears of it only if it was occupied |
| GfxClient.Graphics.BlitTile | crates/drift-gfx/src/client.rs:371-379 | A tile's blits reach the sink in order, those that fit the surface |
| GfxClient.Graphics.Avc | crates/drift-gfx/src/client.rs:353-369 | An H.264 picture is decoded even when nothing of it is visible, and shown only where it is |
| GfxClient.Graphics.Wire1 | crates/drift-gfx/src/client.rs:311-338 | WireToSurface1 by codec, with the checks in the code's order |
| GfxClient.Graphics.Wire2 | crates/drift-gfx/src/client.rs:340-349 | WireToSurface2 draws every tile of the progressive payload |
| GfxClient.Graphics.HandlePdu | crates/drift-gfx/src/client.rs:143-208 | Each PDU does to state, sink and error what the specification says; only EndFrame touches the acknowledgements |
| GfxClient.Graphics.ProcessPayload | crates/drift-gfx/src/client.rs:116-137 | The loop over a payload equals the recursive splitting, for every input; the outbox has seen the end of each frame the payload ended, in order, and nothing else |
| Ack.RunsPayWhatIsOwed | crates/drift-gfx/src/ack.rs:78-140 | Over every interleaving: frames in flight are those ended minus those presented, and what was drained plus what is queued is exactly what the history owes, in presentation order |
| Ack.OutstandingCount | crates/drift-gfx/src/ack.rs:94-102 | The frames whose callback has not run are as many as ended minus presented |
| Ack.OwedSplit | crates/drift-gfx/src/ack.rs:118-140 | What is owed over two periods is what is owed over the first and then over the second |
| Ack.VisiblePeriod | crates/drift-gfx/src/ack.rs:118-140 | While visible every presented frame gets exactly one acknowledgement, in order, never a Suspend |
| Ack.DueMeaning | crates/drift-gfx/src/ack.rs:118-140 | A visible frame is acknowledged with its own number, the frames ended so far modulo 2^32, and the number still outstanding, or as unavailable when none is |
| Ack.HiddenPeriod | crates/drift-gfx/src/ack.rs:110-140 | A hidden period yields one Suspend, on its first presented frame, and nothing else |
| Ack.AckOutbox.EndFrame | crates/drift-gfx/src/ack.rs:94-102 | Counts a frame in flight (saturating) and decoded (wrapping) |
| Ack.AckOutbox.Present | crates/drift-gfx/src/ack.rs:118-140 | Queues the acknowledgement the policy prescribes |
| KeyboardRuns.EveryRunIsFaithful | crates/drift-input/src/keyboard.rs:96-207 | Over every run the remote accepts the whole event stream (no double press, no stray release) and its pressed set is the recorded one; each count is the held keys and sent modifiers on that scancode, at most 135, so the 8-bit count never saturates |
| KeyboardRuns.StepGood | crates/drift-input/src/keyboard.rs:96-207 | Every input keeps that balance |
| KeyboardRuns.FewHolders | crates/drift-input/src/keyboard.rs:280-296 | No scancode has more than 135 holders |
| KeyboardRuns.ModifiersFollowFlags | crates/drift-input/src/keyboard.rs:228-266 | After a modifier update exactly the keys the flags stand for are held; each held non-Command key has a press the remote knows, each held Command key is deferred or pressed, never both |
| KeyboardRuns.KeyDownPresses | crates/drift-input/src/keyboard.rs:120-133 | A key press is recorded with its scancode, reaches the remote, and flushes every deferred Command key |
| KeyboardRuns.KeyUpReleases | crates/drift-input/src/keyboard.rs:136-142 | A key release is forgotten and reaches the remote exactly when nothing else holds the scancode |
| KeyboardRuns.InsertTextGood | crates/drift-input/src/keyboard.rs:147-158 | The remote, which refuses a character while Shift, Alt or AltGr is down and two overlapping presses of a unit, accepts all inserted text, and its pressed keys are the same afterwards |
| KeyboardText.TypedTextArrives | crates/drift-input/src/unicode.rs:46-56 | The Unicode units the remote receives for inserted text decode to exactly that text without control and function-key characters |
| KeyboardRuns.FocusLostGood | crates/drift-input/src/keyboard.rs:176-185 | After losing focus nothing is pressed, held or deferred |
| KeyboardRuns.CtrlAltDelLeavesNoTrace | crates/drift-input/src/keyboard.rs:197-207 | Ctrl+Alt+Del leaves the translator as it was, whatever is held |
| KeyboardMenu.ConsumedThroughout | crates/drift-input/src/keyboard.rs:162-171 | A Command key the menu used stays marked through every run that keeps it held and in which no input flushes it |
| KeyboardMenu.MenuShortcutStaysLocal | crates/drift-input/src/keyboard.rs:96-278 | A Command key deferred when the menu took its combo sends nothing on release unless a key or pointer press flushed it: after any run that keeps it held and does not flush it, whichever input lets go of it sends what it sends, and leaves the state it leaves, had the key never been pressed |
| KeyboardMenu.UpdateWithoutConsumed | crates/drift-input/src/keyboard.rs:228-266 | Any modifier update that lets go of a consumed Command key, whatever else it changes, equals the update of the state without that key |
| KeyboardMenu.ReleaseStaysLocal | crates/drift-input/src/keyboard.rs:96-194 | The same for every input: flags changes, key presses that notice a missed release, focus gained and lost |
| KeyboardMenu.LoneReleaseIsSilent | crates/drift-input/src/keyboard.rs:253-266 | Let go of on its own, such a key changes nothing on the wire |
| KeyboardMenu.FlushSends | crates/drift-input/src/keyboard.rs:269-278 | A flush sends every deferred Command key, consumed or not, and leaves none deferred |
| KeyboardMenu.UnsentKeyDown | crates/drift-input/src/keyboard.rs:120-133 | A press of an unmapped, already held or modifier key is a modifier update and flushes nothing |
| KeyboardTaps.LoneCommandIsTapped | crates/drift-input/src/keyboard.rs:96-278 | A Command key that goes down, is held through any run in which nothing is used with it and no combo goes to the menu, and is let go of, has been tapped, whichever input but a loss of focus notices: press and release back to back, unless its scancode is on the wire already |
| KeyboardTaps.LoneReleaseIsATap | crates/drift-input/src/keyboard.rs:253-266 | Let go of on its own, an unused Command key sends exactly its press and its release, or nothing when its scancode is held, and leaves the pressed keys as they were |
| KeyboardTaps.UpdateTaps | crates/drift-input/src/keyboard.rs:228-266 | Any modifier update that lets go of an unused Command key, whatever else it changes, taps the key |
| KeyboardTaps.ReleaseIsTapped | crates/drift-input/src/keyboard.rs:96-194 | So does every input but a loss of focus |
| KeyboardTaps.StepDefers | crates/drift-input/src/keyboard.rs:243-251 | A Command key going down, and one staying down unused, is deferred and sends nothing unless the input flushes it |
| KeyboardTaps.FocusLossPressesNothing | crates/drift-input/src/keyboard.rs:173-185 | A loss of focus only releases pressed scancodes: a deferred Command key is dropped without a tap |
| KeyboardWire.StepScancodesStay | crates/drift-input/src/keyboard.rs:84-142 | Whatever the input, a key that stays down keeps the scancode it was sent with, and one sent now has its own under the keyboard and preferences in force |
| KeyboardWire.CombinationArrives | crates/drift-input/src/keyboard.rs:116-133 | When a key goes down exactly the held modifiers, Command keys included, and the keys held before are on the wire, and the key's press is the last event |
| KeyboardWire.UpdateReleasesFirst | crates/drift-input/src/keyboard.rs:227-241 | A modifier update leaves on the wire only what is still held before it presses anything new, and then only presses |
| KeyboardWire.CtrlAltDelArrives | crates/drift-input/src/keyboard.rs:197-207 | Delete goes down while Control and Alt are down, whatever was held, and then only releases follow |
| KeyboardWire.WhereAKeyGoes | crates/drift-input/src/unicode.rs:32-40 | With the Mac layout a key without Control or Command is left to the text system when it types text or a composition is going on; any other key is sent, and repeats are not |
| KeyboardWire.LayoutIsHistory | crates/drift-input/src/keyboard.rs:86-93 | Over every run the preferences and the keyboard type are those set last |
| KeyboardCaps.StepTells | crates/drift-input/src/keyboard.rs:216-225 | Caps Lock is reported when it differs from what the last flags said, when its own key changes and when focus is gained, with Num Lock on, and by no other input |
| KeyboardCaps.CapsIsReported | crates/drift-input/src/keyboard.rs:216-225 | Over every run the last report, once there is one, states what the last flags said, and there is one as soon as focus was gained |
| Keymap.IsoSwapsTwoKeys | crates/drift-input/src/keymap.rs:334-346 | An ISO keyboard is the ANSI table with two keys exchanged, and JIS is the ANSI table |
| Keymap.CommandStandsFor | crates/drift-input/src/keymap.rs:334-346 | Command keys are the Super keys or, side by side, the Control keys, and no other key depends on that preference |
| Modifiers.HeldModifiers | crates/drift-input/src/modifiers.rs:186-223 | The loop over the modifier classes computes the held keys |
| Modifiers.HeldMeaning | crates/drift-input/src/modifiers.rs:186-223 | The class bit decides whether a modifier is held; device bits name its sides exactly; without them it is the side whose key changed, otherwise the sides held before, and the left one when there was none |
| Modifiers.HeldByKey | crates/drift-input/src/modifiers.rs:186-211 | Key by key: not held without its class bit, with device bits held exactly with its own, and one side of a set class is always held |
| Modifiers.FromKvk | crates/drift-input/src/modifiers.rs:131-133 | A key code names exactly the modifier key that has it |
| Keyboard.Translator.PressScancode | crates/drift-input/src/keyboard.rs:280-286 | Only the first holder's press is sent; the count saturates |
| Keyboard.Translator.ReleaseScancode | crates/drift-input/src/keyboard.rs:288-296 | Only the last holder's release is sent |
| Keyboard.Translator.PressModifierKey | crates/drift-input/src/keyboard.rs:243-251 | Command is deferred, other modifiers are pressed and remembered |
| Keyboard.Translator.ReleaseModifierKey | crates/drift-input/src/keyboard.rs:253-266 | A deferred Command becomes a tap unless the menu consumed it; a sent modifier is released |
| Keyboard.Translator.UpdateModifiers | crates/drift-input/src/keyboard.rs:228-241 | Modifiers gone are released last class first, then new ones pressed |
| Keyboard.Translator.Flush | crates/drift-input/src/keyboard.rs:269-278 | Every deferred Command key is pressed |
| Keyboard.Translator.UpdateCaps | crates/drift-input/src/keyboard.rs:217-225 | Caps Lock is reported when it changed or when forced |
| Keyboard.Translator.FlagsChange | crates/drift-input/src/keyboard.rs:96-101 | A flags change updates Caps Lock, then the modifiers |
| Keyboard.Translator.KeyDownEvent | crates/drift-input/src/keyboard.rs:108-114 | A key goes to the text system, is swallowed as a repeat, or is sent as a scancode |
| Keyboard.Translator.KeyDownAsScancode | crates/drift-input/src/keyboard.rs:120-133 | A scancode press, recorded for its release |
| Keyboard.Translator.KeyUpEvent | crates/drift-input/src/keyboard.rs:136-142 | A key release uses the scancode of its press |
| Keyboard.Translator.TypeText | crates/drift-input/src/keyboard.rs:147-158 | Text is sent as UTF-16 units with the sent modifiers lifted around it |
| Keyboard.Translator.LoseFocus | crates/drift-input/src/keyboard.rs:176-185 | Everything pressed is released and everything held forgotten |
| Keyboard.Translator.GainFocus | crates/drift-input/src/keyboard.rs:189-194 | Focus forces the Caps Lock state and syncs the modifiers |
| Keyboard.Translator.SendCtrlAltDel | crates/drift-input/src/keyboard.rs:197-207 | Three presses and their releases in reverse |
| ClipboardFetch.OneRequestInFlight | crates/drift-clipboard/src/sync.rs:265-270 | In every run without a fetch timeout and with one response per request at most one request is outstanding, it is the one the code records, and a pending fetch always has one |
| ClipboardFetch.WritesHoldTheLatestList | crates/drift-clipboard/src/sync.rs:314-372 | Every pasteboard write holds exactly the decoded successful answers to the latest accepted list, in its order, and never overrides a local snapshot newer than that list |
| ClipboardFetch.OnlyTimeoutsUnpair | crates/drift-clipboard/src/sync.rs:221-225 | A step breaks the pairing of request and response exactly when it is a fetch timeout |
| ClipboardFetch.LateAnswerIsMistaken | crates/drift-clipboard/src/sync.rs:221-225 | Counterexample: after a timeout a late text answer is written as the TIFF asked for next |
| ClipboardFetch.StepKeeps | crates/drift-clipboard/src/sync.rs:314-372 | Every orderly step keeps the invariant of fetches |
| ClipboardFetch.ResponseMovesOn | crates/drift-clipboard/src/sync.rs:339-372 | Every response while a fetch is pending reports a failed answer and then asks for the next wanted format; after the last one the decoded items are written, unless there are none or a newer local change came in between |
| ClipboardRuns.EveryRunIsCoherent | crates/drift-clipboard/src/sync.rs:236-312 | In every reachable state: ready and focused means no local change is pending; if the preference is not Off and the latest change is not our own write, the advertisement is that change filtered under the current preference; the last list sent offers exactly the advertisement |
| ClipboardHistory.EveryRunTracks | crates/drift-clipboard/src/sync.rs:208-215 | In every reachable state the remembered change counts are the last eight our own writes were reported with, in order, and the unacknowledged write, the latest change and the last list are those of the inputs and actions |
| ClipboardHistory.OwnChangeIsIgnored | crates/drift-clipboard/src/sync.rs:272-287 | A new change with one of those counts, or with the contents of an unacknowledged write, sends nothing and leaves the advertisement, what is pending and any fetch alone, whatever it holds |
| ClipboardHistory.OtherChangeIsTakenUp | crates/drift-clipboard/src/sync.rs:272-295 | Any other new change is offered at once or becomes pending, unless the clipboard is off |
| ClipboardHistory.RemoteListMeaning | crates/drift-clipboard/src/sync.rs:314-336 | A remote list is ignored exactly when the session cannot sync or the list has the same kinds, each as often, as the last one sent at most 500 ms before; any other one gives up the fetch in progress and starts its own |
| ClipboardEchoes.NinthWriteForgetsTheFirst | crates/drift-clipboard/src/sync.rs:208-215 | Counterexample to ignoring every own write: after nine of them a change with the first one's count is offered to the remote |
| ClipboardEchoes.LocalIsOfferedExactly | crates/drift-clipboard/src/sync.rs:236-312 | Local changes aside, the latest local contents, our own write included, are offered exactly on an initial request that can sync, on gaining focus with a change pending, and on a new preference other than Off in a ready and focused session |
| ClipboardEchoes.WrittenImageIsOfferedBack | crates/drift-clipboard/src/sync.rs:297-312 | Counterexample to echo prevention: an image fetched from the remote is offered back to it after the preference changed twice |
| ClipboardOff.OffGivesUpExactly | crates/drift-clipboard/src/sync.rs:297-308 | Turning the clipboard off gives up a fetch exactly in a session that is ready and focused |
| ClipboardOff.OffIsQuiet | crates/drift-clipboard/src/sync.rs:228-312 | Off and without a fetch, a session asks for nothing, writes nothing, offers only the empty list and refuses every request, through any run that leaves it off |
| ClipboardOff.WrittenWhileOff | crates/drift-clipboard/src/sync.rs:297-308 | Counterexample: a fetch of a session out of focus is completed and written although the clipboard was turned off |
| ClipboardOff.TimeoutFreesTheWire | crates/drift-clipboard/src/sync.rs:221-226 | A request unanswered for five seconds is given up with its fetch, and the next list is asked for at once |
| ClipboardOff.NoTimeoutNoChange | crates/drift-clipboard/src/sync.rs:221-226 | A tick changes nothing before that |
| ClipboardRuns.ListedFormatsAreAnswered | crates/drift-clipboard/src/sync.rs:374-379 | While the preference is unchanged no listed format is answered as unavailable and every unlisted one is; each successful answer is allowed by the preference and comes from the advertisement |
| ClipboardRuns.ListsBeforeReady | crates/drift-clipboard/src/sync.rs:216-219 | Before the initial request a list goes out exactly on that request or on gaining focus with a local change pending |
| ClipboardRuns.AdvertisesUnasked | crates/drift-clipboard/src/sync.rs:216-219 | Counterexample: text copied while unfocused is advertised on focus although no list was requested |
| ClipboardFormats.FilterLocal | crates/drift-clipboard/src/formats.rs:283-296 | The loop keeps the allowed items within the size limit, in order, and reports every oversized allowed one |
| ClipboardFormats.FilterMembers | crates/drift-clipboard/src/formats.rs:283-296 | An item is kept exactly when it is there, allowed and within the limit |
| ClipboardFormats.FilterIdempotent | crates/drift-clipboard/src/formats.rs:283-296 | Filtering twice under one preference changes nothing |
| ClipboardFormats.AnswersMatchTheList | crates/drift-clipboard/src/formats.rs:315-383 | A format is unavailable exactly when it was not listed; a successful answer is at most 32 MiB and comes from an allowed item |
| ClipboardFormats.SelectMeaning | crates/drift-clipboard/src/formats.rs:334-348 | At most one text entry, then at most one image entry, each the first of its preference list that is offered and allowed; none is missing that could be there |
| ClipboardExchange.OutboundMeaning | crates/drift-clipboard/src/formats.rs:315-329 | Text is offered as Unicode text, a PNG under its registered name and as a DIB, a TIFF only without a PNG, each only when allowed, and nothing else |
| ClipboardExchange.OfferedItemArrives | crates/drift-clipboard/src/formats.rs:351-383 | An offered item within the limit, read back by a remote of the same kind, is text up to its first NUL with each CRLF as LF, the same TIFF, and the same PNG exactly if it has the signature |
| ClipboardExchange.DibArrives | crates/drift-clipboard/src/formats.rs:351-383 | A PNG read back as a DIB is the PNG converted there and back, refused where a conversion fails or the DIB is too large |
| ClipboardExchange.AnsiTextMeaning | crates/drift-clipboard/src/formats.rs:157-171 | ANSI text ends at its first zero byte, is UTF-8 if it can be and otherwise one character per byte |
| ClipboardText.TextRoundTrip | crates/drift-clipboard/src/formats.rs:132-171 | Decoding the CF_UNICODETEXT encoding of any text gives the text up to its first NUL with each CRLF read as LF |
| ClipboardText.TextUnchanged | crates/drift-clipboard/src/formats.rs:132-171 | A text comes back unchanged exactly when it has neither NUL nor CRLF |
| ClipboardText.EncodeUnicodeText | crates/drift-clipboard/src/formats.rs:132-147 | The loop adds a CR before each lone LF and writes little-endian UTF-16 with a terminating NUL |
| ClipboardWire.LineEndsOnTheWire | crates/drift-clipboard/src/formats.rs:132-147 | On the wire every LF follows a CR, and a text in which that holds already is sent unchanged |
| ClipboardWire.EncodedBytes | crates/drift-clipboard/src/formats.rs:132-147 | The payload is the UTF-16 units of the text with its line ends and a zero unit, least significant byte first |
| ClipboardWire.UnitsMeaning | crates/drift-clipboard/src/formats.rs:151-155 | Reading takes the same byte order |
| ClipboardWire.DecodeLosesNothing | crates/drift-clipboard/src/formats.rs:151-155 | Decoding units and encoding again gives them back exactly when every surrogate is paired; otherwise U+FFFD appears |
| Utf16.Utf16RoundTrip | crates/drift-clipboard/src/formats.rs:151-155 | Decoding UTF-16 undoes encoding for every text, surrogate pairs included (RFC 2781 sections 2.1 and 2.2) |
| Utf16.EncodeChar | crates/drift-clipboard/src/formats.rs:132-147 | A character is one unit that is no surrogate, or a high and a low surrogate that combine to it |
| ClipboardSync.Sync.SupersedeFetch | crates/drift-clipboard/src/sync.rs:265-270 | A fetch is given up and its request marked stale |
| ClipboardSync.Sync.AdvertiseLocal | crates/drift-clipboard/src/sync.rs:253-263 | The filtered local contents become the advertisement and any fetch is given up |
| ClipboardSync.Sync.InitialRequest | crates/drift-clipboard/src/sync.rs:236-244 | The initial request is always answered, with the local list or an empty one |
| ClipboardSync.Sync.LocalChange | crates/drift-clipboard/src/sync.rs:272-295 | A local change is ignored, postponed or advertised |
| ClipboardSync.Sync.ChangePrefs | crates/drift-clipboard/src/sync.rs:297-312 | A new preference re-advertises, withdraws or postpones |
| ClipboardSync.Sync.RemoteList | crates/drift-clipboard/src/sync.rs:314-336 | A remote list is ignored, waits for the request in flight, or is fetched at once |
| ClipboardSync.Sync.FetchNext | crates/drift-clipboard/src/sync.rs:339-354 | The next format is asked for, or the fetch ends with a write unless a newer local change arrived |
| ClipboardSync.Sync.RemoteAnswer | crates/drift-clipboard/src/sync.rs:356-372 | An answer is dropped as stale, added to the fetch or reported, and the fetch goes on |
| ClipboardSync.Sync.Handle | crates/drift-clipboard/src/sync.rs:198-229 | Every input does to the fields and actions what the specification says |
| SessionRuns.EveryRunKeeps | src-tauri/src/manager.rs:178-491 | Over every interleaving of opens, closes, shutdowns and pumps each started generation is in exactly one place: live in one window, owed a call, ended, or overwritten; orders stay unique |
| SessionRuns.EndedAtMostOnce | src-tauri/src/manager.rs:61-63 | session_ended runs at most once per generation, and only for started ones |
| SessionRuns.EndedExactlyOnce | src-tauri/src/manager.rs:61-63 | When opens of a window never overlap, every started session has ended exactly once as soon as none is live and no call is owed |
| SessionRuns.EndedUnlessOverwritten | src-tauri/src/manager.rs:61-63 | In a settled system a started generation ended exactly once if no open of the run inserted over it while it was live, and never otherwise |
| SessionRuns.LostIsOverwritten | src-tauri/src/manager.rs:187-207 | The generations counted as overwritten after a run are those that some open of the run inserted over while they were live |
| SessionRuns.SerialOpensLoseNothing | src-tauri/src/manager.rs:178-209 | Without overlapping opens no generation is overwritten |
| SessionRuns.NextOrdered | src-tauri/src/manager.rs:197-207 | Opening orders stay unique |
| SessionViews.OverlappingOpensLoseASession | src-tauri/src/manager.rs:185-207 | Counterexample: two interleaved opens of one window leave a session that is never ended |
| SessionViews.ViewFollowsItsSession | src-tauri/src/manager.rs:445-473 | While a generation owns its window the stored view is the fold of exactly that generation's events and the user's actions, in order |
| SessionViews.OpenedViewFollows | src-tauri/src/manager.rs:187-207 | From its insertion on a session's window shows that session, starting from its first view |
| SessionViews.ViewChanges | src-tauri/src/manager.rs:233-262 | A stored view changes only by an event of the generation that owns it, a user action or an insertion |
| SessionViews.LateEventsAreDropped | src-tauri/src/manager.rs:442-491 | A closed or replaced session can send any late events: the run without them ends in the same state |
| SessionViews.OrderSurvivesReconnects | src-tauri/src/manager.rs:197-203 | A window keeps its opening order through any number of reconnects |
| SessionViews.NewWindowsComeLast | src-tauri/src/manager.rs:197-203 | A new window comes after every window there is |
| SessionHistory.WindowsAreHistory | src-tauri/src/manager.rs:178-210 | Over every interleaving a window is known exactly when an open inserted it and no close or shutdown forgot it since; it shows the profile it was opened with last, and its live session is the one started then until another open takes it or its stream ends |
| SessionManager.Manager.TakeForOpen | src-tauri/src/manager.rs:179-179 | A live session of the window is taken out |
| SessionManager.Manager.InsertForOpen | src-tauri/src/manager.rs:186-207 | A new generation with a first view; the order is kept or new |
| SessionManager.Manager.Open | src-tauri/src/manager.rs:178-209 | An uninterrupted open ends the live session once, also when spawning fails, and touches no other window |
| SessionManager.Manager.CloseWindow | src-tauri/src/manager.rs:327-331 | Closing forgets the window at once and returns its live session |
| SessionManager.Manager.Shutdown | src-tauri/src/manager.rs:346-354 | Quitting forgets every window and returns exactly the live sessions |
| SessionManager.Manager.Deliver | src-tauri/src/manager.rs:452-462 | An event counts exactly when its generation owns the window |
| SessionManager.Manager.StreamEnded | src-tauri/src/manager.rs:477-487 | The end of a stream ends the session exactly when it owns the window |
| SessionManager.Manager.Pump | src-tauri/src/manager.rs:445-491 | An uninterrupted pump applies its events in order and ends its session at most once |
| SessionManager.Manager.WindowFor | src-tauri/src/manager.rs:279-287 | The window of a profile, the first in opening order if there are several |
| Backoff.CeilingAgainstClosedForm | crates/drift-core/src/reconnect.rs:146-150 | The ceiling never exceeds min(cap, base * 2^(n-1)), and equals it exactly when n <= 32, base * (2^32 - 1) reaches the cap, or base is zero |
| Backoff.CeilingMissesClosedForm | crates/drift-core/src/reconnect.rs:145-150 | Counterexample: base 1 ns, cap 2^32 ns, attempt 33 |
| Backoff.DefaultMeetsClosedForm | crates/drift-core/src/reconnect.rs:39-48 | With the default configuration, the only one the program builds, every attempt has the documented ceiling |
| Backoff.CeilingGrows | crates/drift-core/src/reconnect.rs:146-150 | Ceilings never shrink with the attempt number and never exceed the cap |
| Backoff.CeilingIsMin | crates/drift-core/src/reconnect.rs:146-150 | A duration overflow hides nothing: the result is still the minimum of cap and product |
| Backoff.SpreadWithin | crates/drift-core/src/reconnect.rs:102-105 | A draw stays within its limit |
| Backoff.EveryValueIsDrawn | crates/drift-core/src/reconnect.rs:102-105 | Every value up to the limit is the result of some draw |
| Reconnect.StateIsHistory | crates/drift-core/src/reconnect.rs:152-205 | The policy's fields are what the call history says; a bounded budget is never overrun |
| Reconnect.Decisions | crates/drift-core/src/reconnect.rs:158-205 | Every decision of every run with a budget, from the history: wait while the network is down, give up when the budget is spent, otherwise attempt number one more than the retries of this epoch |
| Reconnect.UnlimitedDecisions | crates/drift-core/src/reconnect.rs:190-205 | Without a budget the policy always retries, and the number saturates |
| Reconnect.WaitingIsFree | crates/drift-core/src/reconnect.rs:190-193 | Waiting for the network consumes neither an attempt nor a random draw |
| Reconnect.AnnouncedAttemptIsMade | crates/drift-core/src/reconnect.rs:190-205 | The number announced while waiting is the number of the attempt made once the network is back, exactly when the budget was not spent |
| Reconnect.DelayWithinCeiling | crates/drift-core/src/reconnect.rs:190-205 | No delay exceeds the ceiling of its attempt, hence none exceeds the closed form |
| Reconnect.DelayIsDrawn | crates/drift-core/src/reconnect.rs:190-205 | A retry the user asks for is immediate; one after a disconnect waits the share of its ceiling, in whole milliseconds, that the mixed next generator state is of 2^64 |
| Reconnect.DrawsAreHistory | crates/drift-core/src/reconnect.rs:93-99 | The generator has advanced by its increment once per retry after a disconnect and for nothing else |
| Reconnect.EveryDelayHappens | crates/drift-core/src/reconnect.rs:197-204 | Every whole millisecond up to the ceiling is the delay of some draw |
| Reconnect.ReconnectPolicy.OnDisconnect | crates/drift-core/src/reconnect.rs:158-168 | A stable connection clears the attempts; only retryable reasons are retried |
| Reconnect.ReconnectPolicy.BelowOrEq | crates/drift-core/src/reconnect.rs:102-105 | One step of the generator and a value within the limit |
| Reconnect.ReconnectPolicy.Decide | crates/drift-core/src/reconnect.rs:190-205 | Wait, give up or retry |
| Layout.FitToCaps | crates/drift-core/src/layout.rs:125-145 | For any result of the ratio step: sides in 200..8192, even width, unchanged if it fits already; the area is within the limit exactly when the smallest monitor's is, else the result is 200 x 200; nothing is shaved off needlessly, and always off the larger side (MS-RDPEDISP section 2.2.2.2.1) |
| Layout.ShrinkToArea | crates/drift-core/src/layout.rs:136-143 | The correction loop takes from the larger side and ends with a fitting area or the smallest size, where one step less would not fit |
| Layout.ClampIsNearest | crates/drift-core/src/layout.rs:125-135 | Clamping gives the nearest side in 200..8192, and evening the largest even number not above |
| Layout.DeviceScaleFor | crates/drift-core/src/layout.rs:97-105 | The nearest valid device scale, the lower of two equally near ones |
| Thumbnail.Downscale | src-tauri/src/connections.rs:204-232 | For any fitted size that keeps a pixel each way and does not scale up: a short or empty frame yields an empty image; any other yields that many opaque RGBA pixels, each the rounded mean per channel of its box with red and blue swapped. No read is out of range, for frames whose byte count width * height * 4 does not wrap around 2^64 |
| Thumbnail.FitMeaning | src-tauri/src/connections.rs:189-199 | Of the formula over real numbers: never scaled up, at least one pixel each way, within the limit, unchanged if it fits, otherwise touching the limit on one axis |
| Thumbnail.FitKeepsShape | src-tauri/src/connections.rs:189-199 | When one side decides, the other is a whole number nearest to what the ratio asks for, but for the one pixel it keeps in any case |
| Thumbnail.BoxesAreEven | src-tauri/src/connections.rs:213-216 | No two boxes differ by more than one line or column |
| Thumbnail.BoxesConserve | src-tauri/src/connections.rs:212-225 | For any output size that does not scale up, the sums of all boxes add up to the sum over the frame, for any pixel function: no pixel is left out or counted twice |
| Thumbnail.OneBoxEach | src-tauri/src/connections.rs:213-216 | Every source line or column is in exactly one box |
| Thumbnail.MeanIsNearest | src-tauri/src/connections.rs:226-228 | The mean is the integer nearest to the average |
| Thumbnail.AverageIsByte | src-tauri/src/connections.rs:226-228 | Every mean is a byte |
| Thumbnail.FlatStaysFlat | src-tauri/src/connections.rs:217-229 | A box whose bytes all agree yields that byte |
| Thumbnail.AverageBox | src-tauri/src/connections.rs:217-229 | The loops over one box compute its three means |

## Left out

- Foreign decoders (RLGR, SRL, wavelets, ZGFX, H.264, ClearCodec, PNG and DIB conversion): arbitrary functions, so nothing is said about the pixels they produce.
- The swap of red and blue after reconstruction (`render_bgra`): part of the arbitrary rendering function.
- Threads, the tile pool, task runtimes, mutex poisoning and notifier callbacks: operations are atomic steps, and runs are their interleavings; jobs of a round are run in list order, which the independence of tiles makes immaterial.
- ProgressiveCodec.Decoder.Decode: the grid is copied out of the context map and stored back instead of being borrowed in place; stream parsing is an arbitrary function.
- Thumbnail.Downscale: `width * height * 4` is unbounded here and wraps in `usize` for sides near 2^32; the floating-point fitted size is a parameter.
- Machine limits of other `usize` sums and products and of the 64-bit generation and order counters: these are unbounded integers; 8-, 16- and 32-bit fields are modelled with their limits.
- Thumbnail.FitMeaning: real numbers instead of the program's floating point; `to_pixels` and the layout ratio are arbitrary results.
- The mixing function of SplitMix64 and the fairness of its draws: an arbitrary function; the state step and the multiply-shift are exact.
- Modifier flags and modifier sets as bit words: sets of bit positions and of keys.
- The key tables beyond totality and range: a finite lookup.
- `sorted_kinds`: a multiset of kinds, equal exactly when the sorted lists are.
- Clocks: times are integers passed in; instants never run backwards in the program, which no statement needs.
- Keyboard.Translator.TypeText: characters of the text are sent as code units; composition by the text system is not part of this model.
- SessionManager.Manager.Deliver: the host calls made outside the lock after an event are not modelled, so nothing is said about their order.
- Sending commands to a session, the time a picture has been live, listing of sessions and the gallery: single look-ups without a state change.
- `set_visible` on the sink, channel start and close, tracing: forwarding without decisions.
- `SessionState::allows`, `TriggerMerger`, `ThumbnailThrottle`, profile validation, messages, `base64`, pointer and scroll translation, adapters to AppKit, Tauri and the Keychain, and host tools: not part of this model.
