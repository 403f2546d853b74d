# Chunked tile store and paint step of a 2D tile editor

This project models, in Dafny, the core of a Bevy-based tile editor: the world is a grid of
32×32-tile chunks, each chunk's tiles live as one byte per cell in a single-channel 8-bit image,
and a left click (or a left-button drag) paints a `Block` tile into the cell under the cursor.

What is modelled:

- **Tile codec** (`tiles.dfy`, module `Tiles`): the ten tile kinds, their byte encoding 0..9 and
  the partial decoding that rejects every byte above 9.
- **Chunk rasters and stores** (`chunk.dfy`, module `ChunkStore`): a raster is a sequence of
  1024 bytes, row after row. A fresh chunk holds `i mod 9` in cell `i`. `SetTileAt` writes
  column `x` of the flipped row `31 - y`. `GetTileAt` reads `(x, y)` without a flip. The image
  store, the chunk-material store and the chunk index (`Chunks`) are classes whose maps the
  methods reassign. `ChunkBundle` creates a chunk, records it in the index and places its quad.
- **Paint step** (`editor.dfy`, module `Editor`): a world point is split per axis
  into chunk coordinate and local tile by Euclidean quotient and remainder by 32. `ChangeTile`
  drops the event when the chunk or its material is missing and otherwise writes `Block`. It is
  proved against the value-level `Paint`. The run condition is `PaintFires`. The systems run on
  entering the editing state are `CreateChunksResource` and `CreateBall`.
- **Cursor samples** (`mouse.dfy`, module `MouseManagement`): the current position takes the last
  cursor-moved event of the frame, or stays as it is when none arrived. The previous position is
  copied from the current one after the frame's logic.
- **Frame schedule** (`app.dfy`, module `App`): `EditorApp.Frame` runs pre-update, update and
  post-update in that order. Cursor change detection follows change ticks: the resource records
  the frame of its last write. The cursor-changed condition reports a write newer than its own
  last run. Inside the `or` of the run condition, it runs only when "left just pressed" was false.

Vertical convention: the model keeps the source's, in which writes flip the row and reads do not.
`SetThenGetFlipped` proves the round trip through the flipped row. `SetThenGetSameCoordinates`
proves that a read at the written coordinates never sees the write.

Three points where the code behaves otherwise than one might expect, which the model follows:
- A chunk's quad is centred at `(32·x + 16, 32·y + 16)`, not placed at `(32·x, 32·y)`.
- The same-coordinate set/get round trip does not hold, because of the row flip.
- There is no zoom operation in the code, and panning lies outside the modelled core.

## Model

| member | source | states |
|---|---|---|
| `Tiles.Encode` | src/chunk.rs:108-123 | every tile is stored as a byte in 0..9 |
| `Tiles.Decode` | src/chunk.rs:125-143 | decoding succeeds exactly for bytes 0..9, and then re-encoding the tile gives the byte back; every byte above 9 is an error |
| `Tiles.EncodeInjective` | src/chunk.rs:108-123 | the ten tiles have ten distinct encodings |
| `Tiles.DecodeEncode` | src/chunk.rs:108-143 | decoding the encoding of any tile returns that tile |
| `Tiles.EncodeOnto` | src/chunk.rs:108-143 | every byte 0..9 encodes exactly one tile |
| `ChunkStore.PixelIndex` | src/chunk.rs:52 | a pixel offset exists exactly for coordinates inside the 32×32 raster, and it decomposes back into row and column |
| `ChunkStore.EmptyRaster` | src/chunk.rs:40-42 | a fresh raster has 1024 cells, cell i holds i mod 9, every cell decodes and none is Empty |
| `ChunkStore.EmptyChunkTiles` | src/chunk.rs:32-47 | every in-range cell of a fresh chunk reads as a tile other than Empty, whose byte is (32·y + x) mod 9 |
| `ChunkStore.ReadCell` | src/chunk.rs:49-59 | a read of a present raster yields a tile exactly when (x, y) is in range and the stored byte is 0..9, and the tile encodes to that byte |
| `ChunkStore.WriteCell` | src/chunk.rs:66-67 | a write stores the tile's byte at column x, row 31 − y, changes no other cell, and with x ≥ 32 changes nothing |
| `ChunkStore.WriteCellOnlyTarget` | src/chunk.rs:67 | after a write, each cell (cx, cy) holds the tile's byte if it is (x, 31 − y), and its old byte otherwise |
| `ChunkStore.SetThenGetFlipped` | src/chunk.rs:49-67 | reading (x, 31 − y) after writing t at (x, y) gives t |
| `ChunkStore.SetThenGetSameCoordinates` | src/chunk.rs:49-67 | reading (x, y) after writing at (x, y) gives what was there before, so the plain round trip fails whenever the old tile differs |
| `ChunkStore.Images.Add` | src/chunk.rs:46 | a new image gets a handle no present image has, and nothing else in the store changes |
| `ChunkStore.Materials.Add` | src/chunk.rs:157 | a new material gets a handle no present material has, and nothing else in the store changes |
| `ChunkStore.Chunks.constructor` | src/chunk.rs:145-148 | the default chunk index is empty |
| `ChunkStore.EmptyChunk` | src/chunk.rs:32-47 | a fresh chunk's image is new to the store and holds the i mod 9 pattern; no other image changes |
| `ChunkStore.GetTileAt` | src/chunk.rs:49-60 | the result is None exactly when the image is absent, (x, y) is outside the raster, or the byte is above 9; otherwise it is the tile the stored byte encodes |
| `ChunkStore.SetTileAt` | src/chunk.rs:62-68 | with the image absent the store is unchanged, for any y; otherwise only that image's raster changes, by a flipped-row write, after which reading (x, 31 − y) gives the tile |
| `ChunkStore.ChunkCentre` | src/chunk.rs:162-166 | a chunk's quad is centred 16 units past the chunk's corner (32·x, 32·y) on both axes |
| `ChunkStore.ChunkBundle` | src/chunk.rs:150-168 | the index maps pos to a new material over a new fresh-pattern raster, every other key unchanged, and the quad is centred on the chunk |
| `Editor.ChunkCoord` | src/editor.rs:57 | the chunk coordinate c of a world coordinate w satisfies 32·c ≤ ⌊w⌋ < 32·c + 32, also for negative w |
| `Editor.LocalTile` | src/editor.rs:54-56 | the local tile coordinate lies in [0, 32), also for negative world coordinates |
| `Editor.AxisPartition` | src/editor.rs:54-57 | 32 · chunk + local equals the floored world coordinate, and chunk and local are its integer quotient and remainder by 32 |
| `Editor.PaintTarget` | src/editor.rs:54-57 | the target tile is inside its chunk and chunk and tile rebuild the floored world point on both axes |
| `Editor.CentreInOwnChunk` | src/chunk.rs:162-166 | the centre of a chunk's quad falls in that same chunk, on tile (16, 16) |
| `Editor.PaintFires` | src/editor.rs:31-38 | the paint step runs only with left shift up, in the editing state and with the left button pressed or just pressed; a fresh press always runs it; with no fresh press and no reported cursor change it never runs |
| `Editor.Paint` | src/editor.rs:43-73 | a paint step adds or removes no raster, and with no chunk at the target it changes nothing |
| `Editor.PaintWritesOneCell` | src/editor.rs:59-72 | after a paint step every cell of every raster is unchanged except the target cell of the target chunk's raster, which holds Block; with the chunk or material missing nothing changes |
| `Editor.PaintOnlyTargetChunk` | src/editor.rs:59-72 | in consistent stores the raster of every chunk other than the target chunk is unchanged |
| `Editor.PaintHitsChunkUnderPoint` | src/editor.rs:70-72 | in consistent stores a present target chunk's raster receives the flipped-row Block write |
| `Editor.ChangeTile` | src/editor.rs:43-73 | the rasters become the paint result of the cursor's world point; the chunk index and the materials are only read |
| `Editor.CreateChunksResource` | src/editor.rs:75-77 | the chunk index becomes empty |
| `Editor.CreateBall` | src/editor.rs:79-93 | the index maps (0, 0) to a new material and keeps every other entry; the material store gains exactly that material, over a new image; the image store gains exactly that image, holding the fresh pattern; every other material and raster is unchanged; the stores stay consistent |
| `MouseManagement.MousePosition.constructor` | src/mouse_management.rs:17 | the current cursor position starts at (0, 0) |
| `MouseManagement.PreviousMousePosition.constructor` | src/mouse_management.rs:18 | the previous cursor position starts at (0, 0) |
| `MouseManagement.LastEvent` | src/mouse_management.rs:28 | walking the frame's events yields none exactly when there were none, and otherwise the last one |
| `MouseManagement.UpdateMousePos` | src/mouse_management.rs:24-35 | with no event the current position is neither changed nor written; otherwise it becomes the last event's position and is marked as written this frame |
| `MouseManagement.UpdatePrevMousePos` | src/mouse_management.rs:37-39 | the previous position becomes the current one |
| `App.EditorApp.constructor` | src/mouse_management.rs:16-21 | both cursor positions start at (0, 0), the stores are empty, the state is the main menu |
| `App.EditorApp.EnterEditing` | src/editor.rs:26-27 | entering editing leaves exactly one indexed chunk, at (0, 0); the material and image stores each gain exactly one new entry, the image holding the fresh pattern, and keep every old entry |
| `App.EditorApp.Frame` | src/editor.rs:31-38 | a frame paints exactly when the run condition holds; the update phase sees as previous position the current one of the preceding frame's end; painting never adds chunks, materials or image handles |
| `App.StaleChangeRepaints` | src/editor.rs:31-38 | a click that comes with a cursor move makes the next frame paint again with the button held and the cursor still |

## Left out

- Rendering: the chunk material's atlas texture, bind group and shader, the mesh, the bundle
  struct and the spawning of the chunk entity (src/chunk.rs:71-92, src/chunk.rs:170-175). These
  are engine services with no behaviour to state here.
- Colour conversion: rasters hold the tile bytes directly. The byte → colour → byte trip through
  the engine's `get_color_at` / `set_color_at` is taken to be the identity for bytes 0..9.
- Pixel addressing is an assumption about the engine: offset `32·y + x`, and an error for
  coordinates outside the image. So `GetTileAt` yields None and `SetTileAt` writes nothing
  for `x ≥ 32`.
- `ChunkStore.SetTileAt`: requires `y < 32` when the chunk's image is present, because
  `32 - y - 1` then underflows in `u32` (a panic in debug builds). In release builds the wrapped
  row is at least 32, the engine rejects it and the call is a no-op; the model does not cover
  that case. With the image absent the call returns before the row is computed, so any `y` is
  allowed and the store is unchanged.
- Camera projection: the viewport-to-world mapping is a parameter of `EditorApp.Frame`. Its
  failure (a panic through `expect`) is not modelled.
- World coordinates and cursor positions are exact reals, not 32-bit floats. A tiny negative
  world coordinate whose `f32` Euclidean remainder rounds to exactly 32.0 is not modelled; on
  the y axis that input reaches the row underflow above, on the x axis a tile column of 32
  reaches the engine's out-of-range no-op of `set_color_at`. The chunk centre's `f32` rounding is
  not modelled either.
- Chunk coordinates are unbounded integers. The saturating float-to-`i32` conversion for world
  coordinates beyond the `i32` chunk range is not modelled.
- Asset handling: registering an image through the asset server is modelled as an immediate
  insertion, although the engine queues it. An absent image is still modelled, through a handle
  the store does not hold. Handles are sequential indices, not the engine's generational
  allocator. Assets are never freed. The modified-asset events raised by the two mutable
  lookups are not modelled: the material lookup in `change_tile` (src/editor.rs:66) and the image
  lookup in `set_tile_at` (src/chunk.rs:63), which marks the image modified even when the write
  is then rejected.
- Before the editing state is first entered, the chunk index resource does not exist. It is
  modelled as an empty index, which the state gate keeps the paint step from reading.
- Change ticks are frame numbers. A write in a frame's pre-update is newer than any condition
  run in an earlier frame.
- Camera panning, the camera module's own duplicate cursor resources and systems, window-mode
  toggling, application wiring and the menu UI, including the transition into the editing
  state, which the UI triggers. There is no zoom operation in the code.
- Entity queries, the single-camera `expect` and system scheduling: the frame phases are
  explicit calls in `EditorApp.Frame`.
