/** The editor's painting step: from a world-space point to one cell of one chunk raster, the
    condition under which a frame paints, and the systems run on entering the editing state. */
module Editor {
  import opened Common
  import opened Tiles
  import opened ChunkStore

  /** The application state. */
  datatype AppState = MainMenu | Editing

  /** Where a world-space point lands: the chunk holding it and the tile column and row in it. */
  datatype Target = Target(chunk: ChunkPos, x: nat, y: nat)

  // ---------------------------------------------------------------------------------------
  // Partition of world space into chunk and local tile
  // ---------------------------------------------------------------------------------------

  /** Chunk coordinate along one axis: the Euclidean quotient of the world coordinate by the
      chunk size. */
  function ChunkCoord(w: real): (c: int)
    ensures CHUNK_SIZE * c <= w.Floor < CHUNK_SIZE * c + CHUNK_SIZE
  {
    (w / (CHUNK_SIZE as real)).Floor
  }

  /** Tile index inside the chunk along one axis: the Euclidean remainder of the world
      coordinate by the chunk size, truncated to an unsigned integer. */
  function LocalTile(w: real): (t: nat)
    ensures t < CHUNK_SIZE
  {
    (w - (CHUNK_SIZE as real) * (ChunkCoord(w) as real)).Floor
  }

  /** Along one axis the chunk coordinate and the local tile rebuild the floored world
      coordinate, and they are its integer quotient and remainder by 32, also below zero. */
  lemma AxisPartition(w: real)
    ensures CHUNK_SIZE * ChunkCoord(w) + LocalTile(w) == w.Floor
    ensures ChunkCoord(w) == w.Floor / CHUNK_SIZE && LocalTile(w) == w.Floor % CHUNK_SIZE
  {
  }

  /** The chunk and local tile under a world-space point. */
  function PaintTarget(world: Vec2): (t: Target)
    ensures t.x < CHUNK_SIZE && t.y < CHUNK_SIZE
    ensures CHUNK_SIZE * t.chunk.x + t.x == world.x.Floor && CHUNK_SIZE * t.chunk.y + t.y == world.y.Floor
  {
    AxisPartition(world.x);
    AxisPartition(world.y);
    Target(ChunkPos(ChunkCoord(world.x), ChunkCoord(world.y)), LocalTile(world.x), LocalTile(world.y))
  }

  /** The centre of a chunk's quad lies in that chunk, on its tile (16, 16). */
  lemma CentreInOwnChunk(pos: ChunkPos)
    ensures PaintTarget(ChunkCentre(pos)) == Target(pos, CHUNK_SIZE / 2, CHUNK_SIZE / 2)
  {
    var c := ChunkCentre(pos);
    CentreAxis(pos.x, c.x);
    CentreAxis(pos.y, c.y);
  }

  /** Along one axis, the point 16 units past a chunk's corner lies in that chunk, on tile 16. */
  lemma CentreAxis(k: int, w: real)
    requires w - ((CHUNK_SIZE / 2) as real) == (CHUNK_SIZE * k) as real
    ensures ChunkCoord(w) == k && LocalTile(w) == CHUNK_SIZE / 2
  {
    assert w / (CHUNK_SIZE as real) == k as real + 0.5;
    assert w - (CHUNK_SIZE as real) * (k as real) == (CHUNK_SIZE / 2) as real;
  }

  // ---------------------------------------------------------------------------------------
  // When a frame paints
  // ---------------------------------------------------------------------------------------

  /** The run condition of the paint step: the left button was just pressed, or the cursor
      position resource reports a change while the left button is held; left shift is not held;
      and the application is editing. */
  predicate PaintFires(leftJustPressed: bool, cursorChanged: bool, leftPressed: bool,
                       shiftPressed: bool, state: AppState): (fires: bool)
    ensures fires ==> !shiftPressed && state == Editing && (leftJustPressed || leftPressed)
    ensures leftJustPressed && !shiftPressed && state == Editing ==> fires
    ensures !leftJustPressed && !cursorChanged ==> !fires
  {
    (leftJustPressed || (cursorChanged && leftPressed)) && !shiftPressed && state == Editing
  }

  // ---------------------------------------------------------------------------------------
  // The paint step on values
  // ---------------------------------------------------------------------------------------

  /** The stores are consistent: every indexed chunk has its material, distinct positions have
      distinct materials, distinct materials sample distinct rasters, and every raster handle a
      material holds was handed out by the image store. */
  ghost predicate Consistent(index: map<ChunkPos, MaterialId>, materials: map<MaterialId, ChunkMaterial>,
                             nextImage: nat)
  {
    && (forall p :: p in index ==> index[p] in materials)
    && (forall p, q :: p in index && q in index && p != q ==> index[p] != index[q])
    && (forall m, n :: m in materials && n in materials && m != n ==>
          materials[m].tileData.image != materials[n].tileData.image)
    && (forall m :: m in materials ==> materials[m].tileData.image.index < nextImage)
  }

  /** The image rasters after one paint step at `world`: nothing changes when the chunk, its
      material or its raster is missing; otherwise Block is written at the target tile. */
  function Paint(index: map<ChunkPos, MaterialId>, materials: map<MaterialId, ChunkMaterial>,
                 rasters: map<ImageId, Raster>, world: Vec2): (r: map<ImageId, Raster>)
    ensures r.Keys == rasters.Keys
    ensures PaintTarget(world).chunk !in index ==> r == rasters
  {
    var t := PaintTarget(world);
    if t.chunk !in index then rasters
    else if index[t.chunk] !in materials then rasters
    else
      var image := materials[index[t.chunk]].tileData.image;
      if image !in rasters then rasters
      else rasters[image := WriteCell(rasters[image], t.x, t.y, Block)]
  }

  /** The raster a paint step at `world` writes to, if the chunk and its material are present. */
  function PaintedImage(index: map<ChunkPos, MaterialId>, materials: map<MaterialId, ChunkMaterial>,
                        world: Vec2): Option<ImageId>
  {
    var t := PaintTarget(world);
    if t.chunk in index && index[t.chunk] in materials
    then Some(materials[index[t.chunk]].tileData.image)
    else None
  }

  /** A paint step changes at most one cell of all rasters: the cell in column x, row 31 - y of
      the target chunk's raster, which becomes Block (byte 1). */
  lemma PaintWritesOneCell(index: map<ChunkPos, MaterialId>, materials: map<MaterialId, ChunkMaterial>,
                           rasters: map<ImageId, Raster>, world: Vec2, h: ImageId, cx: nat, cy: nat)
    requires h in rasters && cx < CHUNK_SIZE && cy < CHUNK_SIZE
    ensures var t := PaintTarget(world);
      CellAt(Paint(index, materials, rasters, world)[h], cx, cy)
        == if PaintedImage(index, materials, world) == Some(h) && cx == t.x && cy == CHUNK_SIZE - 1 - t.y
           then Encode(Block)
           else CellAt(rasters[h], cx, cy)
  {
    var t := PaintTarget(world);
    if PaintedImage(index, materials, world) == Some(h) {
      WriteCellOnlyTarget(rasters[h], t.x, t.y, Block, cx, cy);
    }
  }

  /** In consistent stores, painting leaves the raster of every chunk other than the target
      chunk as it was. */
  lemma PaintOnlyTargetChunk(index: map<ChunkPos, MaterialId>, materials: map<MaterialId, ChunkMaterial>,
                             rasters: map<ImageId, Raster>, nextImage: nat, world: Vec2, p: ChunkPos)
    requires Consistent(index, materials, nextImage)
    requires p in index && p != PaintTarget(world).chunk
    requires materials[index[p]].tileData.image in rasters
    ensures var h := materials[index[p]].tileData.image;
      Paint(index, materials, rasters, world)[h] == rasters[h]
  {
  }

  /** The raster of a chunk present in consistent stores is the one a paint step inside that
      chunk's area writes to. */
  lemma PaintHitsChunkUnderPoint(index: map<ChunkPos, MaterialId>, materials: map<MaterialId, ChunkMaterial>,
                                 rasters: map<ImageId, Raster>, nextImage: nat, world: Vec2)
    requires Consistent(index, materials, nextImage)
    requires PaintTarget(world).chunk in index
    ensures PaintedImage(index, materials, world).Some?
    ensures var t := PaintTarget(world);
      var h := materials[index[t.chunk]].tileData.image;
      h in rasters ==> Paint(index, materials, rasters, world)[h] == WriteCell(rasters[h], t.x, t.y, Block)
  {
  }

  // ---------------------------------------------------------------------------------------
  // The systems
  // ---------------------------------------------------------------------------------------

  /** The object-level form of Consistent, together with the stores' own invariants. */
  ghost predicate StoresConsistent(chunks: Chunks, materials: Materials, images: Images)
    reads chunks, materials, images
  {
    materials.Valid() && images.Valid()
    && Consistent(chunks.chunks, materials.materials, images.nextIndex)
  }

  /** One paint step at the world-space point under the cursor: drop the event when the chunk
      or its material is missing, otherwise write Block into one cell of the chunk's raster.
      The chunk index and the material store are only read. */
  method ChangeTile(world: Vec2, chunks: Chunks, materials: Materials, images: Images)
    modifies images
    ensures images.nextIndex == old(images.nextIndex)
    ensures images.rasters == Paint(chunks.chunks, materials.materials, old(images.rasters), world)
  {
    var t := PaintTarget(world);
    if t.chunk !in chunks.chunks {
      return;
    }
    var material := chunks.chunks[t.chunk];
    if material !in materials.materials {
      return;
    }
    var chunk := materials.materials[material].tileData;
    SetTileAt(chunk, images, t.x, t.y, Block);
  }

  /** Installs the default, empty chunk index. */
  method CreateChunksResource(chunks: Chunks)
    modifies chunks
    ensures chunks.chunks == map[]
  {
    chunks.chunks := map[];
  }

  /** Creates the first chunk, at chunk position (0, 0), and returns where its quad is placed. */
  method CreateBall(materials: Materials, chunks: Chunks, images: Images) returns (centre: Vec2)
    requires StoresConsistent(chunks, materials, images)
    modifies materials, chunks, images
    ensures StoresConsistent(chunks, materials, images)
    ensures ChunkPos(0, 0) in chunks.chunks
    ensures chunks.chunks.Keys == old(chunks.chunks.Keys) + {ChunkPos(0, 0)}
    ensures chunks.chunks == old(chunks.chunks)[ChunkPos(0, 0) := chunks.chunks[ChunkPos(0, 0)]]
    ensures chunks.chunks[ChunkPos(0, 0)] == MaterialId(old(materials.nextIndex))
    ensures chunks.chunks[ChunkPos(0, 0)] !in old(materials.materials)
    ensures materials.nextIndex == old(materials.nextIndex) + 1
    ensures materials.materials == old(materials.materials)[chunks.chunks[ChunkPos(0, 0)] :=
              ChunkMaterial(Chunk(ImageId(old(images.nextIndex))))]
    ensures ImageId(old(images.nextIndex)) !in old(images.rasters)
    ensures images.nextIndex == old(images.nextIndex) + 1
    ensures images.rasters == old(images.rasters)[ImageId(old(images.nextIndex)) := EmptyRaster()]
    ensures centre == Vec2(16.0, 16.0)
  {
    var material;
    material, centre := ChunkBundle(ChunkPos(0, 0), materials, chunks, images);
  }
}
