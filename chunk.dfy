/** Chunk tile data: the 32×32 one-byte-per-cell raster of each chunk, the image and material
    stores that hold the rasters, the chunk index and the placement of a new chunk. */
module ChunkStore {
  import opened Common
  import opened Tiles

  /** Side length of a chunk, in tiles. */
  const CHUNK_SIZE: nat := 32
  /** Number of cells in one chunk raster. */
  const CELL_COUNT: nat := CHUNK_SIZE * CHUNK_SIZE

  /** An unsigned 32-bit coordinate. */
  type U32 = n: int | 0 <= n < 0x1_0000_0000

  /** The pixel bytes of a chunk image: CELL_COUNT cells, row after row. */
  type Raster = s: seq<Byte> | |s| == CELL_COUNT witness seq(CELL_COUNT, _ => 0)

  /** A position in chunk space; chunk (x, y) covers world tiles [32x, 32x + 32) × [32y, 32y + 32). */
  datatype ChunkPos = ChunkPos(x: int, y: int)

  /** A handle into the image store. */
  datatype ImageId = ImageId(index: nat)

  /** A handle into the material store. */
  datatype MaterialId = MaterialId(index: nat)

  /** A chunk is nothing but the handle of its raster image. */
  datatype Chunk = Chunk(image: ImageId)

  /** The part of a chunk material the tile logic sees: the chunk whose raster it samples. */
  datatype ChunkMaterial = ChunkMaterial(tileData: Chunk)

  // ---------------------------------------------------------------------------------------
  // Rasters as values
  // ---------------------------------------------------------------------------------------

  /** Offset of pixel (x, y) in a 32×32 single-byte image, or None when (x, y) lies outside it. */
  function PixelIndex(x: int, y: int): (r: Option<nat>)
    ensures r.Some? <==> 0 <= x < CHUNK_SIZE && 0 <= y < CHUNK_SIZE
    ensures r.Some? ==> r.value < CELL_COUNT && r.value / CHUNK_SIZE == y && r.value % CHUNK_SIZE == x
  {
    if 0 <= x < CHUNK_SIZE && 0 <= y < CHUNK_SIZE then Some(y * CHUNK_SIZE + x) else None
  }

  /** The byte stored at column x, row y. */
  function CellAt(r: Raster, x: nat, y: nat): Byte
    requires x < CHUNK_SIZE && y < CHUNK_SIZE
  {
    r[y * CHUNK_SIZE + x]
  }

  /** The raster of a freshly created chunk: cell i holds i mod 9. */
  function EmptyRaster(): (r: Raster)
    ensures forall i :: 0 <= i < CELL_COUNT ==> r[i] == i % 9
    ensures forall i :: 0 <= i < CELL_COUNT ==> Decode(r[i]).Ok? && r[i] != Encode(Empty)
  {
    seq(CELL_COUNT, i => i % 9)
  }

  /** Reading a cell of a present raster: None outside the raster or for a byte that names no tile. */
  function ReadCell(r: Raster, x: U32, y: U32): (t: Option<Tile>)
    ensures t.Some? <==> x < CHUNK_SIZE && y < CHUNK_SIZE && CellAt(r, x, y) <= 9
    ensures t.Some? ==> x < CHUNK_SIZE && y < CHUNK_SIZE && Encode(t.value) == CellAt(r, x, y)
  {
    match PixelIndex(x, y)
    case None => None
    case Some(i) =>
      match Decode(r[i])
      case Ok(tile) => Some(tile)
      case Err => None
  }

  /** Writing a tile at column x of the vertically flipped row 31 - y; an x outside the raster
      writes nothing. */
  function WriteCell(r: Raster, x: U32, y: U32, t: Tile): (w: Raster)
    requires y < CHUNK_SIZE
    ensures x < CHUNK_SIZE ==> CellAt(w, x, CHUNK_SIZE - 1 - y) == Encode(t)
    ensures x >= CHUNK_SIZE ==> w == r
    ensures forall i :: 0 <= i < CELL_COUNT && i != (CHUNK_SIZE - 1 - y) * CHUNK_SIZE + x ==> w[i] == r[i]
  {
    match PixelIndex(x, CHUNK_SIZE - 1 - y)
    case None => r
    case Some(i) => r[i := Encode(t)]
  }

  /** A write changes the one flipped cell and no other cell. */
  lemma WriteCellOnlyTarget(r: Raster, x: U32, y: U32, t: Tile, cx: nat, cy: nat)
    requires y < CHUNK_SIZE && cx < CHUNK_SIZE && cy < CHUNK_SIZE
    ensures CellAt(WriteCell(r, x, y, t), cx, cy)
              == if cx == x && cy == CHUNK_SIZE - 1 - y then Encode(t) else CellAt(r, cx, cy)
  {
  }

  /** Reading the flipped row after a write gives back the written tile. */
  lemma SetThenGetFlipped(r: Raster, x: U32, y: U32, t: Tile)
    requires x < CHUNK_SIZE && y < CHUNK_SIZE
    ensures ReadCell(WriteCell(r, x, y, t), x, CHUNK_SIZE - 1 - y) == Some(t)
  {
    var got := ReadCell(WriteCell(r, x, y, t), x, CHUNK_SIZE - 1 - y);
    EncodeInjective(got.value, t);
  }

  /** Reading the same coordinates that were written never sees the write (row y and row
      31 - y always differ), so the plain round trip fails whenever the old cell held another tile. */
  lemma SetThenGetSameCoordinates(r: Raster, x: U32, y: U32, t: Tile)
    requires x < CHUNK_SIZE && y < CHUNK_SIZE
    ensures ReadCell(WriteCell(r, x, y, t), x, y) == ReadCell(r, x, y)
    ensures ReadCell(r, x, y) != Some(t) ==> ReadCell(WriteCell(r, x, y, t), x, y) != Some(t)
  {
    WriteCellOnlyTarget(r, x, y, t, x, y);
  }

  /** Every cell of a fresh chunk decodes, to a tile other than Empty, following the i mod 9 pattern. */
  lemma EmptyChunkTiles(x: U32, y: U32)
    requires x < CHUNK_SIZE && y < CHUNK_SIZE
    ensures ReadCell(EmptyRaster(), x, y).Some?
    ensures ReadCell(EmptyRaster(), x, y).value != Empty
    ensures Encode(ReadCell(EmptyRaster(), x, y).value) == (y * CHUNK_SIZE + x) % 9
  {
  }

  // ---------------------------------------------------------------------------------------
  // Asset stores and the chunk index
  // ---------------------------------------------------------------------------------------

  /** The image store: the rasters that are present, by handle, and the next handle to hand out. */
  class Images {
    var rasters: map<ImageId, Raster>
    var nextIndex: nat

    ghost predicate Valid()
      reads this
    {
      forall h :: h in rasters ==> h.index < nextIndex
    }

    constructor ()
      ensures Valid() && rasters == map[] && nextIndex == 0
    {
      rasters := map[];
      nextIndex := 0;
    }

    /** Stores a raster under a handle no image had before. */
    method Add(r: Raster) returns (h: ImageId)
      requires Valid()
      modifies this
      ensures Valid()
      ensures h == ImageId(old(nextIndex)) && h !in old(rasters)
      ensures nextIndex == old(nextIndex) + 1
      ensures rasters == old(rasters)[h := r]
    {
      h := ImageId(nextIndex);
      rasters := rasters[h := r];
      nextIndex := nextIndex + 1;
    }
  }

  /** The chunk-material store, by handle. */
  class Materials {
    var materials: map<MaterialId, ChunkMaterial>
    var nextIndex: nat

    ghost predicate Valid()
      reads this
    {
      forall h :: h in materials ==> h.index < nextIndex
    }

    constructor ()
      ensures Valid() && materials == map[] && nextIndex == 0
    {
      materials := map[];
      nextIndex := 0;
    }

    /** Stores a material under a handle no material had before. */
    method Add(m: ChunkMaterial) returns (h: MaterialId)
      requires Valid()
      modifies this
      ensures Valid()
      ensures h == MaterialId(old(nextIndex)) && h !in old(materials)
      ensures nextIndex == old(nextIndex) + 1
      ensures materials == old(materials)[h := m]
    {
      h := MaterialId(nextIndex);
      materials := materials[h := m];
      nextIndex := nextIndex + 1;
    }
  }

  /** The chunk index: the material of the chunk at each chunk position. */
  class Chunks {
    var chunks: map<ChunkPos, MaterialId>

    /** The default, empty index. */
    constructor ()
      ensures chunks == map[]
    {
      chunks := map[];
    }
  }

  // ---------------------------------------------------------------------------------------
  // Chunk operations
  // ---------------------------------------------------------------------------------------

  /** Creates the image of a fresh chunk, filled with the i mod 9 pattern. */
  method EmptyChunk(images: Images) returns (chunk: Chunk)
    requires images.Valid()
    modifies images
    ensures images.Valid()
    ensures chunk.image == ImageId(old(images.nextIndex)) && chunk.image !in old(images.rasters)
    ensures images.nextIndex == old(images.nextIndex) + 1
    ensures images.rasters == old(images.rasters)[chunk.image := EmptyRaster()]
  {
    var h := images.Add(EmptyRaster());
    chunk := Chunk(h);
  }

  /** The tile at (x, y) of a chunk, without any row flip: None when the chunk's image is not
      present, when (x, y) lies outside the raster, or when the stored byte names no tile. */
  function GetTileAt(chunk: Chunk, images: Images, x: U32, y: U32): (t: Option<Tile>)
    reads images
    ensures t.Some? <==>
      chunk.image in images.rasters && x < CHUNK_SIZE && y < CHUNK_SIZE
      && CellAt(images.rasters[chunk.image], x, y) <= 9
    ensures t.Some? ==>
      chunk.image in images.rasters && x < CHUNK_SIZE && y < CHUNK_SIZE
      && Encode(t.value) == CellAt(images.rasters[chunk.image], x, y)
  {
    if chunk.image in images.rasters then ReadCell(images.rasters[chunk.image], x, y) else None
  }

  /** Writes a tile into column x, row 31 - y of the chunk's raster; does nothing when the
      chunk's image is not present. */
  method SetTileAt(chunk: Chunk, images: Images, x: U32, y: U32, tile: Tile)
    requires chunk.image in images.rasters ==> y < CHUNK_SIZE
    modifies images
    ensures images.nextIndex == old(images.nextIndex)
    ensures chunk.image !in old(images.rasters) ==> images.rasters == old(images.rasters)
    ensures chunk.image in old(images.rasters) ==>
      images.rasters == old(images.rasters)[chunk.image := WriteCell(old(images.rasters)[chunk.image], x, y, tile)]
    ensures x < CHUNK_SIZE && chunk.image in images.rasters ==>
      GetTileAt(chunk, images, x, CHUNK_SIZE - 1 - y) == Some(tile)
  {
    if chunk.image !in images.rasters {
      return;
    }
    var raster := images.rasters[chunk.image];
    images.rasters := images.rasters[chunk.image := WriteCell(raster, x, y, tile)];
    if x < CHUNK_SIZE {
      SetThenGetFlipped(raster, x, y, tile);
    }
  }

  /** World-space centre of the quad drawn for the chunk at pos. */
  function ChunkCentre(pos: ChunkPos): (c: Vec2)
    ensures c.x - ((CHUNK_SIZE / 2) as real) == (CHUNK_SIZE * pos.x) as real && c.y - ((CHUNK_SIZE / 2) as real) == (CHUNK_SIZE * pos.y) as real
  {
    Vec2((pos.x as real + 0.5) * CHUNK_SIZE as real, (pos.y as real + 0.5) * CHUNK_SIZE as real)
  }

  /** Creates a chunk with a fresh material and a fresh raster, records it in the index at pos
      (replacing any chunk there) and returns where its quad is placed. */
  method ChunkBundle(pos: ChunkPos, materials: Materials, chunks: Chunks, images: Images)
    returns (material: MaterialId, centre: Vec2)
    requires materials.Valid() && images.Valid()
    modifies materials, chunks, images
    ensures materials.Valid() && images.Valid()
    ensures material == MaterialId(old(materials.nextIndex)) && material !in old(materials.materials)
    ensures materials.nextIndex == old(materials.nextIndex) + 1
    ensures materials.materials
              == old(materials.materials)[material := ChunkMaterial(Chunk(ImageId(old(images.nextIndex))))]
    ensures images.nextIndex == old(images.nextIndex) + 1
    ensures images.rasters == old(images.rasters)[ImageId(old(images.nextIndex)) := EmptyRaster()]
    ensures chunks.chunks == old(chunks.chunks)[pos := material]
    ensures centre == ChunkCentre(pos)
  {
    var chunk := EmptyChunk(images);
    material := materials.Add(ChunkMaterial(chunk));
    chunks.chunks := chunks.chunks[pos := material];
    centre := ChunkCentre(pos);
  }
}
