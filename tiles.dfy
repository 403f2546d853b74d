/** The tile kinds of the editor and their one-byte raster encoding. */
module Tiles {

  /** An unsigned 8-bit value, the content of one raster cell. */
  type Byte = b: int | 0 <= b < 256

  /** The ten tile kinds, in encoding order. */
  datatype Tile = Elevator | Block | Flat | Right | Left | Hold | Conditional | Duplicate | Spike | Empty

  /** Outcome of decoding a byte: a tile, or the unit error for a byte that names no tile. */
  datatype DecodeResult = Ok(tile: Tile) | Err

  /** The byte a tile is stored as. */
  function Encode(t: Tile): (b: Byte)
    ensures b <= 9
  {
    match t
    case Elevator => 0
    case Block => 1
    case Flat => 2
    case Right => 3
    case Left => 4
    case Hold => 5
    case Conditional => 6
    case Duplicate => 7
    case Spike => 8
    case Empty => 9
  }

  /** The tile a byte stands for; every byte above 9 is rejected. */
  function Decode(b: Byte): (r: DecodeResult)
    ensures r.Ok? <==> b <= 9
    ensures r.Ok? ==> Encode(r.tile) == b
  {
    if b == 0 then Ok(Elevator)
    else if b == 1 then Ok(Block)
    else if b == 2 then Ok(Flat)
    else if b == 3 then Ok(Right)
    else if b == 4 then Ok(Left)
    else if b == 5 then Ok(Hold)
    else if b == 6 then Ok(Conditional)
    else if b == 7 then Ok(Duplicate)
    else if b == 8 then Ok(Spike)
    else if b == 9 then Ok(Empty)
    else Err
  }

  /** Distinct tiles are stored as distinct bytes. */
  lemma EncodeInjective(t: Tile, u: Tile)
    ensures Encode(t) == Encode(u) ==> t == u
  {
  }

  /** Decoding the encoding of a tile gives the tile back. */
  lemma DecodeEncode(t: Tile)
    ensures Decode(Encode(t)) == Ok(t)
  {
    EncodeInjective(Decode(Encode(t)).tile, t);
  }

  /** Every byte 0..9 is the encoding of exactly one tile. */
  lemma EncodeOnto(b: Byte)
    requires b <= 9
    ensures exists t :: Encode(t) == b
    ensures forall t, u :: Encode(t) == b && Encode(u) == b ==> t == u
  {
    assert Encode(Decode(b).tile) == b;
    forall t, u | Encode(t) == b && Encode(u) == b ensures t == u {
      EncodeInjective(t, u);
    }
  }
}
