/** Fixed configuration of the level editor: grid dimensions and the tile palette. */
module Config {

  /** Number of rows of the level grid. */
  const ROWS: nat := 15

  /** Number of columns of the level grid. */
  const COLS: nat := 16

  /** The distinguished empty (floor) tile; also what erasing writes. */
  const EMPTY: char := '.'

  /** The selectable tiles, in palette order. */
  const TILE_TYPES: seq<char> := ['.', 'w', 'h', 'p', 'k', 'd', '<', '^', '>', 'v', 'c', 'r']

  /** A tile the palette can offer as a brush. */
  predicate IsTile(t: char)
  {
    t in TILE_TYPES
  }

  /** The palette lists twelve distinct tiles and starts with the empty tile. */
  lemma PaletteShape()
    ensures |TILE_TYPES| == 12
    ensures TILE_TYPES[0] == EMPTY && IsTile(EMPTY)
    ensures forall i, j :: 0 <= i < j < |TILE_TYPES| ==> TILE_TYPES[i] != TILE_TYPES[j]
  {
  }

}
