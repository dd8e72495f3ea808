/** The level grid: ROWS rows of COLS one-character tiles, replaced wholesale on every edit. */
module Grid {
  import opened Config

  type Grid = seq<seq<char>>

  /** The fixed-dimension invariant: exactly ROWS rows of exactly COLS cells. */
  predicate Shaped(g: Grid)
  {
    |g| == ROWS && forall i :: 0 <= i < |g| ==> |g[i]| == COLS
  }

  /** (r, c) names a cell of a shaped grid. */
  predicate InGrid(r: nat, c: nat)
  {
    r < ROWS && c < COLS
  }

  /** Every cell holds a palette tile. */
  predicate TilesOnly(g: Grid)
  {
    forall i, j :: 0 <= i < |g| && 0 <= j < |g[i]| ==> IsTile(g[i][j])
  }

  /** g2 has the dimensions of g1, holds t at (r, c), and agrees with g1 on every other cell. */
  predicate ChangedOnlyAt(g1: Grid, g2: Grid, r: nat, c: nat, t: char)
  {
    && |g2| == |g1|
    && (forall i :: 0 <= i < |g1| ==> |g2[i]| == |g1[i]|)
    && r < |g1| && c < |g1[r]|
    && g2[r][c] == t
    && (forall i, j :: 0 <= i < |g1| && 0 <= j < |g1[i]| && (i != r || j != c) ==> g2[i][j] == g1[i][j])
  }

  /** The grid the editor starts with: every cell empty. */
  function Initial(): (g: Grid)
    ensures Shaped(g)
    ensures forall i, j :: 0 <= i < |g| && 0 <= j < |g[i]| ==> g[i][j] == EMPTY
    ensures TilesOnly(g)
  {
    seq(ROWS, _ => seq(COLS, _ => EMPTY))
  }

  /** The write performed by one cell edit: a copy of g with t at (r, c). */
  function SetCell(g: Grid, r: nat, c: nat, t: char): (g2: Grid)
    requires r < |g| && c < |g[r]|
    ensures ChangedOnlyAt(g, g2, r, c, t)
  {
    g[r := g[r][c := t]]
  }

  /** A cell edit keeps the grid's dimensions. */
  lemma SetCellShaped(g: Grid, r: nat, c: nat, t: char)
    requires Shaped(g) && InGrid(r, c)
    ensures Shaped(SetCell(g, r, c, t))
  {
  }

  /** Writing a palette tile into a palette-only grid keeps it palette-only. */
  lemma SetCellTiles(g: Grid, r: nat, c: nat, t: char)
    requires r < |g| && c < |g[r]|
    requires TilesOnly(g) && IsTile(t)
    ensures TilesOnly(SetCell(g, r, c, t))
  {
  }

  /** Writing the value a cell already holds leaves the grid as it was. */
  lemma SetCellSame(g: Grid, r: nat, c: nat)
    requires r < |g| && c < |g[r]|
    ensures SetCell(g, r, c, g[r][c]) == g
  {
    assert g[r][c := g[r][c]] == g[r];
  }

  /** A second write to the same cell overrides the first. */
  lemma SetCellTwice(g: Grid, r: nat, c: nat, t1: char, t2: char)
    requires r < |g| && c < |g[r]|
    ensures SetCell(SetCell(g, r, c, t1), r, c, t2) == SetCell(g, r, c, t2)
  {
    assert g[r][c := t1][c := t2] == g[r][c := t2];
  }

}
