/**
 * The level-string export: one line per grid row, each row written as a
 * quoted, comma-terminated literal, lines joined by a newline. A parser
 * for that format is given as the export's inverse.
 */
module Export {
  import opened Wrappers
  import opened Config
  import opened Grid
  import opened Session

  /** One row as a literal: a double quote, the row's tiles in column order, a double quote and a comma. */
  function RowLiteral(row: seq<char>): (line: string)
    ensures |line| == |row| + 3
    ensures line[0] == '"' && line[|row| + 1] == '"' && line[|row| + 2] == ','
    ensures line[1..|row| + 1] == row
  {
    ['"'] + row + ['"', ',']
  }

  /** Lines joined by single newline characters (no newline after the last). */
  function JoinLines(lines: seq<string>): (text: string)
    decreases |lines|
  {
    if |lines| == 0 then ""
    else if |lines| == 1 then lines[0]
    else lines[0] + "\n" + JoinLines(lines[1..])
  }

  /**
   * The export text of a grid: the literal of the first row, then, if more
   * rows follow, a newline and the export of the remaining rows.
   */
  function Serialize(g: Grid): (s: string)
    ensures |g| == 0 ==> s == ""
    ensures |g| == 1 ==> s == RowLiteral(g[0])
    ensures |g| > 1 ==> s == RowLiteral(g[0]) + "\n" + Serialize(g[1..])
  {
    var lines := seq(|g|, i requires 0 <= i < |g| => RowLiteral(g[i]));
    assert |g| > 1 ==> lines[1..] == seq(|g| - 1, i requires 0 <= i < |g| - 1 => RowLiteral(g[1..][i]));
    JoinLines(lines)
  }

  /** The text cut at every newline; the pieces keep no newline, and there is always at least one. */
  function SplitLines(s: string): (lines: seq<string>)
    ensures |lines| >= 1
    ensures forall k :: 0 <= k < |lines| ==> '\n' !in lines[k]
    decreases |s|
  {
    if |s| == 0 then [""]
    else
      var rest := SplitLines(s[1..]);
      if s[0] == '\n' then [""] + rest
      else [[s[0]] + rest[0]] + rest[1..]
  }

  /** No cell of the grid holds a newline. */
  predicate NoNewlines(g: Grid)
  {
    forall i :: 0 <= i < |g| ==> '\n' !in g[i]
  }

  /** The row a literal line encodes, if the line has the literal's shape. */
  function ParseRow(line: string): (row: Option<seq<char>>)
    ensures row.Some? <==> |line| >= 3 && line[0] == '"' && line[|line| - 2..] == "\","
    ensures row.Some? ==> RowLiteral(row.value) == line
  {
    if |line| >= 3 && line[0] == '"' && line[|line| - 2..] == "\"," then
      Some(line[1..|line| - 2])
    else None
  }

  function ParseRows(lines: seq<string>): (rows: Option<Grid>)
    ensures rows.Some? ==> |rows.value| == |lines|
    ensures rows.Some? ==> forall i :: 0 <= i < |lines| ==> ParseRow(lines[i]) == Some(rows.value[i])
    decreases |lines|
  {
    if |lines| == 0 then Some([])
    else match (ParseRow(lines[0]), ParseRows(lines[1..]))
      case (Some(row), Some(rows)) => Some([row] + rows)
      case _ => None
  }

  /** The grid a level string describes, if it is the export of a ROWS x COLS grid. */
  function Parse(s: string): (g: Option<Grid>)
    ensures g.Some? ==> Shaped(g.value)
  {
    match ParseRows(SplitLines(s))
    case Some(rows) => if Shaped(rows) then Some(rows) else None
    case None => None
  }

  /** Joining lines that hold no newline and splitting the result gives the lines back. */
  lemma {:induction false} SplitJoin(lines: seq<string>)
    requires |lines| >= 1
    requires forall k :: 0 <= k < |lines| ==> '\n' !in lines[k]
    ensures SplitLines(JoinLines(lines)) == lines
    decreases |lines|
  {
    if |lines| == 1 {
      SplitNoNewline(lines[0]);
    } else {
      SplitJoin(lines[1..]);
      SplitPrefix(lines[0], JoinLines(lines[1..]));
      assert lines == [lines[0]] + lines[1..];
    }
  }

  /** A text without newline is one line. */
  lemma {:induction false} SplitNoNewline(line: string)
    requires '\n' !in line
    ensures SplitLines(line) == [line]
    decreases |line|
  {
    if |line| > 0 {
      assert line[0] in line;
      assert forall x :: x in line[1..] ==> x in line;
      SplitNoNewline(line[1..]);
      assert [line[0]] + line[1..] == line;
    }
  }

  /** A first line without newline, a newline, then the rest: the first line is split off whole. */
  lemma {:induction false} SplitPrefix(line: string, rest: string)
    requires '\n' !in line
    ensures SplitLines(line + "\n" + rest) == [line] + SplitLines(rest)
    decreases |line|
  {
    var s := line + "\n" + rest;
    if |line| == 0 {
      assert s == "\n" + rest;
      assert s[1..] == rest;
    } else {
      assert line[0] in line;
      assert forall x :: x in line[1..] ==> x in line;
      assert s[0] == line[0];
      assert s[1..] == line[1..] + "\n" + rest;
      SplitPrefix(line[1..], rest);
      assert [line[0]] + line[1..] == line;
    }
  }

  /** Splitting a text and joining the pieces gives the text back. */
  lemma {:induction false} JoinSplit(s: string)
    ensures JoinLines(SplitLines(s)) == s
    decreases |s|
  {
    if |s| > 0 {
      JoinSplit(s[1..]);
      var rest := SplitLines(s[1..]);
      if s[0] == '\n' {
        assert ([""] + rest)[1..] == rest;
        assert s == "\n" + s[1..];
      } else {
        var lines := [[s[0]] + rest[0]] + rest[1..];
        if |rest| == 1 {
          assert rest == [rest[0]];
        } else {
          assert lines[1..] == rest[1..];
          assert JoinLines(rest) == rest[0] + "\n" + JoinLines(rest[1..]);
        }
        assert s == [s[0]] + s[1..];
      }
    }
  }

  /** The export has one line per row, line i being the literal of row i. */
  lemma ExportLines(g: Grid)
    requires |g| >= 1 && NoNewlines(g)
    ensures |SplitLines(Serialize(g))| == |g|
    ensures forall i :: 0 <= i < |g| ==> SplitLines(Serialize(g))[i] == RowLiteral(g[i])
  {
    var lines := seq(|g|, i requires 0 <= i < |g| => RowLiteral(g[i]));
    forall k | 0 <= k < |lines| ensures '\n' !in lines[k] {
      assert lines[k] == ['"'] + g[k] + ['"', ','];
    }
    SplitJoin(lines);
  }

  /** A shaped grid exports ROWS lines of COLS + 3 characters each. */
  lemma ExportShape(g: Grid)
    requires Shaped(g) && NoNewlines(g)
    ensures |SplitLines(Serialize(g))| == ROWS
    ensures forall i :: 0 <= i < ROWS ==> |SplitLines(Serialize(g))[i]| == COLS + 3
    ensures |Serialize(g)| == ROWS * (COLS + 3) + ROWS - 1
  {
    ExportLines(g);
    JoinSplit(Serialize(g));
    JoinLength(SplitLines(Serialize(g)), COLS + 3);
  }

  /** Joining n lines of width w takes n * w characters plus n - 1 newlines. */
  lemma {:induction false} JoinLength(lines: seq<string>, w: nat)
    requires |lines| >= 1
    requires forall k :: 0 <= k < |lines| ==> |lines[k]| == w
    ensures |JoinLines(lines)| == |lines| * w + |lines| - 1
    decreases |lines|
  {
    if |lines| > 1 {
      JoinLength(lines[1..], w);
    }
  }

  /** Parsing an export of a shaped grid gives the grid back. */
  lemma ParseSerialize(g: Grid)
    requires Shaped(g) && NoNewlines(g)
    ensures Parse(Serialize(g)) == Some(g)
  {
    ExportLines(g);
    var lines := SplitLines(Serialize(g));
    ParseRowsLiterals(lines, g);
  }

  lemma {:induction false} ParseRowsLiterals(lines: seq<string>, g: Grid)
    requires |lines| == |g|
    requires forall i :: 0 <= i < |g| ==> lines[i] == RowLiteral(g[i])
    ensures ParseRows(lines) == Some(g)
    decreases |g|
  {
    if |g| > 0 {
      ParseRowOfLiteral(g[0]);
      ParseRowsLiterals(lines[1..], g[1..]);
      assert g == [g[0]] + g[1..];
    }
  }

  /** A row literal parses back to its row. */
  lemma ParseRowOfLiteral(row: seq<char>)
    ensures ParseRow(RowLiteral(row)) == Some(row)
  {
    var l := RowLiteral(row);
    assert l[|l| - 2..] == "\",";
    assert l[1..|l| - 2] == row;
  }

  /** Whatever parses is exactly the export of the grid it parses to, so distinct grids that parse have distinct exports. */
  lemma SerializeParse(s: string, g: Grid)
    requires Parse(s) == Some(g)
    ensures Shaped(g) && NoNewlines(g)
    ensures Serialize(g) == s
  {
    var lines := SplitLines(s);
    assert ParseRows(lines) == Some(g);
    forall i | 0 <= i < |g| ensures '\n' !in g[i] && RowLiteral(g[i]) == lines[i] {
      RowLiteralNoNewline(g[i]);
    }
    SerializeOfLiterals(g, lines);
    JoinSplit(s);
  }

  /** A grid whose row literals are the given lines exports to those lines joined. */
  lemma SerializeOfLiterals(g: Grid, lines: seq<string>)
    requires |lines| == |g|
    requires forall i :: 0 <= i < |g| ==> RowLiteral(g[i]) == lines[i]
    ensures Serialize(g) == JoinLines(lines)
  {
    assert seq(|g|, i requires 0 <= i < |g| => RowLiteral(g[i])) == lines;
  }

  /** A row's literal holds every character of the row. */
  lemma RowLiteralNoNewline(row: seq<char>)
    requires '\n' !in RowLiteral(row)
    ensures '\n' !in row
  {
    assert forall x :: x in row ==> x in RowLiteral(row);
  }

  /** The export of the initial grid: ROWS lines, each a quoted run of COLS empty tiles. */
  lemma InitialExport()
    ensures |SplitLines(Serialize(Initial()))| == ROWS
    ensures forall i :: 0 <= i < ROWS ==> SplitLines(Serialize(Initial()))[i] == "\"................\","
  {
    EmptyGridExport(Initial());
  }

  /** Any all-empty ROWS x COLS grid exports ROWS lines of COLS empty tiles. */
  lemma EmptyGridExport(g: Grid)
    requires Shaped(g) && TilesOnly(g)
    requires forall i, j :: 0 <= i < ROWS && 0 <= j < COLS ==> g[i][j] == EMPTY
    ensures |SplitLines(Serialize(g))| == ROWS
    ensures forall i :: 0 <= i < ROWS ==> SplitLines(Serialize(g))[i] == "\"................\","
  {
    TilesNoNewlines(g);
    ExportLines(g);
    forall i | 0 <= i < ROWS ensures RowLiteral(g[i]) == "\"................\"," {
      EmptyRowLiteral(g[i]);
    }
  }

  /** The literal of a row of COLS empty tiles. */
  lemma EmptyRowLiteral(row: seq<char>)
    requires |row| == COLS && forall j :: 0 <= j < |row| ==> row[j] == EMPTY
    ensures RowLiteral(row) == "\"................\","
  {
    assert row == "................";
  }

  /** Palette tiles are never newlines, so a palette-only grid has no newline cell. */
  lemma TilesNoNewlines(g: Grid)
    requires TilesOnly(g)
    ensures NoNewlines(g)
  {
    PaletteShape();
    forall i | 0 <= i < |g| ensures '\n' !in g[i] {
      forall j | 0 <= j < |g[i]| ensures g[i][j] != '\n' {
        assert IsTile(g[i][j]);
      }
    }
  }

  /**
   * Every grid the editor can reach by palette clicks and cell events exports
   * to a level string that parses back to that grid.
   */
  lemma ReachableRoundTrip(evs: seq<Event>)
    requires AllInBounds(evs) && PaletteOnly(evs)
    ensures Parse(Serialize(Run(Init(), evs).grid)) == Some(Run(Init(), evs).grid)
  {
    RunValid(Init(), evs);
    TilesNoNewlines(Run(Init(), evs).grid);
    ParseSerialize(Run(Init(), evs).grid);
  }

}
