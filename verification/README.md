# Octoroq level editor — verified model of the grid-editing core

The Octoroq level builder is a small web editor for tile maps. A fixed grid of
15 rows by 16 columns holds one-character tiles. A palette of twelve tiles sets
the current brush. Dragging with the mouse paints the brush into the cells the
pointer crosses; dragging with the right button erases them back to the floor
tile `.`. The editor shows a live "level string": one line per row, each row
written as `"<tiles>",`.

This project models that core as pure Dafny functions and proves what it
promises:

- `Config`: the grid dimensions, the empty tile and the ordered palette.
- `Grid`: the grid as `seq<seq<char>>`, its fixed-dimension invariant, the
  all-empty initial grid, and `SetCell`, the copy-and-write behind every cell
  edit.
- `Session`: the editor `State` (grid, brush, drawing flag, mode), the `Event`
  datatype (`Down(r, c, button)`, `Enter(r, c)`, `Up`, `SelectBrush(t)`), the
  transition `Step`, and `Run`, which folds `Step` over an event stream.
  Lemmas cover the drag: the mode is fixed at the press, the brush is read at
  each event, a release edits nothing, hovering without a drag edits nothing,
  and cells no later event names keep their value.
- `Export`: `Serialize`, the level string. `Parse` is an independent inverse
  of it. The lemmas prove the round trip in both directions, the number and
  width of the lines, and the export of the initial grid.
- `Wrappers`: an `Option` type for the parser.

Behaviour of the code worth knowing, which the model keeps:

- A release keeps the stored mode. The code never resets it, and the next
  press overwrites it.
- `SelectBrush` accepts any character, because `setBrush` does not check its
  argument. Palette-only states are proved as an invariant (`RunValid`) that
  holds when every selection comes from the palette.
- The code replaces the grid on every entry while drawing, including repeated
  entries of the same cell. Rewriting a value a cell already holds changes
  nothing (`EnterCorrectCellNoop`). A drag changes no cell outside the cells
  it presses or enters (`UntouchedCellKept`); from the empty grid, painting
  across three cells changes exactly those three (`PaintRowExample`).

## Model

| member | source | states |
|---|---|---|
| Config.PaletteShape | src/App.tsx:11-13 | the palette holds twelve distinct tiles, the first being the empty tile `.` |
| Grid.Initial | src/App.tsx:43-47 | the initial grid has ROWS rows of COLS cells, every cell `.` |
| Grid.SetCell | src/App.tsx:64-70 | a cell edit keeps the dimensions, writes the tile at (r, c), and keeps every other cell |
| Grid.SetCellShaped | src/App.tsx:64-70 | a cell edit on an in-bounds cell keeps the 15 x 16 shape |
| Grid.SetCellTiles | src/App.tsx:64-70 | writing a palette tile into a palette-only grid keeps it palette-only |
| Grid.SetCellSame | src/App.tsx:64-70 | writing the value a cell already holds yields an equal grid |
| Grid.SetCellTwice | src/App.tsx:64-70 | a second edit of the same cell overrides the first |
| Session.Init | src/App.tsx:43-54 | the editor starts with an all-`.` 15 x 16 grid, brush `.`, not drawing, mode paint, which satisfies the palette invariant `Valid` |
| Session.Fill | src/App.tsx:67 | an edit writes `.` when erasing and the brush when painting, so it writes a palette tile whenever the brush is one; `Step`'s ensures pin down where it is written |
| Session.ModeOf | src/App.tsx:129 | a press selects erase exactly when the button is 2, paint otherwise |
| Session.Step | src/App.tsx:57-136 | a press sets drawing, takes its mode from the button and edits only the pressed cell (`.` for button 2, else the brush); entering a cell edits nothing while idle and, while drawing, edits only that cell with the stored mode and current brush; a release clears drawing and changes nothing else; a palette click changes only the brush; the grid keeps its shape |
| Session.Run | src/App.tsx:127-136 | processing any stream of in-bounds events keeps the grid 15 x 16 |
| Session.StepValid | src/App.tsx:77 | one event keeps a shaped palette-only grid and a palette brush when any selected brush is a palette tile |
| Session.RunValid | src/App.tsx:11-13 | every state reached through palette-only selections has a shaped grid of palette tiles and a palette brush |
| Session.ModeFixedDuringDrag | src/App.tsx:134-136 | with no new press, the mode never changes, so entering cells repeats the mode fixed at the press |
| Session.IdleHoverKeepsGrid | src/App.tsx:134-135 | starting idle and with no press, any mix of hovers, releases and brush changes leaves the grid unchanged and the editor idle |
| Session.UntouchedCellKept | src/App.tsx:64-70 | a cell that no later press or entry names keeps its value, whatever brushes are selected meanwhile |
| Session.DownThenUp | src/App.tsx:127-133 | a press followed by a release edits only the pressed cell, writing `.` for button 2 and the brush otherwise, and leaves the editor idle |
| Session.EraseIgnoresBrush | src/App.tsx:67 | a button-2 press writes `.` and yields the same grid whatever the brush |
| Session.EnterIdempotent | src/App.tsx:134-136 | entering the same cell twice has the effect of entering it once |
| Session.EnterCorrectCellNoop | src/App.tsx:134-135 | during a drag, entering a cell that already holds what the drag writes leaves the whole state unchanged, so repeated entries of a cell, with the brush unchanged since its earlier entry, have no effect |
| Session.BrushChangeMidDrag | src/App.tsx:77 | a brush change during a drag changes neither the mode nor any cell that no later event names |
| Session.PaintRowExample | src/App.tsx:127-136 | brush `w`, a press at (0, 0), entries over (0, 1), (0, 0), (0, 1), (0, 2), (0, 2), then a release: row 0 is `www` followed by 13 `.`, the other rows are unchanged, and the editor is idle |
| Export.Serialize | src/App.tsx:165 | the level string is the first row's literal, then a newline and the rest of the rows' export; an empty grid gives the empty string; its meaning is pinned by `ExportLines`, `ParseSerialize` and `SerializeParse` |
| Export.RowLiteral | src/App.tsx:165 | a row literal is the row between a leading `"` and a trailing `",`, three characters longer than the row |
| Export.ExportLines | src/App.tsx:165 | the level string of a non-empty grid without newline tiles splits into one line per row, line i being the literal of row i |
| Export.ExportShape | src/App.tsx:165 | a 15 x 16 grid exports 15 lines of 19 characters each, 299 characters in all |
| Export.ParseSerialize | src/App.tsx:165 | parsing the level string of a 15 x 16 grid returns that grid |
| Export.SerializeParse | src/App.tsx:165 | any text that parses to a grid is exactly that grid's level string, so distinct grids that parse export to distinct strings |
| Export.TilesNoNewlines | src/App.tsx:11-13 | no palette tile is a newline, so a palette-only grid has no newline cell |
| Export.ReachableRoundTrip | src/App.tsx:165 | every grid reachable from the initial state through in-bounds cell events and palette clicks exports to a level string that parses back to that grid |
| Export.InitialExport | src/App.tsx:43-47 | the initial grid exports 15 lines, each `"................",` |

## Left out

- Rendering is left out: the sprite buttons, the sprite URL map, the fallback colours and all styles. It is visual only and calls browser and React code.
- React hook mechanics are left out: state batching, closure capture, and adding or removing the window listener. The global mouse-up listener is the `Up` event.
- `preventDefault` on mouse-down and on the context menu is left out. It is a host side effect with no effect on the grid.
- The uppercase `V` alias in the sprite map is left out. It is not in the palette and only affects rendering. Grid cells are any character, so a `V` can still be represented.
- Out-of-range coordinates are excluded by `Step`'s precondition. The code only attaches handlers to rendered cells, so it never produces them.
- Grid replacements are not counted. The code replaces the grid on every entry during a drag, even when the value is unchanged. The model states which cells change instead.
- `Parse` is not in the source. It is the inverse that the round-trip lemmas use to pin down the export format.
- Export.ExportLines: requires that no cell holds a newline; a newline tile would add lines to the level string. Palette tiles never are newlines (`TilesNoNewlines`), so every reachable grid qualifies (`ReachableRoundTrip`).
- Export.ExportShape: carries the same no-newline precondition, for the same reason.
- Export.ParseSerialize: carries the same no-newline precondition, for the same reason.
