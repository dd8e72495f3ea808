/**
 * The paint session: the editor state (grid, brush, drawing flag, mode) and
 * its transition on each pointer or palette event.
 */
module Session {
  import opened Config
  import opened Grid

  /** What a drag writes: the brush (Paint) or the empty tile (Erase). */
  datatype Mode = Paint | Erase

  datatype State = State(grid: Grid, brush: char, drawing: bool, mode: Mode)

  /**
   * Down: a mouse button pressed on cell (r, c); Enter: the pointer entered
   * cell (r, c); Up: a mouse button released anywhere in the window;
   * SelectBrush: a palette button clicked.
   */
  datatype Event =
    | Down(r: nat, c: nat, button: int)
    | Enter(r: nat, c: nat)
    | Up
    | SelectBrush(t: char)

  /** Cell events only ever come from rendered cells, so they are in bounds. */
  predicate InBounds(e: Event)
  {
    match e
    case Down(r, c, _) => InGrid(r, c)
    case Enter(r, c) => InGrid(r, c)
    case _ => true
  }

  predicate AllInBounds(evs: seq<Event>)
  {
    forall k :: 0 <= k < |evs| ==> InBounds(evs[k])
  }

  /** The event names cell (r, c). */
  predicate Targets(e: Event, r: nat, c: nat)
  {
    (e.Down? || e.Enter?) && e.r == r && e.c == c
  }

  /** The palette offers only palette tiles. */
  predicate PaletteOnly(evs: seq<Event>)
  {
    forall k :: 0 <= k < |evs| && evs[k].SelectBrush? ==> IsTile(evs[k].t)
  }

  predicate NoDown(evs: seq<Event>)
  {
    forall k :: 0 <= k < |evs| ==> !evs[k].Down?
  }

  /** The state the editor starts in. */
  function Init(): (s: State)
    ensures Shaped(s.grid) && TilesOnly(s.grid)
    ensures forall i, j :: 0 <= i < ROWS && 0 <= j < COLS ==> s.grid[i][j] == EMPTY
    ensures s.brush == EMPTY && !s.drawing && s.mode == Paint
    ensures Valid(s)
  {
    PaletteShape();
    State(Initial(), EMPTY, false, Paint)
  }

  /** The mode a drag takes from the button that started it. */
  function ModeOf(button: int): (m: Mode)
    ensures m == Erase <==> button == 2
  {
    if button == 2 then Erase else Paint
  }

  /** The tile one edit writes: the empty tile when erasing, the brush otherwise. */
  function Fill(m: Mode, brush: char): (t: char)
    ensures m == Erase ==> t == EMPTY
    ensures m == Paint ==> t == brush
    ensures IsTile(brush) ==> IsTile(t)
  {
    PaletteShape();
    if m == Erase then EMPTY else brush
  }

  /** One event. */
  function Step(s: State, e: Event): (s2: State)
    requires Shaped(s.grid) && InBounds(e)
    ensures Shaped(s2.grid)
    // a press starts a drag whose mode comes from the button and edits the pressed cell at once
    ensures e.Down? ==>
      && s2.drawing && s2.brush == s.brush
      && (s2.mode == Erase <==> e.button == 2)
      && ChangedOnlyAt(s.grid, s2.grid, e.r, e.c, if e.button == 2 then EMPTY else s.brush)
    // hovering with no drag in progress changes nothing
    ensures e.Enter? && !s.drawing ==> s2 == s
    // entering a cell during a drag repeats the stored mode with the current brush
    ensures e.Enter? && s.drawing ==>
      && s2.drawing && s2.brush == s.brush && s2.mode == s.mode
      && ChangedOnlyAt(s.grid, s2.grid, e.r, e.c, if s.mode == Erase then EMPTY else s.brush)
    // a release ends the drag and edits nothing
    ensures e.Up? ==> !s2.drawing && s2.grid == s.grid && s2.brush == s.brush && s2.mode == s.mode
    // a palette click changes the brush and nothing else
    ensures e.SelectBrush? ==> s2.brush == e.t && s2.grid == s.grid && s2.drawing == s.drawing && s2.mode == s.mode
  {
    match e
    case Down(r, c, button) =>
      var m := ModeOf(button);
      SetCellShaped(s.grid, r, c, Fill(m, s.brush));
      s.(drawing := true, mode := m, grid := SetCell(s.grid, r, c, Fill(m, s.brush)))
    case Enter(r, c) =>
      if s.drawing then
        SetCellShaped(s.grid, r, c, Fill(s.mode, s.brush));
        s.(grid := SetCell(s.grid, r, c, Fill(s.mode, s.brush)))
      else s
    case Up => s.(drawing := false)
    case SelectBrush(t) => s.(brush := t)
  }

  /** A stream of events, processed one at a time in order. */
  function Run(s: State, evs: seq<Event>): (s2: State)
    requires Shaped(s.grid) && AllInBounds(evs)
    ensures Shaped(s2.grid)
    ensures |evs| == 0 ==> s2 == s
    decreases |evs|
  {
    if |evs| == 0 then s else Run(Step(s, evs[0]), evs[1..])
  }

  /** Running a concatenation runs its halves in turn. */
  lemma {:induction false} RunAppend(s: State, a: seq<Event>, b: seq<Event>)
    requires Shaped(s.grid) && AllInBounds(a) && AllInBounds(b)
    ensures AllInBounds(a + b)
    ensures Run(s, a + b) == Run(Run(s, a), b)
    decreases |a|
  {
    assert AllInBounds(a + b) by {
      forall k | 0 <= k < |a + b| ensures InBounds((a + b)[k]) {
        if k < |a| { assert (a + b)[k] == a[k]; } else { assert (a + b)[k] == b[k - |a|]; }
      }
    }
    if |a| == 0 {
      assert a + b == b;
    } else {
      assert (a + b)[1..] == a[1..] + b;
      RunAppend(Step(s, a[0]), a[1..], b);
    }
  }

  /** The editor's state invariant: a shaped grid of palette tiles and a palette brush. */
  predicate Valid(s: State)
  {
    Shaped(s.grid) && TilesOnly(s.grid) && IsTile(s.brush)
  }

  /** An event keeps the invariant as long as the brush is chosen from the palette. */
  lemma StepValid(s: State, e: Event)
    requires Valid(s) && InBounds(e)
    requires e.SelectBrush? ==> IsTile(e.t)
    ensures Valid(Step(s, e))
  {
  }

  /** Every reachable state holds only palette tiles in a ROWS x COLS grid. */
  lemma {:induction false} RunValid(s: State, evs: seq<Event>)
    requires Valid(s) && AllInBounds(evs) && PaletteOnly(evs)
    ensures Valid(Run(s, evs))
    decreases |evs|
  {
    if |evs| > 0 {
      StepValid(s, evs[0]);
      RunValid(Step(s, evs[0]), evs[1..]);
    }
  }

  /** Without a new press the mode is never re-evaluated: it stays the one fixed at the last press. */
  lemma {:induction false} ModeFixedDuringDrag(s: State, evs: seq<Event>)
    requires Shaped(s.grid) && AllInBounds(evs) && NoDown(evs)
    ensures Run(s, evs).mode == s.mode
    decreases |evs|
  {
    if |evs| > 0 {
      ModeFixedDuringDrag(Step(s, evs[0]), evs[1..]);
    }
  }

  /** Without a press, nothing starts a drag, so hovering from Idle never edits the grid. */
  lemma {:induction false} IdleHoverKeepsGrid(s: State, evs: seq<Event>)
    requires Shaped(s.grid) && AllInBounds(evs) && NoDown(evs)
    requires !s.drawing
    ensures Run(s, evs).grid == s.grid && !Run(s, evs).drawing
    decreases |evs|
  {
    if |evs| > 0 {
      IdleHoverKeepsGrid(Step(s, evs[0]), evs[1..]);
    }
  }

  /** A cell that no later event names keeps its value, whatever brushes are chosen meanwhile. */
  lemma {:induction false} UntouchedCellKept(s: State, evs: seq<Event>, r: nat, c: nat)
    requires Shaped(s.grid) && AllInBounds(evs) && InGrid(r, c)
    requires forall k :: 0 <= k < |evs| ==> !Targets(evs[k], r, c)
    ensures Run(s, evs).grid[r][c] == s.grid[r][c]
    decreases |evs|
  {
    if |evs| > 0 {
      assert !Targets(evs[0], r, c);
      UntouchedCellKept(Step(s, evs[0]), evs[1..], r, c);
    }
  }

  /** A press followed by a release edits exactly the pressed cell, and leaves the editor idle. */
  lemma DownThenUp(s: State, r: nat, c: nat, button: int)
    requires Shaped(s.grid) && InGrid(r, c)
    ensures AllInBounds([Down(r, c, button), Up])
    ensures var s2 := Run(s, [Down(r, c, button), Up]);
      && !s2.drawing && s2.brush == s.brush && s2.mode == ModeOf(button)
      && ChangedOnlyAt(s.grid, s2.grid, r, c, if button == 2 then EMPTY else s.brush)
  {
  }

  /** A right-button press erases whatever brush is selected. */
  lemma EraseIgnoresBrush(s: State, r: nat, c: nat, b: char)
    requires Shaped(s.grid) && InGrid(r, c)
    ensures Step(s, Down(r, c, 2)).grid == Step(s.(brush := b), Down(r, c, 2)).grid
    ensures Step(s, Down(r, c, 2)).grid[r][c] == EMPTY
  {
  }

  /** Entering the same cell twice in a row has the effect of entering it once. */
  lemma EnterIdempotent(s: State, r: nat, c: nat)
    requires Shaped(s.grid) && InGrid(r, c)
    ensures Step(Step(s, Enter(r, c)), Enter(r, c)) == Step(s, Enter(r, c))
  {
    if s.drawing {
      SetCellTwice(s.grid, r, c, Fill(s.mode, s.brush), Fill(s.mode, s.brush));
    }
  }

  /**
   * A brush change during a drag changes the tile written to cells entered
   * afterwards, but not the mode, and not cells already painted.
   */
  lemma {:induction false} BrushChangeMidDrag(s: State, t: char, evs: seq<Event>, r: nat, c: nat)
    requires Shaped(s.grid) && AllInBounds(evs) && InGrid(r, c)
    requires forall k :: 0 <= k < |evs| ==> !Targets(evs[k], r, c)
    ensures AllInBounds([SelectBrush(t)] + evs)
    ensures Run(s, [SelectBrush(t)] + evs).grid[r][c] == s.grid[r][c]
    ensures NoDown(evs) ==> Run(s, [SelectBrush(t)] + evs).mode == s.mode
  {
    RunAppend(s, [SelectBrush(t)], evs);
    assert [SelectBrush(t)][1..] == [];
    var s1 := Run(s, [SelectBrush(t)]);
    UntouchedCellKept(s1, evs, r, c);
    if NoDown(evs) {
      ModeFixedDuringDrag(s1, evs);
    }
  }

  /**
   * Paint 'w' along the first row from (0, 0) to (0, 2), re-entering cells on
   * the way: the first row becomes three 'w' tiles followed by empty tiles,
   * and no other row changes.
   */
  lemma PaintRowExample()
    ensures var evs := [SelectBrush('w'), Down(0, 0, 0), Enter(0, 1), Enter(0, 0), Enter(0, 1), Enter(0, 2), Enter(0, 2), Up];
      && AllInBounds(evs)
      && var s := Run(Init(), evs);
      && s.grid[0] == "www............."
      && (forall i :: 1 <= i < ROWS ==> s.grid[i] == Init().grid[i])
      && !s.drawing && s.brush == 'w' && s.mode == Paint
  {
  }

  /**
   * Entering, during a drag, a cell that already holds what the drag writes
   * (the starting cell, or any cell entered before with the same brush)
   * changes nothing, however often it happens.
   */
  lemma EnterCorrectCellNoop(s: State, r: nat, c: nat)
    requires Shaped(s.grid) && InGrid(r, c) && s.drawing
    requires s.grid[r][c] == Fill(s.mode, s.brush)
    ensures Step(s, Enter(r, c)) == s
  {
    SetCellSame(s.grid, r, c);
  }

}
