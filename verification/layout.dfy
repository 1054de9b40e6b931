/** Screen layout and the hit tests of the user interface (ui.h, ui.cpp):
    pure integer geometry on 320 x 240 screen coordinates. Drawing is not
    modelled; the rectangles the drawing code fills are, because the hit
    tests are meant to agree with them. */
module Layout {

  const GRID_START_X: int := 20
  const GRID_START_Y: int := 40
  const STEP_WIDTH: int := 16
  const STEP_HEIGHT: int := 12
  const STEP_SPACING: int := 2
  const TRACK_SPACING: int := 3

  const CONTROL_Y: int := 200
  const BPM_X: int := 20
  const PLAY_X: int := 120
  const BPM_UP_X: int := 220
  const BPM_DOWN_X: int := 260

  /** Horizontal distance between step columns, and vertical distance
      between track rows. */
  const COLUMN_PITCH: int := STEP_WIDTH + STEP_SPACING
  const ROW_PITCH: int := STEP_HEIGHT + TRACK_SPACING

  /** Button sizes as `drawInterface` draws them, and as the hit tests add
      them to the buttons' corners. */
  const BUTTON_HEIGHT: int := 25
  const SMALL_BUTTON_WIDTH: int := 30
  const PLAY_BUTTON_WIDTH: int := 60

  const GRID_TRACKS: int := 6
  const GRID_STEPS: int := 16

  /** The point lies in the rectangle `drawStep` fills for cell
      (track, step): `STEP_WIDTH` x `STEP_HEIGHT` pixels from the cell's
      top-left corner. */
  predicate InCell(x: int, y: int, track: int, step: int) {
    && 0 <= track < GRID_TRACKS && 0 <= step < GRID_STEPS
    && GRID_START_X + step * COLUMN_PITCH <= x < GRID_START_X + step * COLUMN_PITCH + STEP_WIDTH
    && GRID_START_Y + track * ROW_PITCH <= y < GRID_START_Y + track * ROW_PITCH + STEP_HEIGHT
  }

  /** The result of `isInGridArea` together with its two reference
      out-parameters as they are left. */
  datatype GridHit = GridHit(hit: bool, track: int, step: int)

  /** `isInGridArea(x, y, track, step)`. Left of or above the grid it returns
      false and leaves the out-parameters alone; otherwise it writes the
      column and row under the point, even when it then returns false
      because the point lies past the grid or in a gap between cells. */
  function IsInGridArea(x: int, y: int, track: int, step: int): (r: GridHit)
    ensures x < GRID_START_X || y < GRID_START_Y ==> r == GridHit(false, track, step)
    ensures x >= GRID_START_X && y >= GRID_START_Y ==>
      r.step == (x - GRID_START_X) / COLUMN_PITCH && r.track == (y - GRID_START_Y) / ROW_PITCH
    ensures r.hit ==> 0 <= r.track < GRID_TRACKS && 0 <= r.step < GRID_STEPS
  {
    if x < GRID_START_X || y < GRID_START_Y then GridHit(false, track, step)
    else
      var relX := x - GRID_START_X;
      var relY := y - GRID_START_Y;
      var step' := relX / COLUMN_PITCH;
      var track' := relY / ROW_PITCH;
      if step' >= 16 || track' >= 6 then GridHit(false, track', step')
      else
        var stepX := step' * COLUMN_PITCH;
        var stepY := track' * ROW_PITCH;
        GridHit(relX >= stepX && relX < stepX + STEP_WIDTH && relY >= stepY && relY < stepY + STEP_HEIGHT, track', step')
  }

  /** Division by one of the two grid pitches is determined by quotient
      and remainder. */
  lemma DivModUnique(a: int, d: int, q: int, m: int)
    requires d == COLUMN_PITCH || d == ROW_PITCH
    requires 0 <= m < d && a == q * d + m
    ensures a / d == q && a % d == m
  {
    if d == COLUMN_PITCH {
      assert a == q * 18 + m;
    } else {
      assert a == q * 15 + m;
    }
  }

  /** The grid hit test in arithmetic form: a hit exactly when the point is
      right of and below the grid origin, within 16 columns and 6 rows, and
      not in the 2-pixel column gap or the 3-pixel row gap. */
  lemma GridHitArithmetic(x: int, y: int, track: int, step: int)
    ensures IsInGridArea(x, y, track, step).hit <==>
      && x >= GRID_START_X && y >= GRID_START_Y
      && (x - GRID_START_X) / COLUMN_PITCH < GRID_STEPS && (y - GRID_START_Y) / ROW_PITCH < GRID_TRACKS
      && (x - GRID_START_X) % COLUMN_PITCH < STEP_WIDTH && (y - GRID_START_Y) % ROW_PITCH < STEP_HEIGHT
  {
    if x >= GRID_START_X && y >= GRID_START_Y {
      var relX := x - GRID_START_X;
      var relY := y - GRID_START_Y;
      DivModUnique(relX, COLUMN_PITCH, relX / COLUMN_PITCH, relX % COLUMN_PITCH);
      DivModUnique(relY, ROW_PITCH, relY / ROW_PITCH, relY % ROW_PITCH);
    }
  }

  /** The grid hit test agrees with what is drawn: it reports (track, step)
      exactly for the points inside that cell's drawn rectangle. */
  lemma GridHitMatchesCells(x: int, y: int, track: int, step: int)
    ensures IsInGridArea(x, y, track, step).hit ==>
      InCell(x, y, IsInGridArea(x, y, track, step).track, IsInGridArea(x, y, track, step).step)
    ensures forall t, s | InCell(x, y, t, s) ::
      IsInGridArea(x, y, track, step) == GridHit(true, t, s)
  {
    forall t, s | InCell(x, y, t, s)
      ensures IsInGridArea(x, y, track, step) == GridHit(true, t, s)
    {
      DivModUnique(x - GRID_START_X, COLUMN_PITCH, s, x - GRID_START_X - s * COLUMN_PITCH);
      DivModUnique(y - GRID_START_Y, ROW_PITCH, t, y - GRID_START_Y - t * ROW_PITCH);
    }
  }

  /** The three control buttons' hit tests: inclusive rectangles, one pixel
      wider and taller than the buttons `drawButton` fills. */
  predicate IsInBPMUpArea(x: int, y: int) {
    x >= BPM_UP_X && x <= BPM_UP_X + SMALL_BUTTON_WIDTH && y >= CONTROL_Y && y <= CONTROL_Y + BUTTON_HEIGHT
  }

  predicate IsInBPMDownArea(x: int, y: int) {
    x >= BPM_DOWN_X && x <= BPM_DOWN_X + SMALL_BUTTON_WIDTH && y >= CONTROL_Y && y <= CONTROL_Y + BUTTON_HEIGHT
  }

  predicate IsInPlayArea(x: int, y: int) {
    x >= PLAY_X && x <= PLAY_X + PLAY_BUTTON_WIDTH && y >= CONTROL_Y && y <= CONTROL_Y + BUTTON_HEIGHT
  }

  /** The hit areas never overlap: no point is in two buttons, and no point
      of a button is a grid hit, so a touch has at most one meaning. */
  lemma HitAreasDisjoint(x: int, y: int, track: int, step: int)
    ensures !(IsInBPMUpArea(x, y) && IsInBPMDownArea(x, y))
    ensures !(IsInBPMUpArea(x, y) && IsInPlayArea(x, y))
    ensures !(IsInBPMDownArea(x, y) && IsInPlayArea(x, y))
    ensures IsInBPMUpArea(x, y) || IsInBPMDownArea(x, y) || IsInPlayArea(x, y) ==>
      !IsInGridArea(x, y, track, step).hit
  {
    GridHitArithmetic(x, y, track, step);
  }

  /** The point lies in the box `drawButton` fills for a button whose
      top-left corner is (`left`, `CONTROL_Y`): `width` x 25 pixels, the far
      edges excluded. */
  predicate InDrawnButton(x: int, y: int, left: int, width: int) {
    left <= x < left + width && CONTROL_Y <= y < CONTROL_Y + BUTTON_HEIGHT
  }

  /** The point lies on the column just right of, or the row just below,
      that drawn box (the corner between them included). */
  predicate OnFarEdge(x: int, y: int, left: int, width: int) {
    && left <= x <= left + width && CONTROL_Y <= y <= CONTROL_Y + BUTTON_HEIGHT
    && (x == left + width || y == CONTROL_Y + BUTTON_HEIGHT)
  }

  /** Each button's hit area is the box `drawInterface` draws for it,
      extended by one pixel to the right and one pixel down: a point is in
      the area iff it is in the drawn box or on its far edge, and no point
      is both. */
  lemma ButtonEdgesInclusive(x: int, y: int)
    ensures IsInBPMUpArea(x, y) <==>
      InDrawnButton(x, y, BPM_UP_X, SMALL_BUTTON_WIDTH) || OnFarEdge(x, y, BPM_UP_X, SMALL_BUTTON_WIDTH)
    ensures IsInBPMDownArea(x, y) <==>
      InDrawnButton(x, y, BPM_DOWN_X, SMALL_BUTTON_WIDTH) || OnFarEdge(x, y, BPM_DOWN_X, SMALL_BUTTON_WIDTH)
    ensures IsInPlayArea(x, y) <==>
      InDrawnButton(x, y, PLAY_X, PLAY_BUTTON_WIDTH) || OnFarEdge(x, y, PLAY_X, PLAY_BUTTON_WIDTH)
    ensures forall left, width :: !(InDrawnButton(x, y, left, width) && OnFarEdge(x, y, left, width))
  {
  }
}
