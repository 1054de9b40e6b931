/** Touch classification (touchscreen.h, touchscreen.cpp): turning a touch
    into a grid toggle or a button press. Raw panel readings are converted
    to screen coordinates by Arduino's `map`, which is not modelled: the
    conversion is a pair of functions passed in, and every property is
    stated on the screen coordinates they produce. */
module TouchInput {
  import opened Units
  import opened Layout

  /** The panel's calibration range in raw units. */
  const TS_MINX: int := 150
  const TS_MINY: int := 120
  const TS_MAXX: int := 920
  const TS_MAXY: int := 940

  datatype TouchActionType =
    | TouchNone
    | TouchGrid
    | TouchBpmUp
    | TouchBpmDown
    | TouchPlayPause
    | TouchClearTrack
    | TouchClearAll

  datatype TouchAction = TouchAction(kind: TouchActionType, track: int, step: int, x: int, y: int)

  /** A raw reading from the resistive panel: position and pressure. */
  datatype TSPoint = TSPoint(x: int, y: int, z: int)

  /** The classification part of `processTouchInput`, on screen
      coordinates: a grid cell first, then the control strip's buttons. */
  function Classify(screenX: int, screenY: int): (a: TouchAction)
    ensures a.x == screenX && a.y == screenY
    ensures a.kind == TouchGrid <==> IsInGridArea(screenX, screenY, -1, -1).hit
    ensures a.kind == TouchGrid ==>
      a.track == IsInGridArea(screenX, screenY, -1, -1).track && a.step == IsInGridArea(screenX, screenY, -1, -1).step
    ensures a.kind != TouchGrid ==> a.track == -1 && a.step == -1
    ensures a.kind == TouchBpmUp <==> IsInBPMUpArea(screenX, screenY)
    ensures a.kind == TouchBpmDown <==> IsInBPMDownArea(screenX, screenY)
    ensures a.kind == TouchPlayPause <==> IsInPlayArea(screenX, screenY)
    ensures a.kind != TouchClearTrack && a.kind != TouchClearAll
  {
    HitAreasDisjoint(screenX, screenY, -1, -1);
    var none := TouchAction(TouchNone, -1, -1, screenX, screenY);
    var gridHit :=
      if screenX >= GRID_START_X && screenY >= GRID_START_Y then
        var relX := screenX - GRID_START_X;
        var relY := screenY - GRID_START_Y;
        var step := relX / COLUMN_PITCH;
        var track := relY / ROW_PITCH;
        if step >= 0 && step < 16 && track >= 0 && track < 6 then
          var stepX := step * COLUMN_PITCH;
          var stepY := track * ROW_PITCH;
          if relX >= stepX && relX < stepX + STEP_WIDTH && relY >= stepY && relY < stepY + STEP_HEIGHT
          then Some(none.(kind := TouchGrid, track := track, step := step))
          else None
        else None
      else None;
    if gridHit.Some? then gridHit.value
    else if screenY >= CONTROL_Y && screenY <= CONTROL_Y + 25 then
      if screenX >= BPM_UP_X && screenX <= BPM_UP_X + 30 then none.(kind := TouchBpmUp)
      else if screenX >= BPM_DOWN_X && screenX <= BPM_DOWN_X + 30 then none.(kind := TouchBpmDown)
      else if screenX >= PLAY_X && screenX <= PLAY_X + 60 then none.(kind := TouchPlayPause)
      else none
    else none
  }

  /** `processTouchInput`: map the raw reading to the screen, then classify. */
  function ProcessTouchInput(mapTouchX: int -> int, mapTouchY: int -> int, rawX: int, rawY: int): (a: TouchAction)
    ensures a.x == mapTouchX(rawX) && a.y == mapTouchY(rawY)
    ensures a.kind == TouchGrid ==> InCell(a.x, a.y, a.track, a.step)
    ensures forall t, st | InCell(a.x, a.y, t, st) :: a.kind == TouchGrid && a.track == t && a.step == st
    ensures a.kind != TouchGrid ==> a.track == -1 && a.step == -1
    ensures a.kind == TouchBpmUp <==> IsInBPMUpArea(a.x, a.y)
    ensures a.kind == TouchBpmDown <==> IsInBPMDownArea(a.x, a.y)
    ensures a.kind == TouchPlayPause <==> IsInPlayArea(a.x, a.y)
    ensures a.kind != TouchClearTrack && a.kind != TouchClearAll
  {
    var a := Classify(mapTouchX(rawX), mapTouchY(rawY));
    GridHitMatchesCells(a.x, a.y, -1, -1);
    a
  }

  /** A touch in the grid toggles the cell under it: a grid result names a
      cell inside the 6 x 16 grid, with `step = (x - 20) / 18` and
      `track = (y - 40) / 15`, and any point inside a drawn cell is
      classified as that cell. */
  lemma GridClassification(screenX: int, screenY: int)
    ensures Classify(screenX, screenY).kind == TouchGrid ==>
      && 0 <= Classify(screenX, screenY).step < 16 && 0 <= Classify(screenX, screenY).track < 6
      && Classify(screenX, screenY).step == (screenX - GRID_START_X) / COLUMN_PITCH
      && Classify(screenX, screenY).track == (screenY - GRID_START_Y) / ROW_PITCH
    ensures forall t, s | InCell(screenX, screenY, t, s) ::
      Classify(screenX, screenY).kind == TouchGrid && Classify(screenX, screenY).track == t && Classify(screenX, screenY).step == s
  {
    GridHitMatchesCells(screenX, screenY, -1, -1);
  }

  /** The gaps between cells never register as grid touches. */
  lemma GapsAreNotGrid(screenX: int, screenY: int)
    requires screenX >= GRID_START_X && screenY >= GRID_START_Y
    requires (screenX - GRID_START_X) % COLUMN_PITCH >= STEP_WIDTH || (screenY - GRID_START_Y) % ROW_PITCH >= STEP_HEIGHT
    ensures Classify(screenX, screenY).kind != TouchGrid
  {
    GridHitArithmetic(screenX, screenY, -1, -1);
  }

  /** `processTouchInput` and `isInGridArea` agree on every screen point:
      the touch handler reports a grid touch at (track, step) exactly when
      the UI's hit test returns true with those out-parameters, whatever the
      out-parameters held before. */
  lemma TouchAgreesWithUi(screenX: int, screenY: int, track: int, step: int)
    ensures Classify(screenX, screenY).kind == TouchGrid <==> IsInGridArea(screenX, screenY, track, step).hit
    ensures IsInGridArea(screenX, screenY, track, step).hit ==>
      Classify(screenX, screenY).track == IsInGridArea(screenX, screenY, track, step).track
      && Classify(screenX, screenY).step == IsInGridArea(screenX, screenY, track, step).step
  {
    GridHitArithmetic(screenX, screenY, track, step);
    GridHitArithmetic(screenX, screenY, -1, -1);
  }

  /** `isValidTouch`: pressure in [10, 1000] and position within the
      calibration box, all bounds inclusive. */
  function IsValidTouch(p: TSPoint): (r: bool)
    ensures r ==> TS_MINX <= p.x <= TS_MAXX && TS_MINY <= p.y <= TS_MAXY
    ensures r <==> 10 <= p.z <= 1000 && TS_MINX <= p.x <= TS_MAXX && TS_MINY <= p.y <= TS_MAXY
  {
    p.z >= 10 && p.z <= 1000 &&
    p.x >= TS_MINX && p.x <= TS_MAXX &&
    p.y >= TS_MINY && p.y <= TS_MAXY
  }
}
