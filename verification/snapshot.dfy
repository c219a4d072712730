/** Per-device input snapshots (the `InputData` records of PlayerInput) and how
    one device's raw axis readings are read into one. */
module InputSnapshot {

  /** A pair of raw, bipolar axis values (no deadzone, no clamping). */
  datatype Vector2 = Vector2(x: real, y: real)

  const Zero: Vector2 := Vector2(0.0, 0.0)

  /** What one device asked for during one tick. */
  datatype InputData = InputData(
    movement: Vector2,
    look: Vector2,
    aimDownSights: bool,
    attack: bool,
    jump: bool,
    contextSensitiveAction: bool)

  /** The value every snapshot is initialised to; also the sentinel that is
      current while the cursor is visible. */
  const Empty: InputData := InputData(Zero, Zero, false, false, false, false)

  /** A snapshot is empty when every axis is zero and every flag is off,
      that is, exactly when it equals the initial value. */
  function IsEmpty(d: InputData): (b: bool)
    ensures b <==> d == Empty
  {
    d.movement.x == 0.0 &&
    d.movement.y == 0.0 &&
    d.look.x == 0.0 &&
    d.look.y == 0.0 &&
    !d.aimDownSights &&
    !d.attack &&
    !d.jump &&
    !d.contextSensitiveAction
  }

  /** The values the input backend reports, this tick, for the eight axis
      names configured for one device. */
  datatype AxisReadings = AxisReadings(
    movementHorizontal: real,
    movementVertical: real,
    lookHorizontal: real,
    lookVertical: real,
    aimDownSights: real,
    attack: real,
    jump: real,
    contextSensitiveAction: real)

  /** Whether a device's readings put anything into the fields ReadInput writes. */
  predicate Active(raw: AxisReadings)
  {
    raw.movementHorizontal != 0.0 || raw.movementVertical != 0.0 ||
    raw.lookHorizontal != 0.0 || raw.lookVertical != 0.0 ||
    raw.aimDownSights > 0.0 || raw.attack > 0.0 || raw.jump > 0.0
  }

  /** Overwrites the movement, look, aim, attack and jump fields of a reused
      snapshot from the device's readings. The context-sensitive-action field
      is never written, so it keeps whatever the snapshot held. */
  function ReadInput(data: InputData, raw: AxisReadings): (r: InputData)
    ensures r.movement == Vector2(raw.movementHorizontal, raw.movementVertical)
    ensures r.look == Vector2(raw.lookHorizontal, raw.lookVertical)
    ensures r.aimDownSights == (raw.aimDownSights > 0.0)
    ensures r.attack == (raw.attack > 0.0)
    ensures r.jump == (raw.jump > 0.0)
    ensures r.contextSensitiveAction == data.contextSensitiveAction
    ensures IsEmpty(r) <==> !Active(raw) && !data.contextSensitiveAction
  {
    data.(movement := Vector2(raw.movementHorizontal, raw.movementVertical),
          look := Vector2(raw.lookHorizontal, raw.lookVertical),
          aimDownSights := raw.aimDownSights > 0.0,
          attack := raw.attack > 0.0,
          jump := raw.jump > 0.0)
  }

  /** Reading the same readings twice leaves the snapshot as the first read did. */
  lemma ReadInputIdempotent(data: InputData, raw: AxisReadings)
    ensures ReadInput(ReadInput(data, raw), raw) == ReadInput(data, raw)
  {
  }

  /** The configured context-sensitive-action axis is never consulted. */
  lemma ReadInputIgnoresContextAxis(data: InputData, raw: AxisReadings, other: real)
    ensures ReadInput(data, raw.(contextSensitiveAction := other)) == ReadInput(data, raw)
    ensures !data.contextSensitiveAction ==> !ReadInput(data, raw).contextSensitiveAction
  {
  }
}
