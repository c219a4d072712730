/** The per-tick arbitration between controller and keyboard/mouse input and
    the dispatch of the resolved input to the player's actions. */
module PlayerInputRouting {
  import opened InputSnapshot

  /** Which snapshot `currentInput` refers to. `Unset` is the null reference
      the field holds before the first tick. */
  datatype InputSource = Unset | EmptyInput | ControllerInput | KeyboardMouseInput

  /** The requests one tick makes of the player. `SetTarget` records the
      local-space direction (the movement vector) and the arrival tolerance;
      turning it into a world position is left to the engine. */
  datatype Action =
    | SetTarget(direction: Vector2, tolerance: real)
    | Jump
    | Attack
    | Spawn

  /** What the engine and the player report during one tick. */
  datatype TickInput = TickInput(
    cursorVisible: bool,
    controllerRaw: AxisReadings,
    keyboardMouseRaw: AxisReadings,
    isDead: bool)

  /** The component's state between ticks. */
  datatype State = State(
    usingControllerInput: bool,
    controllerInput: InputData,
    keyboardMouseInput: InputData,
    currentInput: InputSource)

  /** Field initialisers and `Awake`: keyboard/mouse active, both snapshots
      empty, no current snapshot yet. */
  const Initial: State := State(false, Empty, Empty, Unset)

  /** What every reachable state satisfies: no snapshot ever has its
      context-sensitive-action flag set, and a current device snapshot is
      the one of the active device. */
  predicate Invariant(s: State)
  {
    !s.controllerInput.contextSensitiveAction &&
    !s.keyboardMouseInput.contextSensitiveAction &&
    (s.currentInput == ControllerInput ==> s.usingControllerInput) &&
    (s.currentInput == KeyboardMouseInput ==> !s.usingControllerInput)
  }

  /** The ordered device switch: controller to keyboard/mouse is tested
      first, keyboard/mouse to controller second. The flag changes exactly
      when the inactive device's snapshot is non-empty; the active device's
      own snapshot plays no part. */
  function Arbitrate(usingController: bool, controller: InputData, keyboardMouse: InputData): (r: bool)
    ensures r != usingController <==> !IsEmpty(if usingController then keyboardMouse else controller)
    ensures r ==> !IsEmpty(controller) || usingController
    ensures !r ==> !IsEmpty(keyboardMouse) || !usingController
  {
    if usingController && !IsEmpty(keyboardMouse) then false
    else if !usingController && !IsEmpty(controller) then true
    else usingController
  }

  /** The snapshot `currentInput` refers to. */
  function Resolved(s: State): (d: InputData)
    requires s.currentInput != Unset
    ensures s.currentInput == EmptyInput ==> d == Empty
    ensures Invariant(s) && s.currentInput != EmptyInput ==>
      d == (if s.usingControllerInput then s.controllerInput else s.keyboardMouseInput)
    ensures Invariant(s) ==> !d.contextSensitiveAction
  {
    match s.currentInput
    case EmptyInput => Empty
    case ControllerInput => s.controllerInput
    case KeyboardMouseInput => s.keyboardMouseInput
  }

  /** Orders actions as the tick issues them. */
  function Rank(a: Action): nat
  {
    match a
    case SetTarget(_, _) => 0
    case Jump => 1
    case Attack => 2
    case Spawn => 3
  }

  /** The requests made from the current snapshot: a zero-tolerance steering
      target on every tick, then a jump, a melee attack and a respawn, each
      only when its condition holds, each at most once, in that order. */
  function Dispatch(current: InputData, isDead: bool): (r: seq<Action>)
    ensures 1 <= |r| <= 4 && r[0] == SetTarget(current.movement, 0.0)
    ensures forall i, j :: 0 <= i < j < |r| ==> Rank(r[i]) < Rank(r[j])
    ensures Jump in r <==> current.jump
    ensures Attack in r <==> current.attack
    ensures Spawn in r <==> current.contextSensitiveAction && isDead
  {
    [SetTarget(current.movement, 0.0)]
      + (if current.jump then [Jump] else [])
      + (if current.attack then [Attack] else [])
      + (if current.contextSensitiveAction && isDead then [Spawn] else [])
  }

  /** The state after one tick. */
  function Next(s: State, t: TickInput): (r: State)
    ensures r.currentInput != Unset
    ensures Invariant(s) ==> Invariant(r)
  {
    if t.cursorVisible then
      s.(currentInput := EmptyInput)
    else
      var controller := ReadInput(s.controllerInput, t.controllerRaw);
      var keyboardMouse := ReadInput(s.keyboardMouseInput, t.keyboardMouseRaw);
      var usingController := Arbitrate(s.usingControllerInput, controller, keyboardMouse);
      State(usingController, controller, keyboardMouse,
            if usingController then ControllerInput else KeyboardMouseInput)
  }

  /** The requests one tick issues. */
  function TickActions(s: State, t: TickInput): seq<Action>
  {
    Dispatch(Resolved(Next(s, t)), t.isDead)
  }

  /** The state after a sequence of ticks. */
  function Run(s: State, ts: seq<TickInput>): State
    decreases |ts|
  {
    if ts == [] then s else Run(Next(s, ts[0]), ts[1..])
  }

  /** Every request issued during a sequence of ticks, in order. */
  function RunActions(s: State, ts: seq<TickInput>): seq<Action>
    decreases |ts|
  {
    if ts == [] then [] else TickActions(s, ts[0]) + RunActions(Next(s, ts[0]), ts[1..])
  }

  /** The PlayerInput component: the persistent device flag, the two reused
      device snapshots and the reference to the current one. */
  class PlayerInput {
    var usingControllerInput: bool
    var controllerInput: InputData
    var keyboardMouseInput: InputData
    var currentInput: InputSource

    function Model(): State
      reads this
    {
      State(usingControllerInput, controllerInput, keyboardMouseInput, currentInput)
    }

    ghost predicate Valid()
      reads this
    {
      Invariant(Model())
    }

    /** Field initialisers followed by `Awake`. */
    constructor ()
      ensures Model() == Initial
      ensures Valid()
      ensures !usingControllerInput
      ensures controllerInput == Empty && keyboardMouseInput == Empty
      ensures currentInput == Unset
    {
      controllerInput := Empty;
      keyboardMouseInput := Empty;
      currentInput := Unset;
      usingControllerInput := false;
    }

    /** The look vector of the current snapshot. */
    function Look(): (v: Vector2)
      reads this
      requires currentInput != Unset
      ensures currentInput == EmptyInput ==> v == Zero
      ensures Valid() && currentInput != EmptyInput ==>
        v == (if usingControllerInput then controllerInput.look else keyboardMouseInput.look)
    {
      Resolved(Model()).look
    }

    /** The aim-down-sights flag of the current snapshot. */
    function AimDownSights(): (b: bool)
      reads this
      requires currentInput != Unset
      ensures currentInput == EmptyInput ==> !b
      ensures Valid() && currentInput != EmptyInput ==>
        b == (if usingControllerInput then controllerInput.aimDownSights else keyboardMouseInput.aimDownSights)
    {
      Resolved(Model()).aimDownSights
    }

    /** One tick: read both devices unless the cursor is visible, switch
      device by the ordered rule, pick the current snapshot and issue the
      player requests it calls for. */
    method Update(cursorVisible: bool, controllerRaw: AxisReadings,
                  keyboardMouseRaw: AxisReadings, isDead: bool)
      returns (actions: seq<Action>)
      requires Valid()
      modifies this
      ensures Valid()
      ensures Model() == Next(old(Model()), TickInput(cursorVisible, controllerRaw, keyboardMouseRaw, isDead))
      ensures actions == Dispatch(Resolved(Model()), isDead)
    {
      currentInput := EmptyInput;

      if !cursorVisible {
        controllerInput := ReadInput(controllerInput, controllerRaw);
        keyboardMouseInput := ReadInput(keyboardMouseInput, keyboardMouseRaw);

        if usingControllerInput && !IsEmpty(keyboardMouseInput) {
          usingControllerInput := false;
        } else if !usingControllerInput && !IsEmpty(controllerInput) {
          usingControllerInput := true;
        }

        currentInput := if usingControllerInput then ControllerInput else KeyboardMouseInput;
      }

      var current := Resolved(Model());
      actions := [SetTarget(current.movement, 0.0)];
      if current.jump {
        actions := actions + [Jump];
      }
      if current.attack {
        actions := actions + [Attack];
      }
      if current.contextSensitiveAction && isDead {
        actions := actions + [Spawn];
      }
    }
  }
}
