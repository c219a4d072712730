# PlayerInput: per-tick input arbitration and dispatch

This project models the `PlayerInput` component of a Unity game. Each
frame the component reads two input devices: a game controller and
keyboard/mouse. It decides which of the two is active and turns the active
device's input into requests on the player character: a steering target,
a jump, a melee attack and a respawn.

- `snapshot.dfy`, module `InputSnapshot`: the per-device `InputData`
  snapshot, its `IsEmpty` test, and `ReadInput`, which fills a reused
  snapshot from the device's raw axis readings.
- `routing.dfy`, module `PlayerInputRouting`: the component's state and
  the pure specification of one tick. `Arbitrate` is the ordered device
  switch. `Resolved` gives the current snapshot. `Dispatch` gives the
  requests. `Next` gives the state after a tick. `Run` and `RunActions`
  extend these to a sequence of ticks. The class `PlayerInput` holds the
  mutable fields. Its `Update` method is proved to produce exactly `Next`
  and `Dispatch`.
- `properties.dfy`, module `PlayerInputProperties`: lemmas about these
  functions. They cover input suppression while the cursor is visible, the
  switching rule and what it does over repeated ticks, one steering request
  per tick, and the fact that a respawn is never requested.

The source's `currentInput` is a reference to one of three snapshot
objects. It is modelled as the selector `InputSource`, which names the
object it refers to. `Unset` stands for the null reference the field holds
before the first `Update`. Because it is a selector, the two getters
`Look` and `AimDownSights` see the device snapshots exactly as the last
tick left them, as the source's shared reference does.

Engine reads are parameters of the tick. The cursor-visible flag, the raw
value of each configured axis (`AxisReadings`) and the player's
`Health.IsDead` are inputs. Calls on the player's sub-behaviours are
returned as a sequence of `Action` values.

The device switch is an ordered if / else-if:
- Control passes from the controller to keyboard/mouse whenever the
  keyboard/mouse snapshot is non-empty, whatever the controller reports
  (`Arbitrate`, `SwitchRule`).
- Control passes from keyboard/mouse to the controller whenever the
  controller snapshot is non-empty. So when both devices report input, the
  flag flips on every tick (`BothActiveToggles`,
  `RepeatedBothActiveAlternates`).

## Model

| member | source | states |
|---|---|---|
| InputSnapshot.IsEmpty | Assets/Scripts/Player/PlayerInput.cs:28-40 | a snapshot is empty exactly when it equals the initial all-zero, all-false snapshot |
| InputSnapshot.ReadInput | Assets/Scripts/Player/PlayerInput.cs:126-141 | movement and look take the raw axis values; aim, attack and jump are "axis > 0"; the context-sensitive-action flag keeps its previous value; the result is empty exactly when the readings carry nothing and that flag was off |
| InputSnapshot.ReadInputIdempotent | Assets/Scripts/Player/PlayerInput.cs:126-141 | reading the same readings a second time leaves the snapshot unchanged |
| InputSnapshot.ReadInputIgnoresContextAxis | Assets/Scripts/Player/PlayerInput.cs:126-141 | the configured context-sensitive-action axis never affects the snapshot, and a snapshot whose flag is off keeps it off |
| PlayerInputRouting.Arbitrate | Assets/Scripts/Player/PlayerInput.cs:90-97 | the flag changes exactly when the inactive device's snapshot is non-empty, whatever the active device's snapshot holds; the device it ends on is the old one or one with a non-empty snapshot |
| PlayerInputRouting.Resolved | Assets/Scripts/Player/PlayerInput.cs:83-99 | the current snapshot is the empty sentinel when so selected; in a valid state it is otherwise the active device's snapshot, and its context-sensitive-action flag is off |
| PlayerInputRouting.Dispatch | Assets/Scripts/Player/PlayerInput.cs:102-123 | a zero-tolerance steering request toward the movement direction always comes first; then jump iff the jump flag is set, attack iff the attack flag is set, respawn iff the context-sensitive-action flag is set and the player is dead; each at most once, in that order |
| PlayerInputRouting.Next | Assets/Scripts/Player/PlayerInput.cs:81-100 | after a tick there is always a current snapshot, and the state invariant (no context-sensitive-action flag set, current snapshot belongs to the active device) is preserved |
| PlayerInputRouting.PlayerInput.constructor | Assets/Scripts/Player/PlayerInput.cs:53-79 | the initial state: keyboard/mouse is active, both snapshots are empty, there is no current snapshot yet, and the state invariant holds |
| PlayerInputRouting.PlayerInput.Look | Assets/Scripts/Player/PlayerInput.cs:60-66 | zero after a tick with the cursor visible, otherwise the active device's look vector; not available before the first tick |
| PlayerInputRouting.PlayerInput.AimDownSights | Assets/Scripts/Player/PlayerInput.cs:68-74 | false after a tick with the cursor visible, otherwise the active device's aim flag; not available before the first tick |
| PlayerInputRouting.PlayerInput.Update | Assets/Scripts/Player/PlayerInput.cs:81-124 | the new fields are exactly `Next` of the old ones, the requests are exactly `Dispatch` of the new current snapshot, and the invariant is kept |
| PlayerInputProperties.CursorVisibleSuppressesInput | Assets/Scripts/Player/PlayerInput.cs:83-100 | with the cursor visible the flag and both snapshots are unchanged, the current snapshot is empty and the only request is a zero-tolerance steering request with zero direction |
| PlayerInputProperties.HiddenCursorSelectsActiveDevice | Assets/Scripts/Player/PlayerInput.cs:85-99 | with the cursor hidden the current snapshot refers to the controller's exactly when the controller is active after arbitration, and to keyboard/mouse's otherwise |
| PlayerInputProperties.SwitchRule | Assets/Scripts/Player/PlayerInput.cs:90-97 | in terms of raw readings, the flag changes exactly when the inactive device reports something |
| PlayerInputProperties.BothActiveToggles | Assets/Scripts/Player/PlayerInput.cs:90-97 | when both devices report something, the flag flips |
| PlayerInputProperties.RepeatedBothActiveAlternates | Assets/Scripts/Player/PlayerInput.cs:90-97 | over n identical ticks on which both devices report something, the flag flips n times |
| PlayerInputProperties.SoleActiveDeviceStays | Assets/Scripts/Player/PlayerInput.cs:90-97 | when exactly one device reports something, it is active after the first of n identical ticks and after every later one |
| PlayerInputProperties.RepeatedTickIsFixpoint | Assets/Scripts/Player/PlayerInput.cs:81-124 | unless both devices report something, repeating a tick leaves the state and the requests as the first tick made them |
| PlayerInputProperties.NeverSpawns | Assets/Scripts/Player/PlayerInput.cs:118-123 | from any valid state, no sequence of ticks ever requests a respawn |
| PlayerInputProperties.NeverSpawnsFromInitial | Assets/Scripts/Player/PlayerInput.cs:118-123 | from the initial state, no sequence of ticks ever requests a respawn |
| PlayerInputProperties.DispatchHasOneTarget | Assets/Scripts/Player/PlayerInput.cs:102-105 | one tick's requests contain exactly one steering request |
| PlayerInputProperties.OneTargetPerTick | Assets/Scripts/Player/PlayerInput.cs:102-105 | a sequence of n ticks issues exactly n steering requests, all with tolerance zero |

## Left out

- `CharacterAnimator` (Assets/Scripts/Character/CharacterAnimator.cs) is not part of this model. It only forwards values to Unity's `Animator` and has no logic of its own.
- Axis values are mathematical reals, not 32-bit floats. IEEE details such as negative zero and NaN are not modelled; `Input.GetAxis` does not return NaN.
- The axis-name configuration structs are left out. Each device's eight readings are given directly as an `AxisReadings` value. `Input.GetAxis` and `Cursor.visible` are engine reads and become tick parameters.
- The steering target's world position is not modelled. That needs `transform.TransformDirection` and `transform.position`, which are the engine's floating-point rotation math. `SetTarget` records the local direction (the movement vector) and the tolerance 0.
- `Character.Steering`, `MeleeAttack`, `Health` and `GameplayManager.Instance.CurrentLevel.GetClosestSpawnPoint` are external. Their calls are emitted `Action` values, and `Health.IsDead` is an input. The spawn point is not computed.
- PlayerInputRouting.PlayerInput.Look and PlayerInputRouting.PlayerInput.AimDownSights require a first tick to have happened. In the source, calling them earlier dereferences a null `currentInput`. That fault is modelled as a precondition, not as an error result.
