/** Properties of the PlayerInput tick: suppression while the cursor is
    visible, the device-switch rule and its consequences over repeated ticks,
    and what the dispatch can and cannot issue. */
module PlayerInputProperties {
  import opened InputSnapshot
  import opened PlayerInputRouting

  /** While the cursor is visible nothing is read, the device does not change
      and the only request is a zero-tolerance target straight ahead of
      nothing: the empty snapshot drives the tick. */
  lemma CursorVisibleSuppressesInput(s: State, t: TickInput)
    requires t.cursorVisible
    ensures Next(s, t).usingControllerInput == s.usingControllerInput
    ensures Next(s, t).controllerInput == s.controllerInput
    ensures Next(s, t).keyboardMouseInput == s.keyboardMouseInput
    ensures Resolved(Next(s, t)) == Empty
    ensures TickActions(s, t) == [SetTarget(Zero, 0.0)]
  {
  }

  /** With the cursor hidden, the current snapshot is the freshly read
      snapshot of the device that is active after arbitration. */
  lemma HiddenCursorSelectsActiveDevice(s: State, t: TickInput)
    requires !t.cursorVisible
    ensures Next(s, t).currentInput ==
      (if Next(s, t).usingControllerInput then ControllerInput else KeyboardMouseInput)
    ensures Resolved(Next(s, t)) ==
      if Next(s, t).usingControllerInput then Next(s, t).controllerInput else Next(s, t).keyboardMouseInput
  {
  }

  /** In terms of the readings: the device flag changes exactly when the
      inactive device reports something, whatever the active one reports. */
  lemma SwitchRule(s: State, t: TickInput)
    requires Invariant(s) && !t.cursorVisible
    ensures Next(s, t).usingControllerInput != s.usingControllerInput <==>
      Active(if s.usingControllerInput then t.keyboardMouseRaw else t.controllerRaw)
  {
  }

  /** When both devices report something, every tick hands control to the
      other device. */
  lemma BothActiveToggles(s: State, t: TickInput)
    requires Invariant(s) && !t.cursorVisible
    requires Active(t.controllerRaw) && Active(t.keyboardMouseRaw)
    ensures Next(s, t).usingControllerInput == !s.usingControllerInput
  {
  }

  /** `n` copies of the same tick. */
  function Repeat(t: TickInput, n: nat): (ts: seq<TickInput>)
    ensures |ts| == n
    ensures forall i :: 0 <= i < n ==> ts[i] == t
  {
    if n == 0 then [] else [t] + Repeat(t, n - 1)
  }

  /** Identical ticks on which both devices report something flip the flag
      every time: after `n` of them it has flipped `n` times. */
  lemma {:induction false} RepeatedBothActiveAlternates(s: State, t: TickInput, n: nat)
    requires Invariant(s) && !t.cursorVisible
    requires Active(t.controllerRaw) && Active(t.keyboardMouseRaw)
    decreases n
    ensures Run(s, Repeat(t, n)).usingControllerInput ==
      (if n % 2 == 0 then s.usingControllerInput else !s.usingControllerInput)
  {
    if n > 0 {
      assert Repeat(t, n)[1..] == Repeat(t, n - 1);
      BothActiveToggles(s, t);
      RepeatedBothActiveAlternates(Next(s, t), t, n - 1);
    }
  }

  /** When exactly one device reports something, that device is active after
      the first of a run of identical ticks and stays active. */
  lemma {:induction false} SoleActiveDeviceStays(s: State, t: TickInput, n: nat)
    requires Invariant(s) && !t.cursorVisible
    requires Active(t.controllerRaw) != Active(t.keyboardMouseRaw)
    requires n >= 1
    decreases n
    ensures Run(s, Repeat(t, n)).usingControllerInput == Active(t.controllerRaw)
  {
    assert Repeat(t, n)[1..] == Repeat(t, n - 1);
    if n > 1 {
      SoleActiveDeviceStays(Next(s, t), t, n - 1);
    }
  }

  /** Unless both devices report something, repeating a tick changes nothing
      further: same state, same current snapshot, same requests. */
  lemma RepeatedTickIsFixpoint(s: State, t: TickInput)
    requires Invariant(s)
    requires !(Active(t.controllerRaw) && Active(t.keyboardMouseRaw))
    ensures Next(Next(s, t), t) == Next(s, t)
    ensures TickActions(Next(s, t), t) == TickActions(s, t)
  {
    if !t.cursorVisible {
      ReadInputIdempotent(s.controllerInput, t.controllerRaw);
      ReadInputIdempotent(s.keyboardMouseInput, t.keyboardMouseRaw);
    }
  }

  /** No reachable tick ever requests a respawn: the context-sensitive-action
      flag is never set, so the respawn branch is dead. */
  lemma {:induction false} NeverSpawns(s: State, ts: seq<TickInput>)
    requires Invariant(s)
    decreases |ts|
    ensures Spawn !in RunActions(s, ts)
  {
    if ts != [] {
      NeverSpawns(Next(s, ts[0]), ts[1..]);
      assert Spawn !in TickActions(s, ts[0]);
    }
  }

  /** From the initial state in particular, whatever the ticks report. */
  lemma NeverSpawnsFromInitial(ts: seq<TickInput>)
    ensures Spawn !in RunActions(Initial, ts)
  {
    NeverSpawns(Initial, ts);
  }

  /** The number of steering requests in a sequence of requests. */
  function Targets(acts: seq<Action>): nat
  {
    if acts == [] then 0 else (if acts[0].SetTarget? then 1 else 0) + Targets(acts[1..])
  }

  /** Counting steering requests distributes over concatenation. */
  lemma {:induction false} TargetsAppend(a: seq<Action>, b: seq<Action>)
    ensures Targets(a + b) == Targets(a) + Targets(b)
  {
    if a == [] {
      assert a + b == b;
    } else {
      assert (a + b)[1..] == a[1..] + b;
      TargetsAppend(a[1..], b);
    }
  }

  /** One tick's requests contain exactly one steering request. */
  lemma DispatchHasOneTarget(current: InputData, isDead: bool)
    ensures Targets(Dispatch(current, isDead)) == 1
  {
    var r := Dispatch(current, isDead);
    assert Targets(r[1..]) == 0 by {
      forall i | 1 <= i < |r| ensures !r[i].SetTarget? {
        assert Rank(r[0]) < Rank(r[i]);
      }
      NoTargets(r[1..]);
    }
  }

  /** A sequence without steering requests counts none. */
  lemma {:induction false} NoTargets(acts: seq<Action>)
    requires forall i :: 0 <= i < |acts| ==> !acts[i].SetTarget?
    ensures Targets(acts) == 0
  {
    if acts != [] {
      NoTargets(acts[1..]);
    }
  }

  /** Exactly one steering request per tick, cursor visible or not, movement
      zero or not, and every steering request has tolerance zero. */
  lemma {:induction false} OneTargetPerTick(s: State, ts: seq<TickInput>)
    decreases |ts|
    ensures Targets(RunActions(s, ts)) == |ts|
    ensures forall a :: a in RunActions(s, ts) && a.SetTarget? ==> a.tolerance == 0.0
  {
    if ts != [] {
      var first := TickActions(s, ts[0]);
      OneTargetPerTick(Next(s, ts[0]), ts[1..]);
      DispatchHasOneTarget(Resolved(Next(s, ts[0])), ts[0].isDead);
      TargetsAppend(first, RunActions(Next(s, ts[0]), ts[1..]));
      forall a | a in first && a.SetTarget? ensures a.tolerance == 0.0 {
        var i :| 0 <= i < |first| && first[i] == a;
        assert i == 0;
      }
    }
  }
}
