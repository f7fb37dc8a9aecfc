/**
 * What the controller promises, stated over the specification functions of
 * `Controller`: facing and velocity rules, the attack lock-out, the animation
 * cursor, and an invariant every frame keeps from the moment of spawning.
 */
module ControllerProperties {
  import opened Wrappers
  import opened Timing
  import opened Sprites
  import opened Controller

  // ---- Keyboard: facing direction and velocity ----

  /** The keyboard system first remembers the facing direction it found. */
  lemma KeyboardSnapshotsPrevious(p: PlayerView, k: Keys, delta: nat)
    ensures KeyboardStep(p, k, delta).0.previous == p.current
    ensures KeyboardStep(p, k, delta).0.current == FacingAfter(p.current, k)
    ensures KeyboardStep(p, k, delta).0.velocity == VelocityOf(k)
  {
  }

  predicate Vertical(d: Direction) {
    d == Up || d == Down
  }

  /** The direction a held arrow key points in. */
  predicate Held(k: Keys, d: Direction) {
    match d
    case Up => k.up
    case Down => k.down
    case Left => k.left
    case Right => k.right
  }

  lemma FacingPriority(current: Direction, k: Keys)
    ensures (k.up || k.down) ==> Vertical(FacingAfter(current, k))
    ensures k.left && !k.up && !k.down ==> FacingAfter(current, k) == Left
    ensures k.up ==> FacingAfter(current, k) == Up
    ensures AnyArrow(k) ==> Held(k, FacingAfter(current, k))
    ensures !AnyArrow(k) ==> FacingAfter(current, k) == current
  {
  }

  /** The unit vector of a facing direction. */
  function UnitX(d: Direction): int {
    match d
    case Left => -1
    case Right => 1
    case Up | Down => 0
  }

  function UnitY(d: Direction): int {
    match d
    case Up => 1
    case Down => -1
    case Left | Right => 0
  }

  /**
   * While the player moves, it faces along its velocity: the facing
   * direction's unit vector agrees with the velocity on its axis, and it is
   * the vertical axis whenever the velocity has a vertical part.
   */
  lemma FacingAgreesWithVelocity(current: Direction, k: Keys)
    requires VelocityOf(k) != Still
    ensures var f, v := FacingAfter(current, k), VelocityOf(k);
      && (UnitX(f) != 0 ==> UnitX(f) == v.x && v.y == 0)
      && (UnitY(f) != 0 ==> UnitY(f) == v.y)
      && (v.y != 0 ==> Vertical(f))
  {
  }

  /** Holding Right from spawn walks right, and the next frame with nothing held is Idle again. */
  lemma RightHeldWalks(d1: nat, d2: nat)
    ensures var q := Frame(Spawned(), Keys(false, true, false, false, false), d1);
      && q.state == Walking && q.current == Right && q.previous == Down && q.velocity == Velocity(1, 0)
      && Frame(q, Keys(false, false, false, false, false), d2).state == Idle
      && Frame(q, Keys(false, false, false, false, false), d2).current == Right
  {
  }

  // ---- Keyboard: the state machine ----

  /**
   * While an attack timer is present the state is left alone (so Space is
   * ignored), the timer is ticked, and its removal is requested exactly on
   * the tick it finishes.
   */
  lemma TimerLocksState(p: PlayerView, k: Keys, delta: nat)
    requires p.stateTimer.Some?
    ensures var (q, cmd) := KeyboardStep(p, k, delta);
      && q.state == p.state
      && q.stateTimer == Some(Tick(p.stateTimer.value, delta))
      && !cmd.InsertStateTimer?
      && (cmd == RemoveStateTimer <==> JustFinished(Tick(p.stateTimer.value, delta)))
  {
  }

  /**
   * With no timer the state is re-evaluated from scratch: Attacking with a
   * fresh one-shot 0.25 s timer on a Space press, otherwise Idle exactly
   * when no arrow is held.
   */
  lemma FreeStateMachine(p: PlayerView, k: Keys, delta: nat)
    requires p.stateTimer.None?
    ensures var (q, cmd) := KeyboardStep(p, k, delta);
      && q.stateTimer.None?
      && (k.spaceJustPressed ==> q.state == Attacking && cmd == InsertStateTimer(AttackTimer()))
      && (!k.spaceJustPressed ==> cmd == NoCommand && (q.state == Idle <==> !AnyArrow(k)) && q.state != Attacking)
  {
  }

  // ---- Animation ----

  /** Idle freezes on the first frame of the walking table and leaves the animation timer alone. */
  lemma IdleFreezes(p: PlayerView, delta: nat)
    requires p.state == Idle
    ensures AnimateStep(p, delta).spriteIndex == WalkTable(p.current)[0]
    ensures AnimateStep(p, delta).animTimer == p.animTimer
    ensures AnimateStep(p, delta).atlas == WalkAtlas
  {
  }

  /** Walking and Attacking move the cursor only on a tick that finishes the animation timer. */
  lemma CursorMovesOnlyOnFinish(p: PlayerView, delta: nat)
    requires p.state != Idle
    ensures var q := AnimateStep(p, delta);
      && q.animTimer == Tick(p.animTimer, delta)
      && q.atlas == AtlasFor(p.state)
      && (!JustFinished(q.animTimer) ==> q.spriteIndex == p.spriteIndex)
      && (JustFinished(q.animTimer) ==> q.spriteIndex in FrameTable(p.state, p.current)[..3])
  {
  }

  /**
   * Turning within one atlas restarts the animation on the next finishing
   * tick: the old frame is not in the new direction's table.
   */
  lemma TurnRestartsAnimation(p: PlayerView, was: Direction, delta: nat)
    requires p.state != Idle && was != p.current
    requires p.spriteIndex in FrameTable(p.state, was)
    requires JustFinished(Tick(p.animTimer, delta))
    ensures AnimateStep(p, delta).spriteIndex == FrameTable(p.state, p.current)[0]
  {
    TablesDisjoint(p.state, was, p.current, p.spriteIndex);
  }

  /**
   * The two atlases share frame numbers but not their direction order, so a
   * switch from walking right to attacking up keeps the cursor running
   * instead of restarting it.
   */
  lemma AtlasSwitchKeepsCursor(p: PlayerView, delta: nat)
    requires p.state == Attacking && p.current == Up && p.spriteIndex in WalkTable(Right)[..2]
    requires JustFinished(Tick(p.animTimer, delta))
    ensures AnimateStep(p, delta).spriteIndex == p.spriteIndex + 1
  {
  }

  // ---- The frame invariant ----

  /** The state timer, while present, is the running 0.25 s one-shot of an attack. */
  predicate AttackTimerRunning(t: Timer) {
    !t.repeating && t.duration == AttackMillis && !t.finished && !JustFinished(t) && t.elapsed < t.duration
  }

  /** What holds of the player between frames. */
  predicate Inv(p: PlayerView) {
    && p.velocity.x in {-1, 0, 1} && p.velocity.y in {-1, 0, 1}
    && (p.stateTimer.Some? ==> p.state == Attacking && AttackTimerRunning(p.stateTimer.value))
    && p.animTimer.repeating && p.animTimer.duration == FrameMillis && p.animTimer.elapsed < FrameMillis
    && p.spriteIndex < 16 && !IsLastEntry(p.spriteIndex)
    && p.atlas == AtlasFor(p.state)
  }

  lemma SpawnedInv()
    ensures Inv(Spawned())
  {
    LastEntries(0);
  }

  lemma {:induction false} FrameKeepsInv(p: PlayerView, k: Keys, delta: nat)
    requires Inv(p)
    ensures Inv(Frame(p, k, delta))
  {
    var (p1, cmd) := KeyboardStep(p, k, delta);
    var p2 := AnimateStep(p1, delta);
    var table := FrameTable(p1.state, p1.current);
    assert p2.spriteIndex == p1.spriteIndex || p2.spriteIndex in table[..3];
    LastEntries(p.spriteIndex);
    LastEntries(p2.spriteIndex);
  }

  lemma {:induction false} RunKeepsInv(p: PlayerView, inputs: seq<Input>)
    requires Inv(p)
    ensures Inv(Run(p, inputs))
    decreases |inputs|
  {
    if inputs != [] {
      FrameKeepsInv(p, inputs[0].keys, inputs[0].delta);
      RunKeepsInv(Frame(p, inputs[0].keys, inputs[0].delta), inputs[1..]);
    }
  }

  /** From spawn on, the last frame of a table is never shown and the frame stays inside the atlas. */
  lemma LastFrameNeverShown(inputs: seq<Input>)
    ensures Run(Spawned(), inputs).spriteIndex < 16
    ensures Run(Spawned(), inputs).spriteIndex % 4 != 3
  {
    SpawnedInv();
    RunKeepsInv(Spawned(), inputs);
    LastEntries(Run(Spawned(), inputs).spriteIndex);
  }

  /** The state timer exists only during an attack. */
  lemma TimerOnlyWhileAttacking(inputs: seq<Input>)
    ensures Run(Spawned(), inputs).stateTimer.Some? ==> Run(Spawned(), inputs).state == Attacking
  {
    SpawnedInv();
    RunKeepsInv(Spawned(), inputs);
  }

  // ---- The attack over several frames ----

  /** A frame with a running attack timer: still Attacking; the timer is gone exactly when it ran out. */
  lemma AttackFrame(p: PlayerView, k: Keys, delta: nat)
    requires Inv(p) && p.stateTimer.Some?
    ensures var t, q := p.stateTimer.value, Frame(p, k, delta);
      && q.state == Attacking
      && (t.elapsed + delta >= AttackMillis ==> q.stateTimer.None?)
      && (t.elapsed + delta < AttackMillis ==> q.stateTimer == Some(t.(elapsed := t.elapsed + delta)))
  {
  }

  /** Frames whose times add up to less than what is left of the timer keep the attack going, whatever is pressed. */
  lemma {:induction false} AttackHolds(p: PlayerView, inputs: seq<Input>)
    requires Inv(p) && p.stateTimer.Some?
    requires p.stateTimer.value.elapsed + TotalDelta(inputs) < AttackMillis
    ensures Run(p, inputs).state == Attacking
    ensures Run(p, inputs).stateTimer ==
      Some(p.stateTimer.value.(elapsed := p.stateTimer.value.elapsed + TotalDelta(inputs)))
    decreases |inputs|
  {
    if inputs != [] {
      var q := Frame(p, inputs[0].keys, inputs[0].delta);
      AttackFrame(p, inputs[0].keys, inputs[0].delta);
      FrameKeepsInv(p, inputs[0].keys, inputs[0].delta);
      AttackHolds(q, inputs[1..]);
    }
  }

  /** A frame without a timer re-evaluates the state and installs a timer exactly on a Space press. */
  lemma FreeFrame(p: PlayerView, k: Keys, delta: nat)
    requires p.stateTimer.None?
    ensures var q := Frame(p, k, delta);
      && (k.spaceJustPressed ==> q.state == Attacking && q.stateTimer == Some(AttackTimer()))
      && (!k.spaceJustPressed ==> q.stateTimer.None? && q.state == if AnyArrow(k) then Walking else Idle)
  {
  }

  /**
   * An attack from start to end: the Space frame installs the timer, which
   * starts counting on the next frame; Attacking lasts while less than
   * 0.25 s has been counted, still shows on the frame the timer runs out
   * (which removes it), and the frame after that decides afresh.
   */
  lemma AttackLifecycle(p: PlayerView, start: Keys, d0: nat, during: seq<Input>, last: Input, next: Input)
    requires Inv(p) && p.stateTimer.None? && start.spaceJustPressed
    requires TotalDelta(during) < AttackMillis <= TotalDelta(during) + last.delta
    ensures var q := Run(Frame(p, start, d0), during);
      q.state == Attacking && q.stateTimer.Some?
    ensures var r := Run(Frame(p, start, d0), during + [last]);
      r.state == Attacking && r.stateTimer.None?
    ensures var r := Run(Frame(p, start, d0), during + [last, next]);
      && (next.keys.spaceJustPressed ==> r.state == Attacking && r.stateTimer == Some(AttackTimer()))
      && (!next.keys.spaceJustPressed ==> r.stateTimer.None? && r.state == if AnyArrow(next.keys) then Walking else Idle)
  {
    var p0 := Frame(p, start, d0);
    FreeFrame(p, start, d0);
    FrameKeepsInv(p, start, d0);
    AttackHolds(p0, during);
    var q := Run(p0, during);
    RunKeepsInv(p0, during);
    RunAppend(p0, during, [last]);
    AttackFrame(q, last.keys, last.delta);
    var r := Frame(q, last.keys, last.delta);
    RunAppend(p0, during, [last, next]);
    assert [last, next][1..] == [next] && [next][1..] == [];
    assert Run(q, [last, next]) == Run(r, [next]) == Frame(r, next.keys, next.delta);
    FreeFrame(r, next.keys, next.delta);
  }

  lemma {:induction false} RunAppend(p: PlayerView, a: seq<Input>, b: seq<Input>)
    ensures Run(p, a + b) == Run(Run(p, a), b)
    decreases |a|
  {
    if a == [] {
      assert a + b == b;
    } else {
      assert (a + b)[0] == a[0] && (a + b)[1..] == a[1..] + b;
      RunAppend(Frame(p, a[0].keys, a[0].delta), a[1..], b);
    }
  }
}
