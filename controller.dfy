/**
 * The player controller: the per-frame keyboard system (facing direction,
 * velocity, the Idle / Walking / Attacking state machine and its attack
 * timer) and the sprite animation system.
 *
 * The specification functions work on `PlayerView`, a snapshot of the
 * player's components; the class `Player` holds those components as fields
 * and its methods update them in place as the two systems do.
 */
module Controller {
  import opened Wrappers
  import opened Timing
  import opened Sprites

  /** How long an attack locks the state machine (0.25 s). */
  const AttackMillis: nat := 250
  /** The animation cadence (0.1 s). */
  const FrameMillis: nat := 100

  /** What the keyboard shows this frame: the arrows held, and whether Space went down this frame. */
  datatype Keys = Keys(left: bool, right: bool, up: bool, down: bool, spaceJustPressed: bool)

  /** The velocity before normalisation: one component per axis, in {-1, 0, 1}. */
  datatype Velocity = Velocity(x: int, y: int)

  const Still := Velocity(0, 0)

  /** A change to the player entity's components that the engine applies after the systems have run. */
  datatype Command = NoCommand | InsertStateTimer(timer: Timer) | RemoveStateTimer

  datatype PlayerView = PlayerView(
    velocity: Velocity,
    current: Direction,
    previous: Direction,
    state: PlayerState,
    stateTimer: Option<Timer>,
    animTimer: Timer,
    atlas: Atlas,
    spriteIndex: nat)

  /** One frame of input: the keys and the time elapsed since the previous frame. */
  datatype Input = Input(keys: Keys, delta: nat)

  function AttackTimer(): Timer {
    NewTimer(AttackMillis, false)
  }

  predicate AnyArrow(k: Keys) {
    k.left || k.right || k.up || k.down
  }

  /** Left takes the x axis over Right, Up takes the y axis over Down. */
  function VelocityOf(k: Keys): (v: Velocity)
    ensures v.x in {-1, 0, 1} && v.y in {-1, 0, 1}
    ensures v.x == -1 <==> k.left
    ensures v.x == 1 <==> !k.left && k.right
    ensures v.y == 1 <==> k.up
    ensures v.y == -1 <==> !k.up && k.down
    ensures v == Still <==> !AnyArrow(k)
  {
    Velocity(if k.left then -1 else if k.right then 1 else 0,
             if k.up then 1 else if k.down then -1 else 0)
  }

  /** The facing direction after a frame, by priority: Up, Down, Left, Right, else unchanged. */
  function FacingAfter(current: Direction, k: Keys): Direction {
    if k.up then Up
    else if k.down then Down
    else if k.left then Left
    else if k.right then Right
    else current
  }

  /** What the keyboard system does to the player's components, and the command it leaves behind. */
  function KeyboardStep(p: PlayerView, k: Keys, delta: nat): (PlayerView, Command) {
    var moved := p.(previous := p.current, current := FacingAfter(p.current, k), velocity := VelocityOf(k));
    match p.stateTimer
    case Some(t) =>
      var t' := Tick(t, delta);
      (moved.(stateTimer := Some(t')), if JustFinished(t') then RemoveStateTimer else NoCommand)
    case None =>
      if k.spaceJustPressed then (moved.(state := Attacking), InsertStateTimer(AttackTimer()))
      else (moved.(state := if VelocityOf(k) == Still then Idle else Walking), NoCommand)
  }

  /**
   * The next animation frame once the animation timer has finished: out of
   * the table, back to its first entry; otherwise one on, except that
   * reaching the table's last entry wraps to the first.
   */
  function NextFrame(table: seq<nat>, index: nat): (r: nat)
    requires IsRun(table)
    ensures r in table[..3]
    ensures index in table[..2] ==> r == index + 1
    ensures index !in table[..2] ==> r == table[0]
  {
    if index !in table then table[0]
    else if index + 1 >= table[3] then table[0]
    else
      assert table[index + 1 - table[0]] == index + 1;
      index + 1
  }

  /** What the animation system does to one player entity. */
  function AnimateStep(p: PlayerView, delta: nat): PlayerView {
    var table := FrameTable(p.state, p.current);
    var p' := p.(atlas := AtlasFor(p.state));
    if p.state == Idle then
      p'.(spriteIndex := table[0])
    else
      var t := Tick(p.animTimer, delta);
      p'.(animTimer := t, spriteIndex := if JustFinished(t) then NextFrame(table, p.spriteIndex) else p.spriteIndex)
  }

  function ApplyCommand(p: PlayerView, cmd: Command): PlayerView {
    match cmd
    case NoCommand => p
    case InsertStateTimer(t) => p.(stateTimer := Some(t))
    case RemoveStateTimer => p.(stateTimer := None)
  }

  /** One frame: the keyboard system, the animation system, then the deferred commands. */
  function Frame(p: PlayerView, k: Keys, delta: nat): PlayerView {
    var (p', cmd) := KeyboardStep(p, k, delta);
    ApplyCommand(AnimateStep(p', delta), cmd)
  }

  function Run(p: PlayerView, inputs: seq<Input>): PlayerView
    decreases |inputs|
  {
    if inputs == [] then p else Run(Frame(p, inputs[0].keys, inputs[0].delta), inputs[1..])
  }

  function TotalDelta(inputs: seq<Input>): nat
    decreases |inputs|
  {
    if inputs == [] then 0 else inputs[0].delta + TotalDelta(inputs[1..])
  }

  /** The player as spawned: facing down, idle, standing still, on frame 0 of the walking atlas. */
  function Spawned(): PlayerView {
    PlayerView(Still, Down, Down, Idle, None, NewTimer(FrameMillis, true), WalkAtlas, 0)
  }

  /** The first entity of the query that is Idle, or the query's length if none is. */
  function FirstIdle(views: seq<PlayerView>): (k: nat)
    ensures k <= |views|
    ensures forall j :: 0 <= j < k ==> views[j].state != Idle
    ensures k < |views| ==> views[k].state == Idle
    decreases |views|
  {
    if views == [] then 0
    else if views[0].state == Idle then 0
    else 1 + FirstIdle(views[1..])
  }

  class Player {
    var velocity: Velocity
    var current: Direction
    var previous: Direction
    var state: PlayerState
    var stateTimer: Option<Timer>
    var animTimer: Timer
    var atlas: Atlas
    var spriteIndex: nat

    function View(): PlayerView
      reads this
    {
      PlayerView(velocity, current, previous, state, stateTimer, animTimer, atlas, spriteIndex)
    }

    /** The components the spawn system gives the player entity. */
    constructor Spawn()
      ensures View() == Spawned()
    {
      velocity := Still;
      current, previous := Down, Down;
      state := Idle;
      stateTimer := None;
      animTimer := NewTimer(FrameMillis, true);
      atlas := WalkAtlas;
      spriteIndex := 0;
    }

    /** The body of the keyboard system for the single player entity. */
    method KeyboardTick(keys: Keys, delta: nat) returns (cmd: Command)
      modifies this
      ensures (View(), cmd) == KeyboardStep(old(View()), keys, delta)
    {
      previous := current;

      var x: int;
      if keys.left {
        current := Left;
        x := -1;
      } else if keys.right {
        current := Right;
        x := 1;
      } else {
        x := 0;
      }
      var y: int;
      if keys.up {
        current := Up;
        y := 1;
      } else if keys.down {
        current := Down;
        y := -1;
      } else {
        y := 0;
      }
      velocity := Velocity(x, y);

      cmd := NoCommand;
      match stateTimer {
        case Some(t) =>
          var t' := Tick(t, delta);
          stateTimer := Some(t');
          if JustFinished(t') {
            cmd := RemoveStateTimer;
          }
        case None =>
          if velocity == Still {
            state := Idle;
          } else if velocity != Still {
            state := Walking;
          }
          if keys.spaceJustPressed {
            state := Attacking;
            cmd := InsertStateTimer(AttackTimer());
          }
      }
    }

    /** The body of the animation system's loop for one entity; `stop` is the loop's `break`. */
    method AnimateTick(delta: nat) returns (stop: bool)
      modifies this
      ensures View() == AnimateStep(old(View()), delta)
      ensures stop <==> old(state) == Idle
    {
      var table: seq<nat>;
      match state {
        case Idle | Walking =>
          atlas := WalkAtlas;
          table := WalkTable(current);
        case Attacking =>
          atlas := AttackAtlas;
          table := AttackTable(current);
      }

      if state == Idle {
        spriteIndex := table[0];
        return true;
      }

      animTimer := Tick(animTimer, delta);
      if JustFinished(animTimer) {
        if spriteIndex !in table {
          spriteIndex := table[0];
        } else {
          spriteIndex := spriteIndex + 1;
          if spriteIndex >= table[|table| - 1] {
            spriteIndex := table[0];
          }
        }
      }
      return false;
    }

    /** The engine applying the command the keyboard system left for this entity. */
    method Apply(cmd: Command)
      modifies this
      ensures View() == ApplyCommand(old(View()), cmd)
    {
      match cmd {
        case NoCommand =>
        case InsertStateTimer(t) =>
          stateTimer := Some(t);
        case RemoveStateTimer =>
          stateTimer := None;
      }
    }
  }

  /** The abstraction of a query: the snapshot of each entity, in query order. */
  ghost function Views(query: seq<Player>): seq<PlayerView>
    reads set p | p in query
  {
    seq(|query|, i reads set p | p in query requires 0 <= i < |query| => query[i].View())
  }

  /**
   * The keyboard system: it acts only when exactly one entity is a player;
   * otherwise nothing changes and no command is left.
   */
  method KeyboardSystem(query: seq<Player>, keys: Keys, delta: nat) returns (cmd: Command)
    modifies set p | p in query
    ensures |query| == 1 ==> (query[0].View(), cmd) == KeyboardStep(old(query[0].View()), keys, delta)
    ensures |query| != 1 ==> cmd == NoCommand && forall p :: p in query ==> p.View() == old(p.View())
  {
    cmd := NoCommand;
    if |query| == 1 {
      cmd := query[0].KeyboardTick(keys, delta);
    }
  }

  /**
   * The animation system: entities are animated in query order, and the
   * first Idle one ends the loop, so the entities after it keep their state.
   */
  method AnimateSystem(query: seq<Player>, delta: nat)
    requires forall a, b :: 0 <= a < b < |query| ==> query[a] != query[b]
    modifies set p | p in query
    ensures forall i :: 0 <= i < |query| ==>
      query[i].View() == if i <= FirstIdle(old(Views(query))) then AnimateStep(old(query[i].View()), delta)
                         else old(query[i].View())
  {
    ghost var before := Views(query);
    ghost var stopAt := FirstIdle(before);
    var i := 0;
    while i < |query|
      invariant 0 <= i <= stopAt
      invariant forall j :: 0 <= j < i ==> query[j].View() == AnimateStep(before[j], delta)
      invariant forall j :: i <= j < |query| ==> query[j].View() == before[j]
    {
      var stop := query[i].AnimateTick(delta);
      if stop {
        assert i == stopAt;
        break;
      }
      i := i + 1;
    }
  }

  /** One frame for the player entity: both systems in registration order, then the deferred command. */
  method RunFrame(player: Player, keys: Keys, delta: nat)
    modifies player
    ensures player.View() == Frame(old(player.View()), keys, delta)
  {
    var cmd := KeyboardSystem([player], keys, delta);
    AnimateSystem([player], delta);
    player.Apply(cmd);
  }
}
