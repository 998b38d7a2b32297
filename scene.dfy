/** The scene's movement state and its handlers, updated in place as the
    scene's closures update their captured variables. Each method is proved
    to leave the object in the state the matching function of Movement
    computes from the state before the call; the handler-level methods
    (`Updated`, the two button handlers, the tick and its two parts) are
    also proved to keep `Coherent`. */
module SceneMain {
  import opened Geometry
  import opened Collisions
  import Movement
  import MovementLaws

  class PlayerScene {
    /** Collision map and the input/almost-zero tests: read, never written. */
    const env: Movement.Env

    /** `player.pos`, kept equal to `currentPlayerPos`. */
    var pos: Vec
    /** `playerSpeed`. */
    var speed: Vec
    var climbing: bool
    var jumping: bool
    var walking: bool
    var playerState: Movement.Anim
    /** The transitions requested from the animator so far. */
    var requests: seq<Movement.Transition>

    /** The object's state as a value. */
    function Snapshot(): Movement.Motion
      reads this
    {
      Movement.Motion(pos, speed, climbing, jumping, walking, playerState, requests)
    }

    ghost predicate Valid()
      reads this
    {
      Movement.Coherent(Snapshot())
    }

    /** The scene as `sceneMain` sets it up: the player at (200, 150),
        standing still, idle. */
    constructor (env: Movement.Env)
      ensures Valid() && this.env == env
      ensures Snapshot() == Movement.INITIAL
    {
      this.env := env;
      pos := Vec(200000, 150000);
      speed := ZERO;
      climbing, jumping, walking := false, false, false;
      playerState := Movement.Idle;
      requests := [];
      new;
      MovementLaws.InitialCoherent();
    }

    /** `tryMoveDeltaX`: moves by delta exactly when no probe at the
        candidate position is solid, and says whether it did. */
    method TryMoveDeltaX(delta: Vec) returns (moved: bool)
      modifies this`pos
      ensures Movement.TryMoveX(env, old(Snapshot()), delta) == Movement.Step(moved, Snapshot())
    {
      var newPos := pos.Add(delta);
      var collisionPoints := Movement.XProbes(newPos);
      moved := Movement.All(collisionPoints, q => !IsSolid(env.getPixel(q), delta));
      Movement.AllOfFour(collisionPoints, q => !IsSolid(env.getPixel(q), delta));
      if moved {
        pos := newPos;
      }
    }

    /** `tryMoveDeltaY`: moves by delta and marks the player as climbing
        exactly when both probes under the candidate feet are ladders;
        otherwise nothing changes. */
    method TryMoveDeltaY(delta: Vec) returns (moved: bool)
      modifies this`pos, this`climbing
      ensures Movement.TryMoveY(env, old(Snapshot()), delta) == Movement.Step(moved, Snapshot())
    {
      var newPos := pos.Add(delta);
      var collisionPoints := Movement.YProbes(newPos);
      moved := Movement.All(collisionPoints, q => IsLadder(env.getPixel(q), delta));
      Movement.AllOfTwo(collisionPoints, q => IsLadder(env.getPixel(q), delta));
      if moved {
        pos := newPos;
        climbing := true;
      }
    }

    /** `setState`: switches the animation, requesting a transition only
        when the name differs from the current one. */
    method SetState(anim: Movement.Anim, millis: nat)
      modifies this`playerState, this`requests
      ensures playerState == anim
      ensures old(playerState) == anim ==> unchanged(this)
      ensures Snapshot() == Movement.SetState(old(Snapshot()), anim, millis)
    {
      if playerState != anim {
        playerState := anim;
        requests := requests + [Movement.Transition(anim, millis)];
      }
    }

    /** `updateState`: shows the animation the flags call for. */
    method UpdateState()
      modifies this`playerState, this`requests
      ensures playerState == Movement.Desired(old(Snapshot())).anim
      ensures Snapshot() == Movement.UpdateState(old(Snapshot()))
    {
      if jumping {
        SetState(Movement.Jumping, Movement.FAST);
      } else if climbing {
        SetState(Movement.Climbing, Movement.FAST);
      } else if walking {
        SetState(Movement.Walking, Movement.FAST);
      } else {
        SetState(Movement.Idle, Movement.SLOW);
      }
    }

    /** The movement part of `updated`: one step along the intended axis
        (none in mid-air), with the walking and climbing flags it sets. */
    method Steer(left: bool, right: bool, up: bool, down: bool, midAir: bool, scale: int)
      modifies this`pos, this`climbing, this`walking
      ensures Snapshot() == Movement.Steer(env, old(Snapshot()), left, right, up, down, midAir, scale)
    {
      if !midAir {
        if left || right {
          var moved := TryMoveDeltaX(Movement.WalkDelta(right, scale));
          climbing := false;
          walking := true;
        } else if up || down {
          var moved := TryMoveDeltaY(Movement.ClimbDelta(up, scale));
          walking := false;
        }
      } else {
        climbing := false;
        walking := false;
      }
    }

    /** `updated`: acts on one movement intent, then re-derives the
        animation. */
    method Updated(left: bool, right: bool, up: bool, down: bool, midAir: bool, scale: int)
      requires Valid()
      modifies this`pos, this`climbing, this`walking, this`playerState, this`requests
      ensures Valid()
      ensures Snapshot() == Movement.Updated(env, old(Snapshot()), left, right, up, down, midAir, scale)
    {
      ghost var before := Snapshot();
      Steer(left, right, up, down, midAir, scale);
      UpdateState();
      MovementLaws.UpdatedCoherent(env, before, left, right, up, down, midAir, scale);
    }

    /** The handler of the jump button. */
    method OnJumpPressed()
      requires Valid()
      modifies this
      ensures Valid()
      ensures pos == old(pos)
      ensures env.almostZero(old(speed).y) ==>
        jumping && playerState == Movement.Jumping && speed == old(speed).Add(Movement.JUMP_IMPULSE)
      ensures !env.almostZero(old(speed).y) ==> unchanged(this)
      ensures Snapshot() == Movement.Jump(env, old(Snapshot()))
    {
      ghost var before := Snapshot();
      var isInGround := env.almostZero(speed.y);
      if isInGround {
        if !jumping {
          jumping := true;
          UpdateState();
        }
        speed := speed.Add(Movement.JUMP_IMPULSE);
        MovementLaws.JumpFromGround(env, before);
      }
      MovementLaws.JumpCoherent(env, before);
    }

    /** The handler of a change of the horizontal axis. */
    method OnAxisXChanged(value: int)
      requires Valid()
      modifies this`pos, this`climbing, this`walking, this`playerState, this`requests
      ensures Valid()
      ensures pos == old(pos) && speed == old(speed)
      ensures Snapshot() == Movement.AxisXChanged(env, old(Snapshot()), value)
    {
      if Movement.Normalize(env, value) == 0 {
        Updated(value < 0, value > 0, false, false, true, Movement.FULL_SCALE);
      }
    }

    /** The "move character" part of the fixed tick. */
    method MoveCharacter(input: Movement.Axes)
      requires Valid()
      modifies this`pos, this`climbing, this`walking, this`playerState, this`requests
      ensures Valid()
      ensures Snapshot() == Movement.MoveCharacter(env, old(Snapshot()), input)
    {
      var lx := Movement.Normalize(env, input.lx);
      var ly := Movement.Normalize(env, input.ly);
      if lx < 0 {
        Updated(true, false, false, false, false, -lx);
      } else if lx > 0 {
        Updated(false, true, false, false, false, lx);
      } else if ly < 0 {
        Updated(false, false, true, false, false, -ly);
      } else if ly > 0 {
        Updated(false, false, false, true, false, ly);
      }
    }

    /** The first half of "apply gravity": keep climbing along the speed,
        or else accelerate by the gravity step. */
    method ClimbOrFall(gravityStep: Vec)
      modifies this`pos, this`climbing, this`speed
      ensures Snapshot() == Movement.ClimbOrFall(env, old(Snapshot()), gravityStep)
    {
      var climbed := TryMoveDeltaY(speed);
      if !climbed {
        speed := speed.Add(gravityStep);
      }
    }

    /** The second half of "apply gravity": slide along the speed, or
        follow it on a ladder, or else stop (and land, if jumping). */
    method Settle()
      modifies this
      ensures Snapshot() == Movement.Settle(env, old(Snapshot()))
    {
      var slid := TryMoveDeltaX(speed);
      var stopped := false;
      if !slid {
        var laddered := TryMoveDeltaY(speed);
        stopped := !laddered;
      }
      if stopped {
        speed := ZERO;
        if jumping {
          jumping := false;
          UpdateState();
        }
      }
    }

    /** The "apply gravity" part of the fixed tick. */
    method ApplyGravity(gravityStep: Vec)
      requires Valid()
      modifies this
      ensures Valid()
      ensures Snapshot() == Movement.ApplyGravity(env, old(Snapshot()), gravityStep)
    {
      ghost var before := Snapshot();
      ClimbOrFall(gravityStep);
      Settle();
      MovementLaws.ApplyGravityCoherent(env, before, gravityStep);
    }

    /** One fixed tick of the updater (the camera is not modelled). */
    method FixedUpdate(input: Movement.Axes, gravityStep: Vec)
      requires Valid()
      modifies this
      ensures Valid()
      ensures Snapshot() == Movement.Tick(env, old(Snapshot()), input, gravityStep)
    {
      MoveCharacter(input);
      ApplyGravity(gravityStep);
    }
  }
}
