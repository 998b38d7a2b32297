/** Properties of the movement core: the animation-state selector's priority
    and idempotence, the dispatcher's priority of horizontal over vertical
    intent, the gravity step case by case, the jump handler, the invariant
    every operation keeps, and that a player at rest stays at rest. */
module MovementLaws {
  import opened Geometry
  import opened Collisions
  import opened Movement

  // ---------------------------------------------------------------- setState

  /** Asking twice for the same animation is asking once. */
  lemma SetStateIdempotent(m: Motion, anim: Anim, d1: nat, d2: nat)
    ensures SetState(SetState(m, anim, d1), anim, d2) == SetState(m, anim, d1)
  {
  }

  // ------------------------------------------------------------- updateState

  /** Re-deriving the animation a second time changes nothing. */
  lemma UpdateStateIdempotent(m: Motion)
    ensures UpdateState(UpdateState(m)) == UpdateState(m)
  {
  }

  /** A transition is requested exactly when the derived animation differs
      from the current one, and it carries that animation's cross-fade time. */
  lemma UpdateStateRequests(m: Motion)
    ensures var r := UpdateState(m);
      if m.state == Desired(m).anim then r.requests == m.requests
      else r.requests == m.requests + [Transition(Desired(m).anim, Duration(Desired(m).anim))]
  {
  }

  /** With every flag set, the highest priority wins. */
  lemma AllFlagsShowJumping(m: Motion)
    requires m.jumping && m.climbing && m.walking
    ensures UpdateState(m).state == Jumping
    ensures Desired(m) == Transition(Jumping, FAST)
  {
  }

  // ----------------------------------------------------------------- updated

  /** On the ground a horizontal intent tries a horizontal step of
      2.0 * scale pixels in its direction, and then marks the player as
      walking and not climbing, whether or not the step was taken. */
  lemma UpdatedWalks(env: Env, m: Motion, left: bool, right: bool, up: bool, down: bool, scale: int)
    requires left || right
    ensures var d := Vec((if right then 1 else -1) * WALK_STEP * scale, 0);
      var r := Updated(env, m, left, right, up, down, false, scale);
      && r.pos == (if XClear(env, m.pos.Add(d), d) then m.pos.Add(d) else m.pos)
      && r.walking && !r.climbing
      && r.speed == m.speed && r.jumping == m.jumping
      && r.state == Desired(r).anim
  {
  }

  /** On the ground, without a horizontal intent, a vertical intent tries a
      ladder step of 0.7 * scale pixels (up is negative) and marks the player
      as not walking; climbing is set by a taken step and otherwise kept. */
  lemma UpdatedClimbs(env: Env, m: Motion, up: bool, down: bool, scale: int)
    requires up || down
    ensures var d := Vec(0, (if up then -1 else 1) * CLIMB_STEP * scale);
      var ok := YClear(env, m.pos.Add(d), d);
      var r := Updated(env, m, false, false, up, down, false, scale);
      && r.pos == (if ok then m.pos.Add(d) else m.pos)
      && !r.walking && r.climbing == (ok || m.climbing)
      && r.speed == m.speed && r.jumping == m.jumping
      && r.state == Desired(r).anim
  {
  }

  /** In mid-air no move is attempted, whatever the intent: only the
      walking and climbing flags are cleared and the animation re-derived. */
  lemma UpdatedMidAir(env: Env, m: Motion, left: bool, right: bool, up: bool, down: bool, scale: int)
    ensures var r := Updated(env, m, left, right, up, down, true, scale);
      r == UpdateState(m.(climbing := false, walking := false))
      && r.pos == m.pos && r.speed == m.speed
      && !r.climbing && !r.walking && r.jumping == m.jumping
  {
  }

  // ------------------------------------------------------- the input branch

  /** With both axes in the dead-zone no branch of the dispatch runs. */
  lemma DeadZoneInputIsIgnored(env: Env, m: Motion, a: Axes)
    requires AtRestInput(env, a)
    ensures MoveCharacter(env, m, a) == m
  {
  }

  /** A horizontal axis outside the dead-zone decides the tick: the vertical
      axis is then never looked at. */
  lemma HorizontalOverridesVertical(env: Env, m: Motion, lx: int, ly1: int, ly2: int)
    requires Normalize(env, lx) != 0
    ensures MoveCharacter(env, m, Axes(lx, ly1)) == MoveCharacter(env, m, Axes(lx, ly2))
  {
  }

  /** A horizontal axis outside the dead-zone, at n hundredths, walks by
      0.02 * n pixels when the way is clear and otherwise stays put. */
  lemma MoveCharacterWalks(env: Env, m: Motion, a: Axes)
    requires Normalize(env, a.lx) != 0
    ensures var d := Vec(WALK_STEP * a.lx, 0);
      var r := MoveCharacter(env, m, a);
      && r.pos == (if XClear(env, m.pos.Add(d), d) then m.pos.Add(d) else m.pos)
      && r.walking && !r.climbing
      && r.speed == m.speed && r.jumping == m.jumping
      && r.state == Desired(r).anim
  {
    var n := a.lx;
    if n < 0 {
      UpdatedWalks(env, m, true, false, false, false, -n);
      assert -1 * WALK_STEP * -n == WALK_STEP * n;
    } else {
      UpdatedWalks(env, m, false, true, false, false, n);
    }
  }

  /** With the horizontal axis in the dead-zone, a vertical axis at n
      hundredths climbs by 0.007 * n pixels when both feet stay on a ladder
      and otherwise stays put. */
  lemma MoveCharacterClimbs(env: Env, m: Motion, a: Axes)
    requires Normalize(env, a.lx) == 0 && Normalize(env, a.ly) != 0
    ensures var d := Vec(0, CLIMB_STEP * a.ly);
      var ok := YClear(env, m.pos.Add(d), d);
      var r := MoveCharacter(env, m, a);
      && r.pos == (if ok then m.pos.Add(d) else m.pos)
      && !r.walking && r.climbing == (ok || m.climbing)
      && r.speed == m.speed && r.jumping == m.jumping
      && r.state == Desired(r).anim
  {
    var n := a.ly;
    if n < 0 {
      UpdatedClimbs(env, m, true, false, -n);
      assert -1 * CLIMB_STEP * -n == CLIMB_STEP * n;
    } else {
      UpdatedClimbs(env, m, false, true, n);
    }
  }

  /** With the 0.075 dead-zone, a reading is zeroed exactly when its
      magnitude is at most 7 hundredths; 8 or more is kept as it is. */
  lemma DeadZoneExtent(env: Env, v: int)
    requires DeadZone75(env)
    ensures Normalize(env, v) == 0 <==> -7 <= v <= 7
    ensures !(-7 <= v <= 7) ==> Normalize(env, v) == v
  {
  }

  /** A full-left deflection with clear corners walks 2 px to the left and
      shows walking when not jumping. */
  lemma FullLeftWalks(env: Env, m: Motion)
    requires DeadZone75(env)
    requires XClear(env, m.pos.Add(Vec(-2000, 0)), Vec(-2000, 0))
    ensures var r := MoveCharacter(env, m, Axes(-100, 0));
      && r.pos == Vec(m.pos.x - 2000, m.pos.y)
      && r.walking && !r.climbing
      && (!m.jumping ==> r.state == Walking)
  {
    MoveCharacterWalks(env, m, Axes(-100, 0));
  }

  /** A full-up deflection above a ladder climbs 0.7 px and shows climbing
      when not jumping. */
  lemma FullUpClimbs(env: Env, m: Motion)
    requires DeadZone75(env)
    requires YClear(env, m.pos.Add(Vec(0, -700)), Vec(0, -700))
    ensures var r := MoveCharacter(env, m, Axes(0, -100));
      && r.pos == Vec(m.pos.x, m.pos.y - 700)
      && r.climbing && !r.walking
      && (!m.jumping ==> r.state == Climbing)
  {
    MoveCharacterClimbs(env, m, Axes(0, -100));
  }

  /** At most one intent acts per tick: the input moves the player along
      one axis at most, and never touches speed or the jump. */
  lemma OneIntentPerTick(env: Env, m: Motion, a: Axes)
    ensures var r := MoveCharacter(env, m, a);
      (r.pos.x == m.pos.x || r.pos.y == m.pos.y) && r.speed == m.speed && r.jumping == m.jumping
  {
    if Normalize(env, a.lx) != 0 {
      MoveCharacterWalks(env, m, a);
    } else if Normalize(env, a.ly) != 0 {
      MoveCharacterClimbs(env, m, a);
    } else {
      DeadZoneInputIsIgnored(env, m, a);
    }
  }

  // ---------------------------------------------------------------- gravity

  /** The gravity step, case by case. A ladder under the feet at the current
      speed takes that move and suspends gravity; otherwise gravity is added.
      Then the speed is tried horizontally and, only if that fails, on a
      ladder again; when both fail the player stops where it is, with zero
      speed, and a jump in progress ends with the animation re-derived. */
  lemma GravityCases(env: Env, m: Motion, g: Vec)
    ensures
      var climbed := YClear(env, m.pos.Add(m.speed), m.speed);
      var p1 := if climbed then m.pos.Add(m.speed) else m.pos;
      var v := if climbed then m.speed else m.speed.Add(g);
      var slid := XClear(env, p1.Add(v), v);
      var laddered := !slid && YClear(env, p1.Add(v), v);
      var r := ApplyGravity(env, m, g);
      && r.pos == (if slid || laddered then p1.Add(v) else p1)
      && r.speed == (if slid || laddered then v else ZERO)
      && r.climbing == (m.climbing || climbed || laddered)
      && r.walking == m.walking
      && r.jumping == (m.jumping && (slid || laddered))
      && r.state == (if m.jumping && !slid && !laddered then Desired(r).anim else m.state)
  {
  }

  /** Landing: when neither the horizontal nor the ladder move at the speed
      the tick ends with succeeds, the speed is zeroed and the jump is over. */
  lemma BlockedMovesStop(env: Env, m: Motion, g: Vec)
    requires !YClear(env, m.pos.Add(m.speed), m.speed)
    requires var v := m.speed.Add(g);
      !XClear(env, m.pos.Add(v), v) && !YClear(env, m.pos.Add(v), v)
    ensures var r := ApplyGravity(env, m, g);
      r.pos == m.pos && r.speed == ZERO && !r.jumping && r.climbing == m.climbing
      && r.state == (if m.jumping then Desired(r).anim else m.state)
  {
    GravityCases(env, m, g);
  }

  // ------------------------------------------------------------------- jump

  /** A jump pressed on the ground marks the jump, shows it, and adds the
      upward impulse of 5.5 pixels; it does not move the player. */
  lemma JumpFromGround(env: Env, m: Motion)
    requires Coherent(m) && env.almostZero(m.speed.y)
    ensures var r := Jump(env, m);
      && r.jumping && r.state == Jumping
      && r.speed == Vec(m.speed.x, m.speed.y - 5500)
      && r.pos == m.pos && r.climbing == m.climbing && r.walking == m.walking
      && r.requests == if m.jumping then m.requests
                       else m.requests + [Transition(Jumping, FAST)]
  {
  }

  /** The impulse added to a zero speed is the whole new speed. */
  lemma ImpulseFromRest(v: Vec)
    requires v == ZERO
    ensures v.Add(JUMP_IMPULSE) == JUMP_IMPULSE
  {
  }

  /** A player standing still (zero speed, as landing leaves it) can always
      jump: `isAlmostZero` holds at zero whatever its threshold. */
  lemma JumpFromStandstill(env: Env, m: Motion)
    requires env.almostZero(0)
    requires m.speed == ZERO && (m.jumping ==> m.state == Jumping)
    ensures var r := Jump(env, m);
      && r.jumping && r.state == Jumping
      && r.speed == JUMP_IMPULSE && r.pos == m.pos
  {
    var m1 := if !m.jumping then UpdateState(m.(jumping := true)) else m;
    assert Jump(env, m) == m1.(speed := m1.speed.Add(JUMP_IMPULSE));
    ImpulseFromRest(m1.speed);
  }

  /** Land, then jump: a tick whose moves are all refused ends any jump with
      zero speed, and the next press starts a new one. */
  lemma LandedCanJump(env: Env, m: Motion, g: Vec)
    requires env.almostZero(0)
    requires !YClear(env, m.pos.Add(m.speed), m.speed)
    requires var v := m.speed.Add(g);
      !XClear(env, m.pos.Add(v), v) && !YClear(env, m.pos.Add(v), v)
    ensures var landed := ApplyGravity(env, m, g);
      && !landed.jumping && landed.speed == ZERO
      && Jump(env, landed).jumping && Jump(env, landed).state == Jumping
      && Jump(env, landed).speed == JUMP_IMPULSE
  {
    var landed := ApplyGravity(env, m, g);
    BlockedMovesStop(env, m, g);
    JumpFromStandstill(env, landed);
  }

  /** A jump pressed while the vertical speed is not almost zero changes
      nothing. */
  lemma JumpInAirIgnored(env: Env, m: Motion)
    requires !env.almostZero(m.speed.y)
    ensures Jump(env, m) == m
  {
  }

  /** The horizontal-axis handler moves nothing: on release into the
      dead-zone it clears walking and climbing, otherwise it does nothing. */
  lemma AxisXChangedCases(env: Env, m: Motion, value: int)
    ensures var r := AxisXChanged(env, m, value);
      if Normalize(env, value) == 0 then
        r.pos == m.pos && r.speed == m.speed && !r.climbing && !r.walking
        && r.jumping == m.jumping && r.state == Desired(r).anim
      else r == m
  {
  }

  // ---------------------------------------------------------- the invariant

  lemma InitialCoherent()
    ensures Coherent(INITIAL)
  {
  }

  /** Re-deriving the animation makes the state coherent again, whatever the
      flags are. */
  lemma UpdateStateCoherent(m: Motion)
    requires LogCoherent(m)
    ensures Coherent(UpdateState(m))
  {
    var r := UpdateState(m);
    var t := Desired(m);
    if m.state != t.anim {
      assert r.requests == m.requests + [t];
      forall i, j | 0 <= i && j == i + 1 && j < |r.requests|
        ensures r.requests[i].anim != r.requests[j].anim
      {
        if j < |m.requests| {
          assert r.requests[i] == m.requests[i] && r.requests[j] == m.requests[j];
        }
      }
    }
  }

  lemma TryMoveXCoherent(env: Env, m: Motion, delta: Vec)
    requires Coherent(m)
    ensures Coherent(TryMoveX(env, m, delta).after)
  {
  }

  lemma TryMoveYCoherent(env: Env, m: Motion, delta: Vec)
    requires Coherent(m)
    ensures Coherent(TryMoveY(env, m, delta).after)
  {
  }

  lemma UpdatedCoherent(env: Env, m: Motion, left: bool, right: bool, up: bool, down: bool,
                        midAir: bool, scale: int)
    requires Coherent(m)
    ensures Coherent(Updated(env, m, left, right, up, down, midAir, scale))
  {
    UpdateStateCoherent(Steer(env, m, left, right, up, down, midAir, scale));
  }

  lemma MoveCharacterCoherent(env: Env, m: Motion, a: Axes)
    requires Coherent(m)
    ensures Coherent(MoveCharacter(env, m, a))
  {
    var lx := Normalize(env, a.lx);
    var ly := Normalize(env, a.ly);
    var left, right := lx < 0, lx > 0;
    var up, down := !left && !right && ly < 0, !left && !right && ly > 0;
    var scale := if left || up then -(if left then lx else ly) else if right then lx else ly;
    if left || right || up || down {
      assert MoveCharacter(env, m, a) == Updated(env, m, left, right, up, down, false, scale);
      UpdatedCoherent(env, m, left, right, up, down, false, scale);
    } else {
      assert MoveCharacter(env, m, a) == m;
    }
  }

  lemma ApplyGravityCoherent(env: Env, m: Motion, g: Vec)
    requires Coherent(m)
    ensures Coherent(ApplyGravity(env, m, g))
  {
    GravityCases(env, m, g);
    var r := ApplyGravity(env, m, g);
    if r.state != m.state {
      var climbed := YClear(env, m.pos.Add(m.speed), m.speed);
      var p1 := if climbed then m.pos.Add(m.speed) else m.pos;
      UpdateStateCoherent(m.(pos := p1, speed := ZERO, jumping := false,
                             climbing := r.climbing));
    }
  }

  lemma JumpCoherent(env: Env, m: Motion)
    requires Coherent(m)
    ensures Coherent(Jump(env, m))
  {
    if env.almostZero(m.speed.y) && !m.jumping {
      UpdateStateCoherent(m.(jumping := true));
    }
  }

  lemma AxisXChangedCoherent(env: Env, m: Motion, value: int)
    requires Coherent(m)
    ensures Coherent(AxisXChanged(env, m, value))
  {
    if Normalize(env, value) == 0 {
      UpdatedCoherent(env, m, value < 0, value > 0, false, false, true, FULL_SCALE);
    }
  }

  lemma TickCoherent(env: Env, m: Motion, a: Axes, g: Vec)
    requires Coherent(m)
    ensures Coherent(Tick(env, m, a, g))
  {
    MoveCharacterCoherent(env, m, a);
    ApplyGravityCoherent(env, MoveCharacter(env, m, a), g);
  }

  /** Any number of ticks keeps the state coherent. */
  lemma {:induction false} RunCoherent(env: Env, m: Motion, inputs: seq<Axes>, g: Vec)
    requires Coherent(m)
    ensures Coherent(Run(env, m, inputs, g))
    decreases |inputs|
  {
    if inputs != [] {
      TickCoherent(env, m, inputs[0], g);
      RunCoherent(env, Tick(env, m, inputs[0], g), inputs[1..], g);
    }
  }

  // ----------------------------------------------------------------- resting

  /** A player standing still on ground: not jumping, no ladder under the
      feet, and the first gravity step blocked both horizontally and on a
      ladder. */
  ghost predicate Resting(env: Env, m: Motion, g: Vec) {
    && m.speed == ZERO
    && !m.jumping
    && !YClear(env, m.pos, ZERO)
    && !XClear(env, m.pos.Add(g), g)
    && !YClear(env, m.pos.Add(g), g)
  }

  /** A tick without input leaves a resting player exactly as it was. */
  lemma TickAtRest(env: Env, m: Motion, a: Axes, g: Vec)
    requires Resting(env, m, g) && AtRestInput(env, a)
    ensures Tick(env, m, a, g) == m
  {
    DeadZoneInputIsIgnored(env, m, a);
    assert m.pos.Add(m.speed) == m.pos;
    assert m.speed.Add(g) == g;
    BlockedMovesStop(env, m, g);
  }

  /** ... and so does any number of such ticks. */
  lemma {:induction false} RunAtRest(env: Env, m: Motion, inputs: seq<Axes>, g: Vec)
    requires Resting(env, m, g)
    requires forall i :: 0 <= i < |inputs| ==> AtRestInput(env, inputs[i])
    ensures Run(env, m, inputs, g) == m
    decreases |inputs|
  {
    if inputs != [] {
      TickAtRest(env, m, inputs[0], g);
      RunAtRest(env, m, inputs[1..], g);
    }
  }

  /** The climbing flag is sticky: once set, ticks without input never clear
      it (only a horizontal intent or a mid-air release does). */
  lemma {:induction false} NoInputKeepsClimbing(env: Env, m: Motion, inputs: seq<Axes>, g: Vec)
    requires m.climbing
    requires forall i :: 0 <= i < |inputs| ==> AtRestInput(env, inputs[i])
    ensures Run(env, m, inputs, g).climbing
    decreases |inputs|
  {
    if inputs != [] {
      DeadZoneInputIsIgnored(env, m, inputs[0]);
      GravityCases(env, m, g);
      NoInputKeepsClimbing(env, Tick(env, m, inputs[0], g), inputs[1..], g);
    }
  }
}
