/** The per-tick player movement core of the platformer scene, as functions
    of the player's state before each call: the probe-and-commit movers, the
    animation-state selector, the intent dispatcher, the jump handler and the
    gravity step. The scene class in SceneMain runs the same steps in place
    and is proved to agree with these functions. */
module Movement {
  import opened Geometry
  import opened Collisions

  /** What the core reads from its surroundings and never changes:
      the collision map lookup, the analog dead-zone test of
      `normalizeAlmostZero(.075f)`, and the `isAlmostZero` test on speeds. */
  datatype Env = Env(
    getPixel: Vec -> int,
    inDeadZone: int -> bool,
    almostZero: int -> bool)

  /** One snapshot of the controller's two analog axes, in hundredths of a
      full deflection (negative is left or up). */
  datatype Axes = Axes(lx: int, ly: int)

  /** The player's animations. `setState` compares them by their names,
      which are distinct, so comparing the constructors is the same test. */
  datatype Anim = Idle | Walking | Jumping | Climbing {
    /** The name of the animation clip. */
    function Name(): string {
      match this
      case Idle => "idle"
      case Walking => "walking"
      case Jumping => "jumping"
      case Climbing => "climbing"
    }
  }

  /** Distinct animations have distinct names, so `playerState != name`
      holds exactly when the constructors differ. */
  lemma NamesDistinct(a: Anim, b: Anim)
    ensures a.Name() == b.Name() <==> a == b
  {
  }

  /** A state change handed to the presentation layer: the animation to play
      and the cross-fade time in milliseconds. */
  datatype Transition = Transition(anim: Anim, millis: nat)

  /** The player's movement state: position, speed, the three movement flags,
      the current animation state, and every transition requested so far. */
  datatype Motion = Motion(
    pos: Vec,
    speed: Vec,
    climbing: bool,
    jumping: bool,
    walking: bool,
    state: Anim,
    requests: seq<Transition>)

  /** Outcome of a mover: whether the move was committed, and the new state. */
  datatype Step = Step(committed: bool, after: Motion)

  /** Horizontal step per hundredth of deflection (2.0 px at full deflection). */
  const WALK_STEP: int := 20
  /** Vertical step per hundredth of deflection (0.7 px at full deflection). */
  const CLIMB_STEP: int := 7
  /** Speed added by a jump: 5.5 px upwards. */
  const JUMP_IMPULSE: Vec := Vec(0, -5500)
  /** Cross-fade times: 0.1 s into an active state, 0.3 s into idle. */
  const FAST: nat := 100
  const SLOW: nat := 300
  /** The scale `updated` is given when none is passed (1f). */
  const FULL_SCALE: int := 100

  /** Kotlin's `Iterable.all`: whether every point passes the test. */
  function All(points: seq<Vec>, test: Vec -> bool): (r: bool)
    ensures r <==> forall i :: 0 <= i < |points| ==> test(points[i])
  {
    if points == [] then true else test(points[0]) && All(points[1..], test)
  }

  /** `All` spelled out for a list of four points. */
  lemma AllOfFour(points: seq<Vec>, test: Vec -> bool)
    requires |points| == 4
    ensures All(points, test) <==>
      test(points[0]) && test(points[1]) && test(points[2]) && test(points[3])
  {
  }

  /** `All` spelled out for a list of two points. */
  lemma AllOfTwo(points: seq<Vec>, test: Vec -> bool)
    requires |points| == 2
    ensures All(points, test) <==> test(points[0]) && test(points[1])
  {
  }

  /** The four probes of the horizontal mover around candidate position p:
      both sides of the sprite, near the top of the legs and near the feet. */
  function XProbes(p: Vec): (r: seq<Vec>)
  {
    [Vec(p.x - 12000, p.y + 14000), Vec(p.x + 12000, p.y + 14000),
     Vec(p.x - 12000, p.y + 28500), Vec(p.x + 12000, p.y + 28500)]
  }

  /** The two probes of the vertical mover, under the feet. */
  function YProbes(p: Vec): (r: seq<Vec>)
  {
    [Vec(p.x - 6000, p.y + 29000), Vec(p.x + 6000, p.y + 29000)]
  }

  /** The horizontal mover accepts candidate p when no probe is solid. */
  predicate XClear(env: Env, p: Vec, direction: Vec) {
    var probes := XProbes(p);
    && !IsSolid(env.getPixel(probes[0]), direction)
    && !IsSolid(env.getPixel(probes[1]), direction)
    && !IsSolid(env.getPixel(probes[2]), direction)
    && !IsSolid(env.getPixel(probes[3]), direction)
  }

  /** The vertical mover accepts candidate p when every probe is a ladder. */
  predicate YClear(env: Env, p: Vec, direction: Vec) {
    var probes := YProbes(p);
    IsLadder(env.getPixel(probes[0]), direction) && IsLadder(env.getPixel(probes[1]), direction)
  }

  /** The horizontal probes are exactly the four corners 12 px to either
      side of the candidate position, 14 px and 28.5 px below its top. */
  lemma XProbeOffsets(p: Vec)
    ensures |XProbes(p)| == 4
    ensures forall q :: q in XProbes(p) ==>
      (q.x == p.x - 12000 || q.x == p.x + 12000) && (q.y == p.y + 14000 || q.y == p.y + 28500)
    ensures Vec(p.x - 12000, p.y + 14000) in XProbes(p)
    ensures Vec(p.x + 12000, p.y + 14000) in XProbes(p)
    ensures Vec(p.x - 12000, p.y + 28500) in XProbes(p)
    ensures Vec(p.x + 12000, p.y + 28500) in XProbes(p)
  {
    var s := XProbes(p);
    assert s[0] == Vec(p.x - 12000, p.y + 14000);
    assert s[1] == Vec(p.x + 12000, p.y + 14000);
    assert s[2] == Vec(p.x - 12000, p.y + 28500);
    assert s[3] == Vec(p.x + 12000, p.y + 28500);
  }

  /** The vertical probes are exactly the two points 6 px to either side,
      29 px below the top. */
  lemma YProbeOffsets(p: Vec)
    ensures |YProbes(p)| == 2
    ensures forall q :: q in YProbes(p) ==> (q.x == p.x - 6000 || q.x == p.x + 6000) && q.y == p.y + 29000
    ensures Vec(p.x - 6000, p.y + 29000) in YProbes(p)
    ensures Vec(p.x + 6000, p.y + 29000) in YProbes(p)
  {
    var s := YProbes(p);
    assert s[0] == Vec(p.x - 6000, p.y + 29000);
    assert s[1] == Vec(p.x + 6000, p.y + 29000);
  }

  /** `XClear` is the source's `collisionPoints.all { !isSolid(..) }`. */
  lemma XClearIsAll(env: Env, p: Vec, direction: Vec)
    ensures XClear(env, p, direction) <==>
      All(XProbes(p), q => !IsSolid(env.getPixel(q), direction))
  {
    AllOfFour(XProbes(p), q => !IsSolid(env.getPixel(q), direction));
  }

  /** `YClear` is the source's `collisionPoints.all { isLadder(..) }`. */
  lemma YClearIsAll(env: Env, p: Vec, direction: Vec)
    ensures YClear(env, p, direction) <==>
      All(YProbes(p), q => IsLadder(env.getPixel(q), direction))
  {
    AllOfTwo(YProbes(p), q => IsLadder(env.getPixel(q), direction));
  }

  /** `tryMoveDeltaX`: all or nothing, the move by delta is committed exactly
      when none of the probes at the candidate position is solid. */
  function TryMoveX(env: Env, m: Motion, delta: Vec): (r: Step)
    ensures r.committed <==>
      forall q :: q in XProbes(m.pos.Add(delta)) ==> !IsSolid(env.getPixel(q), delta)
    ensures r.committed ==> r.after == m.(pos := Vec(m.pos.x + delta.x, m.pos.y + delta.y))
    ensures !r.committed ==> r.after == m
  {
    var newPos := m.pos.Add(delta);
    var passed := XClear(env, newPos, delta);
    Step(passed, if passed then m.(pos := newPos) else m)
  }

  /** `tryMoveDeltaY`: the move by delta is committed exactly when every probe
      under the candidate feet is a ladder; a committed move also sets the
      climbing flag, a refused one leaves everything, climbing included, as
      it was. */
  function TryMoveY(env: Env, m: Motion, delta: Vec): (r: Step)
    ensures r.committed <==>
      forall q :: q in YProbes(m.pos.Add(delta)) ==> IsLadder(env.getPixel(q), delta)
    ensures r.committed ==>
      r.after == m.(pos := Vec(m.pos.x + delta.x, m.pos.y + delta.y), climbing := true)
    ensures !r.committed ==> r.after == m
  {
    var newPos := m.pos.Add(delta);
    var passed := YClear(env, newPos, delta);
    Step(passed, if passed then m.(pos := newPos, climbing := true) else m)
  }

  /** `setState`: switch to the named animation, requesting a transition of
      the given length only when the name differs from the current one. */
  function SetState(m: Motion, anim: Anim, millis: nat): (r: Motion)
    ensures r.state == anim
    ensures r.(state := m.state, requests := m.requests) == m
    ensures r == m <==> m.state == anim
    ensures r.requests == if m.state == anim then m.requests
                          else m.requests + [Transition(anim, millis)]
  {
    if m.state != anim then
      m.(state := anim, requests := m.requests + [Transition(anim, millis)])
    else
      m
  }

  /** The cross-fade time of each animation: 0.1 s into an active state,
      0.3 s into idle. */
  function Duration(a: Anim): nat {
    if a == Idle then SLOW else FAST
  }

  /** The animation the flags call for, by fixed priority
      jumping > climbing > walking > idle, with its cross-fade time. */
  function Desired(m: Motion): (t: Transition)
    ensures t.anim == Jumping <==> m.jumping
    ensures t.anim == Climbing <==> !m.jumping && m.climbing
    ensures t.anim == Walking <==> !m.jumping && !m.climbing && m.walking
    ensures t.anim == Idle <==> !m.jumping && !m.climbing && !m.walking
    ensures t.millis == if t.anim == Idle then SLOW else FAST
  {
    var anim :=
      if m.jumping then Jumping
      else if m.climbing then Climbing
      else if m.walking then Walking
      else Idle;
    Transition(anim, Duration(anim))
  }

  /** `updateState`: afterwards the animation state is the one the flags call
      for; nothing but the state and the request log changes, and a state
      that already matches the flags is left alone. */
  function UpdateState(m: Motion): (r: Motion)
    ensures r.state == Desired(m).anim
    ensures r.(state := m.state, requests := m.requests) == m
    ensures m.state == Desired(m).anim ==> r == m
    ensures m.requests <= r.requests
  {
    var t := Desired(m);
    SetState(m, t.anim, t.millis)
  }

  /** The step `updated` tries for a horizontal intent:
      `Point(2.0, 0) * (if (right) +1 else -1) * scale`. */
  function WalkDelta(right: bool, scale: int): Vec {
    Vec((if right then 1 else -1) * WALK_STEP * scale, 0)
  }

  /** The step `updated` tries for a vertical intent:
      `Point(0, 0.7) * (if (up) -1 else +1) * scale`. */
  function ClimbDelta(up: bool, scale: int): Vec {
    Vec(0, (if up then -1 else 1) * CLIMB_STEP * scale)
  }

  /** The movement part of `updated`. On the ground, a horizontal intent
      walks, otherwise a vertical intent climbs; in mid-air nothing moves
      and both walking and climbing are cleared. */
  function Steer(env: Env, m: Motion, left: bool, right: bool, up: bool, down: bool,
                 midAir: bool, scale: int): (r: Motion)
    ensures r.speed == m.speed && r.jumping == m.jumping
    ensures r.state == m.state && r.requests == m.requests
    ensures midAir ==> r.pos == m.pos && !r.climbing && !r.walking
  {
    if !midAir then
      if left || right then
        var step := TryMoveX(env, m, WalkDelta(right, scale));
        step.after.(climbing := false, walking := true)
      else if up || down then
        var step := TryMoveY(env, m, ClimbDelta(up, scale));
        step.after.(walking := false)
      else
        m
    else
      m.(climbing := false, walking := false)
  }

  /** `updated`: act on one movement intent, then re-derive the animation,
      which is done in every case. */
  function Updated(env: Env, m: Motion, left: bool, right: bool, up: bool, down: bool,
                   midAir: bool, scale: int): (r: Motion)
    ensures r.state == Desired(r).anim
    ensures r.speed == m.speed && r.jumping == m.jumping
    ensures m.requests <= r.requests
  {
    UpdateState(Steer(env, m, left, right, up, down, midAir, scale))
  }

  /** `normalizeAlmostZero`: a value inside the dead-zone reads as zero. */
  function Normalize(env: Env, v: int): (r: int)
    ensures r == 0 || r == v
    ensures r == 0 <==> env.inDeadZone(v) || v == 0
  {
    if env.inDeadZone(v) then 0 else v
  }

  /** The dead-zone of `normalizeAlmostZero(.075f)` on axes read in
      hundredths: 7.5 hundredths is not a possible reading, so readings of
      magnitude at most 7 are inside and readings of 8 or more outside,
      whether the library compares with `<` or with `<=`. */
  ghost predicate DeadZone75(env: Env) {
    forall v :: env.inDeadZone(v) <==> -7 <= v <= 7
  }

  /** Both axes of a snapshot read as zero. */
  predicate AtRestInput(env: Env, a: Axes) {
    Normalize(env, a.lx) == 0 && Normalize(env, a.ly) == 0
  }

  /** The "move character" part of the fixed tick: the first of left, right,
      up, down whose axis is outside the dead-zone is dispatched, with the
      axis magnitude as scale; with both axes in the dead-zone nothing runs. */
  function MoveCharacter(env: Env, m: Motion, a: Axes): (r: Motion)
    ensures r.speed == m.speed && r.jumping == m.jumping
    ensures m.requests <= r.requests
  {
    var lx := Normalize(env, a.lx);
    var ly := Normalize(env, a.ly);
    if lx < 0 then Updated(env, m, true, false, false, false, false, -lx)
    else if lx > 0 then Updated(env, m, false, true, false, false, false, lx)
    else if ly < 0 then Updated(env, m, false, false, true, false, false, -ly)
    else if ly > 0 then Updated(env, m, false, false, false, true, false, ly)
    else m
  }

  /** The first half of the "apply gravity" part of the fixed tick: the
      speed is tried as a ladder move, and only if that is refused is
      gravity added to it. */
  function ClimbOrFall(env: Env, m: Motion, gravityStep: Vec): (r: Motion)
    ensures r.walking == m.walking && r.jumping == m.jumping
    ensures r.state == m.state && r.requests == m.requests
  {
    var climb := TryMoveY(env, m, m.speed);
    if climb.committed then climb.after
    else climb.after.(speed := climb.after.speed.Add(gravityStep))
  }

  /** The second half: the speed is tried as a horizontal move and, only if
      that is refused, as a ladder move again; when both are refused the
      player stops, and a jump in progress ends. */
  function Settle(env: Env, m: Motion): (r: Motion)
    ensures r.walking == m.walking && (r.jumping ==> m.jumping)
    ensures r.speed == m.speed || r.speed == ZERO
    ensures m.requests <= r.requests
  {
    var side := TryMoveX(env, m, m.speed);
    if side.committed then side.after
    else
      var vert := TryMoveY(env, m, m.speed);
      if vert.committed then vert.after
      else
        var stopped := m.(speed := ZERO);
        if stopped.jumping then UpdateState(stopped.(jumping := false)) else stopped
  }

  /** The "apply gravity" part of the fixed tick. */
  function ApplyGravity(env: Env, m: Motion, gravityStep: Vec): (r: Motion)
    ensures r.walking == m.walking && (r.jumping ==> m.jumping)
    ensures m.requests <= r.requests
  {
    Settle(env, ClimbOrFall(env, m, gravityStep))
  }

  /** One fixed tick (camera left out): input, then gravity. */
  function Tick(env: Env, m: Motion, a: Axes, gravityStep: Vec): (r: Motion)
    ensures r.jumping ==> m.jumping
    ensures m.requests <= r.requests
  {
    ApplyGravity(env, MoveCharacter(env, m, a), gravityStep)
  }

  /** A run of fixed ticks, one per input snapshot, with constant gravity. */
  function Run(env: Env, m: Motion, inputs: seq<Axes>, gravityStep: Vec): (r: Motion)
    ensures r.jumping ==> m.jumping
    ensures m.requests <= r.requests
    decreases |inputs|
  {
    if inputs == [] then m
    else Run(env, Tick(env, m, inputs[0], gravityStep), inputs[1..], gravityStep)
  }

  /** The handler of the jump button: acts only when the vertical speed is
      almost zero, then marks the jump (re-deriving the animation only if it
      was not already jumping) and adds the upward impulse. */
  function Jump(env: Env, m: Motion): (r: Motion)
    ensures r.pos == m.pos && r.climbing == m.climbing && r.walking == m.walking
    ensures m.requests <= r.requests
  {
    if env.almostZero(m.speed.y) then
      var m1 := if !m.jumping then UpdateState(m.(jumping := true)) else m;
      m1.(speed := m1.speed.Add(JUMP_IMPULSE))
    else
      m
  }

  /** The handler of a change of the horizontal axis: when the new value reads
      as zero, `updated` runs in its mid-air form. */
  function AxisXChanged(env: Env, m: Motion, value: int): (r: Motion)
    ensures r.pos == m.pos && r.speed == m.speed && r.jumping == m.jumping
    ensures m.requests <= r.requests
  {
    if Normalize(env, value) == 0 then
      Updated(env, m, value < 0, value > 0, false, false, true, FULL_SCALE)
    else
      m
  }

  /** What every reachable state satisfies: the animation is Jumping exactly
      while a jump is in progress; the current animation is the last one
      requested, or the initial idle when nothing was requested; the first
      request leaves idle; every request carries its animation's cross-fade
      time; and no two consecutive requests name the same animation. */
  ghost predicate Coherent(m: Motion) {
    && (m.jumping <==> m.state == Jumping)
    && LogCoherent(m)
  }

  /** The clauses of `Coherent` about the request log. */
  ghost predicate LogCoherent(m: Motion) {
    && (|m.requests| == 0 ==> m.state == Idle)
    && (|m.requests| > 0 ==> m.requests[|m.requests| - 1].anim == m.state)
    && (|m.requests| > 0 ==> m.requests[0].anim != Idle)
    && (forall i :: 0 <= i < |m.requests| ==> m.requests[i].millis == Duration(m.requests[i].anim))
    && (forall i, j :: 0 <= i && j == i + 1 && j < |m.requests| ==>
          m.requests[i].anim != m.requests[j].anim)
  }

  /** Where the scene starts: at (200, 150), still, idle. */
  const INITIAL: Motion := Motion(Vec(200000, 150000), ZERO, false, false, false, Idle, [])
}
