/** The controlled player (src/Player.java): four movement flags set by the
    input layer, a per-tick update that steps the position by a fixed speed and
    clamps it to the level, and a walk animation driven by a tick counter.
    Java `float` positions are modelled as `real`; the level's pixel size is
    passed in, and the walk images are represented by their count. */
module PlayerModel {

  const MoveSpeed: real := 4.0
  /** Ticks between two animation frames. */
  const AnimationSpeed: int := 6
  const Width: int := 32
  const Height: int := 42
  /** At most this many walk images are probed for. */
  const MaxWalkFrames: int := 11
  /** Frames drawn when no walk image could be loaded. */
  const FallbackFrames: int := 8

  datatype Flags = Flags(left: bool, right: bool, up: bool, down: bool)

  const Idle: Flags := Flags(false, false, false, false)

  predicate IsMoving(f: Flags)
  {
    f.left || f.right || f.up || f.down
  }

  /** Everything a tick changes: the position, the facing direction and the
      animation frame and counter. */
  datatype PlayerState = PlayerState(x: real, y: real, facingRight: bool, frame: int, counter: int)

  predicate AnimationValid(s: PlayerState, n: int)
  {
    0 <= s.frame < n && 0 <= s.counter < AnimationSpeed
  }

  /** The player's box lies inside the level. */
  predicate InLevel(s: PlayerState, levelW: int, levelH: int)
  {
    0.0 <= s.x <= (levelW - Width) as real && 0.0 <= s.y <= (levelH - Height) as real
  }

  /** The two clamps of one axis, low edge first: the result never exceeds
      `extent - size`, is non-negative when the player fits, and is `v` itself
      when `v` is already inside. A coordinate past an edge lands on that edge;
      for a level smaller than the player the high edge wins. */
  function Clamp(v: real, extent: int, size: int): (r: real)
    ensures r <= (extent - size) as real
    ensures extent >= size ==> 0.0 <= r
    ensures 0.0 <= v <= (extent - size) as real ==> r == v
    ensures r == v || r == 0.0 || r == (extent - size) as real
    ensures v < 0.0 && extent >= size ==> r == 0.0
    ensures v > (extent - size) as real ==> r == (extent - size) as real
  {
    var low := if v < 0.0 then 0.0 else v;
    if low > (extent - size) as real then (extent - size) as real else low
  }

  /** One animation step over (frame, counter) with `n` walk frames: idle
      resets both to 0; the frame stays in [0, n) and the counter in [0, 6). */
  function Animate(frame: int, counter: int, moving: bool, n: int): (r: (int, int))
    requires n >= 1
    ensures !moving ==> r == (0, 0)
    ensures 0 <= frame < n && 0 <= counter < AnimationSpeed ==> 0 <= r.0 < n && 0 <= r.1 < AnimationSpeed
    ensures moving && r.1 != 0 ==> r.0 == frame && r.1 == counter + 1
  {
    if moving then
      var c := counter + 1;
      if c >= AnimationSpeed then ((frame + 1) % n, 0) else (frame, c)
    else
      (0, 0)
  }

  /** Horizontal step: left first, then right. */
  function StepX(x: real, f: Flags): (r: real)
  {
    var afterLeft := if f.left then x - MoveSpeed else x;
    if f.right then afterLeft + MoveSpeed else afterLeft
  }

  /** Vertical step: up first, then down (y grows downwards). */
  function StepY(y: real, f: Flags): (r: real)
  {
    var afterUp := if f.up then y - MoveSpeed else y;
    if f.down then afterUp + MoveSpeed else afterUp
  }

  /** Facing after the horizontal step: the flag applied last wins. */
  function Facing(facingRight: bool, f: Flags): (r: bool)
  {
    if f.right then true else if f.left then false else facingRight
  }

  /** One call of the player's update: step by the flags (left, then right,
      then up, then down), clamp both axes, then animate. */
  function Tick(s: PlayerState, f: Flags, levelW: int, levelH: int, n: int): (r: PlayerState)
    requires n >= 1
    ensures r.x <= (levelW - Width) as real && r.y <= (levelH - Height) as real
    ensures levelW >= Width ==> 0.0 <= r.x
    ensures levelH >= Height ==> 0.0 <= r.y
    ensures s.x + Displacement(f).0 < 0.0 && levelW >= Width ==> r.x == 0.0
    ensures s.x + Displacement(f).0 > (levelW - Width) as real ==> r.x == (levelW - Width) as real
    ensures s.y + Displacement(f).1 < 0.0 && levelH >= Height ==> r.y == 0.0
    ensures s.y + Displacement(f).1 > (levelH - Height) as real ==> r.y == (levelH - Height) as real
    ensures f.right ==> r.facingRight
    ensures f.left && !f.right ==> !r.facingRight
    ensures !f.left && !f.right ==> r.facingRight == s.facingRight
    ensures AnimationValid(s, n) ==> AnimationValid(r, n)
    ensures !IsMoving(f) ==> r.frame == 0 && r.counter == 0
  {
    var anim := Animate(s.frame, s.counter, IsMoving(f), n);
    PlayerState(Clamp(StepX(s.x, f), levelW, Width), Clamp(StepY(s.y, f), levelH, Height),
                Facing(s.facingRight, f), anim.0, anim.1)
  }

  /** Net displacement of one tick before clamping: right minus left, down minus up. */
  function Displacement(f: Flags): (d: (real, real))
  {
    ((if f.right then MoveSpeed else 0.0) - (if f.left then MoveSpeed else 0.0),
     (if f.down then MoveSpeed else 0.0) - (if f.up then MoveSpeed else 0.0))
  }

  /** Ticks applied in order to a starting state (one per timer event). */
  function Run(s: PlayerState, inputs: seq<Flags>, levelW: int, levelH: int, n: int): (r: PlayerState)
    requires n >= 1
    decreases |inputs|
  {
    if |inputs| == 0 then s
    else Tick(Run(s, inputs[..|inputs| - 1], levelW, levelH, n), inputs[|inputs| - 1], levelW, levelH, n)
  }

  /** Away from the level edges a tick moves by exactly the net displacement;
      with both horizontal flags set x is unchanged and the player faces right. */
  lemma TickMovesByDisplacement(s: PlayerState, f: Flags, levelW: int, levelH: int, n: int)
    requires n >= 1
    requires InLevel(PlayerState(s.x + Displacement(f).0, s.y + Displacement(f).1, s.facingRight, s.frame, s.counter), levelW, levelH)
    ensures Tick(s, f, levelW, levelH, n).x == s.x + Displacement(f).0
    ensures Tick(s, f, levelW, levelH, n).y == s.y + Displacement(f).1
    ensures f.left && f.right ==> Tick(s, f, levelW, levelH, n).x == s.x && Tick(s, f, levelW, levelH, n).facingRight
  {
  }

  /** Without input and inside the level, a tick keeps position and facing and
      shows the first frame. */
  lemma IdleTickKeepsPosition(s: PlayerState, levelW: int, levelH: int, n: int)
    requires n >= 1 && InLevel(s, levelW, levelH)
    ensures Tick(s, Idle, levelW, levelH, n) == PlayerState(s.x, s.y, s.facingRight, 0, 0)
  {
  }

  /** Without input a second tick changes nothing: the clamp is idempotent
      even for a level narrower or lower than the player. */
  lemma IdleTickIdempotent(s: PlayerState, levelW: int, levelH: int, n: int)
    requires n >= 1
    ensures Tick(Tick(s, Idle, levelW, levelH, n), Idle, levelW, levelH, n) == Tick(s, Idle, levelW, levelH, n)
  {
  }

  /** Any sequence of ticks keeps the frame in [0, n) and the counter in [0, 6). */
  lemma {:induction false} RunKeepsAnimationValid(s: PlayerState, inputs: seq<Flags>, levelW: int, levelH: int, n: int)
    requires n >= 1 && AnimationValid(s, n)
    ensures AnimationValid(Run(s, inputs, levelW, levelH, n), n)
    decreases |inputs|
  {
    if |inputs| > 0 {
      RunKeepsAnimationValid(s, inputs[..|inputs| - 1], levelW, levelH, n);
    }
  }

  /** A resting player stays exactly where it is for any number of idle ticks. */
  lemma {:induction false} IdleRunIsFixpoint(s: PlayerState, inputs: seq<Flags>, levelW: int, levelH: int, n: int)
    requires n >= 1 && InLevel(s, levelW, levelH) && s.frame == 0 && s.counter == 0
    requires forall i :: 0 <= i < |inputs| ==> !IsMoving(inputs[i])
    ensures Run(s, inputs, levelW, levelH, n) == s
    decreases |inputs|
  {
    if |inputs| > 0 {
      IdleRunIsFixpoint(s, inputs[..|inputs| - 1], levelW, levelH, n);
      assert inputs[|inputs| - 1] == Idle by {
        assert !IsMoving(inputs[|inputs| - 1]);
      }
      IdleTickKeepsPosition(s, levelW, levelH, n);
    }
  }

  /** Quotient and remainder are unique. */
  lemma {:induction false} DivModUnique(a: int, n: int, q: int, r: int)
    requires n >= 1 && a == q * n + r && 0 <= r < n
    ensures a / n == q && a % n == r
  {
    var q', r' := a / n, a % n;
    assert a == q' * n + r' && 0 <= r' < n;
    assert (q - q') * n == r' - r;
    if q - q' >= 1 {
      assert false;
    } else if q' - q >= 1 {
      assert false;
    }
  }

  lemma {:induction false} ModSucc(a: int, n: int)
    requires a >= 0 && n >= 1
    ensures (a % n + 1) % n == (a + 1) % n
  {
    var q, r := a / n, a % n;
    assert a == q * n + r && 0 <= r < n;
    if r + 1 < n {
      DivModUnique(a + 1, n, q, r + 1);
      DivModUnique(r + 1, n, 0, r + 1);
    } else {
      assert (q + 1) * n == q * n + n;
      DivModUnique(a + 1, n, q + 1, 0);
      DivModUnique(r + 1, n, 1, 0);
    }
  }

  /** One moving animation step advances the closed form by one tick: t ticks
      after frame f0 and counter 0 the pair is ((f0 + t / 6) mod n, t mod 6). */
  lemma {:induction false} AnimateAdvancesCycle(f0: int, t: int, n: int)
    requires n >= 1 && f0 >= 0 && t >= 0
    ensures Animate((f0 + t / AnimationSpeed) % n, t % AnimationSpeed, true, n)
         == ((f0 + (t + 1) / AnimationSpeed) % n, (t + 1) % AnimationSpeed)
  {
    var q := t / AnimationSpeed;
    if t % AnimationSpeed == AnimationSpeed - 1 {
      assert (t + 1) / AnimationSpeed == q + 1 && (t + 1) % AnimationSpeed == 0;
      ModSucc(f0 + q, n);
    } else {
      assert (t + 1) / AnimationSpeed == q && (t + 1) % AnimationSpeed == t % AnimationSpeed + 1;
    }
  }

  /** One moving update advances the closed form of the walk cycle by one tick. */
  lemma {:induction false} WalkStep(prev: PlayerState, f: Flags, f0: int, t: int, levelW: int, levelH: int, n: int)
    requires n >= 1 && f0 >= 0 && t >= 0 && IsMoving(f)
    requires prev.counter == t % AnimationSpeed && prev.frame == (f0 + t / AnimationSpeed) % n
    ensures Tick(prev, f, levelW, levelH, n).counter == (t + 1) % AnimationSpeed
    ensures Tick(prev, f, levelW, levelH, n).frame == (f0 + (t + 1) / AnimationSpeed) % n
  {
    AnimateAdvancesCycle(f0, t, n);
  }

  /** The walk cycle: after k moving ticks from a valid (frame, counter), the
      counter is (counter + k) mod 6 and the frame has advanced once per six
      ticks, modulo the frame count. From the resting state (0, 0) the frame
      is (k / 6) mod n. */
  lemma {:induction false} WalkCycle(s: PlayerState, inputs: seq<Flags>, levelW: int, levelH: int, n: int)
    requires n >= 1 && AnimationValid(s, n)
    requires forall i :: 0 <= i < |inputs| ==> IsMoving(inputs[i])
    ensures Run(s, inputs, levelW, levelH, n).counter == (s.counter + |inputs|) % AnimationSpeed
    ensures Run(s, inputs, levelW, levelH, n).frame == (s.frame + (s.counter + |inputs|) / AnimationSpeed) % n
    decreases |inputs|
  {
    if |inputs| == 0 {
      assert s.counter % AnimationSpeed == s.counter && s.counter / AnimationSpeed == 0;
      DivModUnique(s.frame, n, 0, s.frame);
    } else {
      var k := |inputs| - 1;
      var prefix := inputs[..k];
      assert forall i :: 0 <= i < |prefix| ==> IsMoving(prefix[i]);
      WalkCycle(s, prefix, levelW, levelH, n);
      WalkStep(Run(s, prefix, levelW, levelH, n), inputs[k], s.frame, s.counter + k, levelW, levelH, n);
    }
  }

  class Player {
    /** pos.x and pos.y of the Java object. */
    var x: real
    var y: real
    var movingLeft: bool
    var movingRight: bool
    var movingUp: bool
    var movingDown: bool
    var facingRight: bool
    var animationFrame: int
    var animationCounter: int
    /** Size of the walk image list, fixed once the constructor has loaded it. */
    const frameCount: int

    function Snapshot(): (s: PlayerState)
      reads this
    {
      PlayerState(x, y, facingRight, animationFrame, animationCounter)
    }

    function MovementFlags(): (f: Flags)
      reads this
    {
      Flags(movingLeft, movingRight, movingUp, movingDown)
    }

    /** The list lookup of the current frame is always in range. */
    ghost predicate Valid()
      reads this
    {
      frameCount >= 1 && AnimationValid(Snapshot(), frameCount)
    }

    /** `loadedFrames` is how many of the eleven walk images were found; with
        none, eight fallback frames are drawn instead. */
    constructor (startX: real, startY: real, loadedFrames: nat)
      requires loadedFrames <= MaxWalkFrames
      ensures Valid()
      ensures frameCount == if loadedFrames == 0 then FallbackFrames else loadedFrames
      ensures x == startX && y == startY
      ensures MovementFlags() == Idle && facingRight
      ensures animationFrame == 0 && animationCounter == 0
    {
      x, y := startX, startY;
      movingLeft, movingRight, movingUp, movingDown := false, false, false, false;
      facingRight := true;
      animationFrame, animationCounter := 0, 0;
      frameCount := if loadedFrames == 0 then FallbackFrames else loadedFrames;
    }

    /** One timer tick inside a level of `levelW` by `levelH` pixels: step,
        clamp, animate. */
    method Update(levelW: int, levelH: int)
      requires Valid()
      modifies this`x, this`y, this`facingRight, this`animationFrame, this`animationCounter
      ensures Valid()
      ensures Snapshot() == Tick(old(Snapshot()), MovementFlags(), levelW, levelH, frameCount)
    {
      Step();
      ClampToLevel(levelW, levelH);
      UpdateAnimation();
    }

    /** The four movement blocks at the start of the update. */
    method Step()
      modifies this`x, this`y, this`facingRight
      ensures x == StepX(old(x), MovementFlags()) && y == StepY(old(y), MovementFlags())
      ensures facingRight == Facing(old(facingRight), MovementFlags())
    {
      if movingLeft {
        x := x - MoveSpeed;
        facingRight := false;
      }
      if movingRight {
        x := x + MoveSpeed;
        facingRight := true;
      }
      if movingUp {
        y := y - MoveSpeed;
      }
      if movingDown {
        y := y + MoveSpeed;
      }
    }

    /** The four level-bound checks of the update. */
    method ClampToLevel(levelW: int, levelH: int)
      modifies this`x, this`y
      ensures x == Clamp(old(x), levelW, Width) && y == Clamp(old(y), levelH, Height)
    {
      if x < 0.0 { x := 0.0; }
      if x > (levelW - Width) as real { x := (levelW - Width) as real; }
      if y < 0.0 { y := 0.0; }
      if y > (levelH - Height) as real { y := (levelH - Height) as real; }
    }

    method UpdateAnimation()
      requires Valid()
      modifies this`animationFrame, this`animationCounter
      ensures Valid()
      ensures (animationFrame, animationCounter)
        == Animate(old(animationFrame), old(animationCounter), IsMoving(MovementFlags()), frameCount)
    {
      if movingLeft || movingRight || movingUp || movingDown {
        animationCounter := animationCounter + 1;
        if animationCounter >= AnimationSpeed {
          animationFrame := (animationFrame + 1) % frameCount;
          animationCounter := 0;
        }
      } else {
        animationFrame := 0;
        animationCounter := 0;
      }
    }

    method SetMovingLeft(moving: bool)
      modifies this`movingLeft
      ensures MovementFlags() == old(MovementFlags()).(left := moving)
    {
      movingLeft := moving;
    }

    method SetMovingRight(moving: bool)
      modifies this`movingRight
      ensures MovementFlags() == old(MovementFlags()).(right := moving)
    {
      movingRight := moving;
    }

    method SetMovingUp(moving: bool)
      modifies this`movingUp
      ensures MovementFlags() == old(MovementFlags()).(up := moving)
    {
      movingUp := moving;
    }

    method SetMovingDown(moving: bool)
      modifies this`movingDown
      ensures MovementFlags() == old(MovementFlags()).(down := moving)
    {
      movingDown := moving;
    }
  }
}
