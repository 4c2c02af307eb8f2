// The two behaviours of the Pong game built on the as1 engine
// (pong/Paddle.java and pong/Ball.java). Collision callbacks arrive with the
// other object's name; the paddle reads the keyboard through the engine's
// key table. The ball's sound is returned as an emitted event.
module Pong {
  import opened Vectors
  import opened UEnginePhysics
  import opened InputEngine

  /** java.awt.event.KeyEvent.VK_UP and VK_DOWN. */
  const VkUp: int := 38
  const VkDown: int := 40

  const PaddleSpeed: real := 170.0
  const BallSpeed: real := 120.0

  /** Game.WINDOW_WIDTH and WINDOW_HEIGHT. */
  const WindowWidth: real := 800.0
  const WindowHeight: real := 600.0

  /** A collision callback the paddle receives, with the other object's name. */
  datatype Callback = CollisionEnter(name: string) | CollisionExit(name: string)

  /** The paddle's blocking flags. */
  datatype Flags = Flags(atTop: bool, atBottom: bool)

  /** onCollisionEnter / onCollisionExit on the flags: only "top" and "bottom" matter. */
  function OnCallback(f: Flags, c: Callback): (r: Flags)
    ensures c.name != "bottom" && c.name != "top" ==> r == f
  {
    var entering := c.CollisionEnter?;
    Flags(if c.name == "top" then entering else f.atTop, if c.name == "bottom" then entering else f.atBottom)
  }

  /** The flags after a run of callbacks, in the order they arrived. */
  function FlagsAfter(f: Flags, cs: seq<Callback>): Flags
    decreases |cs|
  {
    if cs == [] then f else OnCallback(FlagsAfter(f, cs[..|cs| - 1]), cs[|cs| - 1])
  }

  /** Callbacks about other objects leave a flag alone. */
  lemma {:induction false} FlagsAfterUntouched(f: Flags, cs: seq<Callback>)
    ensures (forall i :: 0 <= i < |cs| ==> cs[i].name != "bottom") ==> FlagsAfter(f, cs).atBottom == f.atBottom
    ensures (forall i :: 0 <= i < |cs| ==> cs[i].name != "top") ==> FlagsAfter(f, cs).atTop == f.atTop
    decreases |cs|
  {
    if cs != [] {
      FlagsAfterUntouched(f, cs[..|cs| - 1]);
    }
  }

  lemma {:induction false} FlagsAfterConcat(f: Flags, a: seq<Callback>, b: seq<Callback>)
    ensures FlagsAfter(f, a + b) == FlagsAfter(FlagsAfter(f, a), b)
    decreases |b|
  {
    if b == [] {
      assert a + b == a;
    } else {
      assert (a + b)[..|a + b| - 1] == a + b[..|b| - 1];
      FlagsAfterConcat(f, a, b[..|b| - 1]);
    }
  }

  /**
   * A flag is set exactly when the latest callback about its wall was an
   * enter: the paddle is blocked while it touches the wall and free after.
   */
  lemma LatestCallbackDecides(f: Flags, cs: seq<Callback>, i: nat)
    requires i < |cs|
    ensures cs[i].name == "bottom" && (forall j :: i < j < |cs| ==> cs[j].name != "bottom") ==>
      FlagsAfter(f, cs).atBottom == cs[i].CollisionEnter?
    ensures cs[i].name == "top" && (forall j :: i < j < |cs| ==> cs[j].name != "top") ==>
      FlagsAfter(f, cs).atTop == cs[i].CollisionEnter?
  {
    var front, back := cs[..i + 1], cs[i + 1..];
    assert cs == front + back;
    FlagsAfterConcat(f, front, back);
    assert front[..|front| - 1] == cs[..i];
    assert forall j :: 0 <= j < |back| ==> back[j] == cs[i + 1 + j];
    FlagsAfterUntouched(FlagsAfter(f, front), back);
  }

  /**
   * The paddle's new height: down (growing y) when DOWN is held and it is not
   * at the bottom, else up when UP is held and it is not at the top.
   */
  function PaddleY(y: real, elapsed: real, down: bool, up: bool, f: Flags): (r: real)
    ensures elapsed >= 0.0 && f.atBottom ==> r <= y
    ensures elapsed >= 0.0 && f.atTop ==> r >= y
    ensures elapsed >= 0.0 ==> Abs(r - y) <= elapsed * PaddleSpeed
    ensures !down && !up ==> r == y
    ensures down && !f.atBottom ==> r == y + elapsed * PaddleSpeed
    ensures !(down && !f.atBottom) && up && !f.atTop ==> r == y - elapsed * PaddleSpeed
    ensures !(down && !f.atBottom) && !(up && !f.atTop) ==> r == y
  {
    if down && !f.atBottom then y + elapsed * PaddleSpeed
    else if up && !f.atTop then y - elapsed * PaddleSpeed
    else y
  }

  class Paddle {
    var name: string
    var box: Box
    var atTop: bool
    var atBottom: bool

    constructor ()
      ensures !atTop && !atBottom
    {
      name := "";
      box := Box(Vec2(0.0, 0.0), Vec2(20.0, 20.0));
      atTop, atBottom := false, false;
    }

    method Start()
      modifies this
      ensures name == "paddle" && box == Box(Vec2(700.0, 300.0), Vec2(20.0, 130.0))
      ensures atTop == old(atTop) && atBottom == old(atBottom)
    {
      name := "paddle";
      box := Box(Vec2(700.0, 300.0), Vec2(20.0, 130.0));
    }

    /** update: moves the paddle vertically as the held arrow keys and the flags allow. */
    method Update(elapsedTime: real, keys: seq<Entry>)
      modifies this
      ensures box.size == old(box.size) && box.position.x == old(box.position.x)
      ensures box.position.y == PaddleY(old(box.position.y), elapsedTime,
        GetKey(keys, VkDown), GetKey(keys, VkUp), Flags(atTop, atBottom))
      ensures name == old(name) && atTop == old(atTop) && atBottom == old(atBottom)
    {
      var p := box.position;
      if GetKey(keys, VkDown) && !atBottom {
        box := box.(position := Vec2(p.x, p.y + elapsedTime * PaddleSpeed));
      } else if GetKey(keys, VkUp) && !atTop {
        box := box.(position := Vec2(p.x, p.y - elapsedTime * PaddleSpeed));
      }
    }

    method OnCollisionEnter(col: string)
      modifies this
      ensures Flags(atTop, atBottom) == OnCallback(old(Flags(atTop, atBottom)), CollisionEnter(col))
      ensures box == old(box) && name == old(name)
    {
      if col == "bottom" {
        atBottom := true;
      }
      if col == "top" {
        atTop := true;
      }
    }

    method OnCollisionExit(col: string)
      modifies this
      ensures Flags(atTop, atBottom) == OnCallback(old(Flags(atTop, atBottom)), CollisionExit(col))
      ensures box == old(box) && name == old(name)
    {
      if col == "bottom" {
        atBottom := false;
      }
      if col == "top" {
        atTop := false;
      }
    }
  }

  /** The ball's new direction after hitting the object named `col`. */
  function Flipped(v: Vec2, col: string): (r: Vec2)
    ensures Abs(r.x) == Abs(v.x) && Abs(r.y) == Abs(v.y)
    ensures col == "top" || col == "bottom" ==> r.x == v.x && r.y == -v.y
    ensures col != "top" && col != "bottom" ==> r.x == -v.x && r.y == v.y
  {
    if col == "top" || col == "bottom" then Vec2(v.x, -v.y) else Vec2(-v.x, v.y)
  }

  /** Two hits on the same object restore the original direction. */
  lemma FlipTwiceRestores(v: Vec2, col: string)
    ensures Flipped(Flipped(v, col), col) == v
  {
  }

  /** The ball's position after one update. */
  function Advanced(p: Vec2, v: Vec2, speed: real, elapsed: real): Vec2 {
    Vec2(p.x + v.x * speed * elapsed, p.y + v.y * speed * elapsed)
  }

  /** Two updates without a hit between them move the ball as one update over the total time. */
  lemma AdvanceAdditive(p: Vec2, v: Vec2, speed: real, e1: real, e2: real)
    ensures Advanced(Advanced(p, v, speed, e1), v, speed, e2) == Advanced(p, v, speed, e1 + e2)
  {
    assert v.x * speed * e1 + v.x * speed * e2 == v.x * speed * (e1 + e2);
    assert v.y * speed * e1 + v.y * speed * e2 == v.y * speed * (e1 + e2);
  }

  class Ball {
    var name: string
    var box: Box
    var speed: real
    var velocity: Vec2

    /** The initial velocity is (-root2, -root2), root2 standing for the float nearest the square root of 2. */
    constructor (root2: real)
      ensures speed == BallSpeed && velocity == Vec2(-root2, -root2)
    {
      name := "";
      box := Box(Vec2(0.0, 0.0), Vec2(20.0, 20.0));
      speed := BallSpeed;
      velocity := Vec2(-root2, -root2);
    }

    method Start()
      modifies this
      ensures name == "Ball" && box == Box(Vec2(WindowWidth / 2.0, WindowHeight / 2.0), Vec2(40.0, 40.0))
      ensures speed == old(speed) && velocity == old(velocity)
    {
      name := "Ball";
      box := Box(Vec2(400.0, 300.0), Vec2(40.0, 40.0));
    }

    method Update(elapsedTime: real)
      modifies this
      ensures box.position == Advanced(old(box.position), velocity, speed, elapsedTime)
      ensures box.size == old(box.size) && velocity == old(velocity) && speed == old(speed) && name == old(name)
    {
      var p := box.position;
      box := box.(position := Vec2(p.x + velocity.x * speed * elapsedTime, p.y + velocity.y * speed * elapsedTime));
    }

    /** onCollisionEnter: plays the blip and turns the ball away from what it hit. */
    method OnCollisionEnter(col: string) returns (sound: string)
      modifies this
      ensures sound == "blip"
      ensures velocity == Flipped(old(velocity), col)
      ensures box == old(box) && speed == old(speed) && name == old(name)
    {
      sound := "blip";
      if col == "top" || col == "bottom" {
        velocity := velocity.(y := velocity.y * -1.0);
      } else {
        velocity := velocity.(x := velocity.x * -1.0);
      }
    }
  }
}
