// The movement states an as4 avatar can be in (AnimationInfo in
// LocalAvatarScript.cs), the animator triggers that go with them, and the
// animation each state is shown with.
module AnimationInfo {
  import opened Bytes

  const Idle: byte := 0
  const Walking: byte := 1
  const TurningLeft: byte := 2
  const WalkingTurningLeft: byte := 3
  const TurningRight: byte := 4
  const WalkingTurningRight: byte := 5

  /** The four triggers the avatars' animator accepts. */
  datatype Trigger = WalkTrigger | IdleTrigger | TurnLeftTrigger | TurnRightTrigger

  /** The four animation states of the animator ("idle", "walking", "left_turn", "right_turn"). */
  datatype Animation = IdleAnimation | WalkingAnimation | LeftTurnAnimation | RightTurnAnimation

  /** IsLegalMovementState: the six movement states are the bytes 0 to 5. */
  predicate IsLegalMovementState(m: byte) {
    m == Idle || m == Walking || m == TurningLeft || m == WalkingTurningLeft
    || m == TurningRight || m == WalkingTurningRight
  }

  lemma LegalStatesAreZeroToFive(m: byte)
    ensures IsLegalMovementState(m) <==> 0 <= m <= 5
  {
  }

  /** The state the animator moves to on a trigger. */
  function TriggerTarget(t: Trigger): Animation {
    match t
    case WalkTrigger => WalkingAnimation
    case IdleTrigger => IdleAnimation
    case TurnLeftTrigger => LeftTurnAnimation
    case TurnRightTrigger => RightTurnAnimation
  }

  /**
   * The animation a movement state is shown with: every walking state walks,
   * and a turn is shown only while standing.
   */
  function AnimationOf(m: byte): Animation
    requires IsLegalMovementState(m)
  {
    if m == Idle then IdleAnimation
    else if m == TurningLeft then LeftTurnAnimation
    else if m == TurningRight then RightTurnAnimation
    else WalkingAnimation
  }

  /** The animator's state after a run of triggers, starting in `a`. */
  function AnimatorAfter(a: Animation, triggers: seq<Trigger>): Animation
    decreases |triggers|
  {
    if triggers == [] then a else TriggerTarget(triggers[|triggers| - 1])
  }

  /** Whether a movement state walks forward, and which way it turns. */
  predicate Walks(m: byte) {
    m == Walking || m == WalkingTurningLeft || m == WalkingTurningRight
  }

  predicate TurnsLeft(m: byte) {
    m == TurningLeft || m == WalkingTurningLeft
  }

  predicate TurnsRight(m: byte) {
    m == TurningRight || m == WalkingTurningRight
  }

  /** A legal state is fixed by whether it walks and which way it turns. */
  lemma StateByComponents(m1: byte, m2: byte)
    requires IsLegalMovementState(m1) && IsLegalMovementState(m2)
    requires Walks(m1) == Walks(m2) && TurnsLeft(m1) == TurnsLeft(m2) && TurnsRight(m1) == TurnsRight(m2)
    ensures m1 == m2
  {
  }
}

// The local avatar (LocalAvatarScript): keys W, A and D change its movement
// state, and some changes fire an animator trigger.
module LocalAvatar {
  import opened Bytes
  import opened AnimationInfo

  /** What Input.GetKeyDown/GetKeyUp answer for W, A and D this frame. */
  datatype Keys = Keys(wDown: bool, wUp: bool, aDown: bool, aUp: bool, dDown: bool, dUp: bool)

  /** A movement state and the triggers fired on the way to it. */
  datatype Step = Step(state: byte, triggers: seq<Trigger>)

  /** The first block of UpdateWalkingState: W pressed or released. */
  function WStep(m: byte, keys: Keys): Step {
    if keys.wDown then Step(Walking, [WalkTrigger])
    else if keys.wUp then
      if m == WalkingTurningLeft then Step(TurningLeft, [TurnLeftTrigger])
      else if m == WalkingTurningRight then Step(TurningRight, [TurnRightTrigger])
      else Step(Idle, [IdleTrigger])
    else Step(m, [])
  }

  /** The second block: A pressed, or else D pressed. */
  function TurnStartStep(m: byte, keys: Keys): Step {
    if keys.aDown then
      if m == Idle || m == TurningRight then Step(TurningLeft, [TurnLeftTrigger])
      else if m == Walking then Step(WalkingTurningLeft, [])
      else Step(m, [])
    else if keys.dDown then
      if m == Idle || m == TurningLeft then Step(TurningRight, [TurnRightTrigger])
      else if m == Walking then Step(WalkingTurningRight, [])
      else Step(m, [])
    else Step(m, [])
  }

  /** The third block: D released, or else A released. */
  function TurnStopStep(m: byte, keys: Keys): Step {
    if keys.dUp then
      if m == TurningRight then Step(Idle, [IdleTrigger])
      else if m == WalkingTurningRight then Step(Walking, [])
      else Step(m, [])
    else if keys.aUp then
      if m == TurningLeft then Step(Idle, [IdleTrigger])
      else if m == WalkingTurningLeft then Step(Walking, [])
      else Step(m, [])
    else Step(m, [])
  }

  /** The three blocks in order. */
  function WalkingStateStep(m: byte, keys: Keys): Step {
    var s1 := WStep(m, keys);
    var s2 := TurnStartStep(s1.state, keys);
    var s3 := TurnStopStep(s2.state, keys);
    Step(s3.state, s1.triggers + s2.triggers + s3.triggers)
  }

  /**
   * W: pressing it walks straight on whatever the state (a turn in progress
   * is dropped); releasing it stops the walking and keeps the turn of a
   * walking state, and sends every other state to idle.
   */
  lemma WKey(m: byte, keys: Keys)
    requires IsLegalMovementState(m)
    ensures keys.wDown ==> WStep(m, keys) == Step(Walking, [WalkTrigger])
    ensures !keys.wDown && keys.wUp ==>
      var r := WStep(m, keys).state;
      && IsLegalMovementState(r) && !Walks(r)
      && (Walks(m) ==> TurnsLeft(r) == TurnsLeft(m) && TurnsRight(r) == TurnsRight(m))
      && (!Walks(m) ==> r == Idle)
    ensures !keys.wDown && keys.wUp ==>
      var s := WStep(m, keys);
      |s.triggers| == 1 && TriggerTarget(s.triggers[0]) == AnimationOf(s.state)
    ensures !keys.wDown && !keys.wUp ==> WStep(m, keys) == Step(m, [])
  {
  }

  /**
   * A or D pressed: a state without a turn starts turning that way, walking
   * or not; a standing turn the other way reverses; a walking turn the other
   * way is kept. D counts only when A is not pressed.
   */
  lemma TurnStart(m: byte, keys: Keys)
    requires IsLegalMovementState(m)
    ensures var r := TurnStartStep(m, keys).state;
      && IsLegalMovementState(r) && Walks(r) == Walks(m)
      && (keys.aDown && !TurnsRight(m) ==> TurnsLeft(r))
      && (keys.aDown && m == TurningRight ==> r == TurningLeft)
      && (keys.aDown && m == WalkingTurningRight ==> r == m)
      && (!keys.aDown && keys.dDown && !TurnsLeft(m) ==> TurnsRight(r))
      && (!keys.aDown && keys.dDown && m == TurningLeft ==> r == TurningRight)
      && (!keys.aDown && keys.dDown && m == WalkingTurningLeft ==> r == m)
      && (!keys.aDown && !keys.dDown ==> r == m)
    ensures var s := TurnStartStep(m, keys);
      && (Walks(m) ==> s.triggers == [])
      && (!Walks(m) ==> (s.triggers == [] <==> s.state == m))
      && (!Walks(m) && s.state != m ==>
            |s.triggers| == 1 && TriggerTarget(s.triggers[0]) == AnimationOf(s.state))
  {
  }

  /**
   * D or A released: a turn that way stops, walking or not; anything else is
   * kept. A counts only when D is not released.
   */
  lemma TurnStop(m: byte, keys: Keys)
    requires IsLegalMovementState(m)
    ensures var r := TurnStopStep(m, keys).state;
      && IsLegalMovementState(r) && Walks(r) == Walks(m)
      && (keys.dUp ==> !TurnsRight(r) && TurnsLeft(r) == TurnsLeft(m))
      && (!keys.dUp && keys.aUp ==> !TurnsLeft(r) && TurnsRight(r) == TurnsRight(m))
      && (!keys.dUp && !keys.aUp ==> r == m)
    ensures var s := TurnStopStep(m, keys);
      && (Walks(m) ==> s.triggers == [])
      && (!Walks(m) ==> (s.triggers == [] <==> s.state == m))
      && (!Walks(m) && s.state != m ==> s.state == Idle && s.triggers == [IdleTrigger])
  {
  }

  /** A step's triggers bring an animator that showed m to the animation of the new state. */
  predicate KeepsAnimation(m: byte, s: Step)
    requires IsLegalMovementState(m) && IsLegalMovementState(s.state)
  {
    AnimatorAfter(AnimationOf(m), s.triggers) == AnimationOf(s.state)
  }

  /**
   * UpdateWalkingState keeps the state legal, fires at most one trigger per
   * block, and its triggers leave the animator showing the new state's
   * animation. Which trigger each block fires is stated by WKey, TurnStart
   * and TurnStop.
   */
  lemma WalkingStateStepKeepsAnimation(m: byte, keys: Keys)
    requires IsLegalMovementState(m)
    ensures var r := WalkingStateStep(m, keys);
      && IsLegalMovementState(r.state) && |r.triggers| <= 3
      && KeepsAnimation(m, r)
  {
    var s1 := WStep(m, keys);
    var s2 := TurnStartStep(s1.state, keys);
    var s3 := TurnStopStep(s2.state, keys);
    WKey(m, keys);
    TurnStart(s1.state, keys);
    TurnStop(s2.state, keys);
    assert KeepsAnimation(m, s1);
    assert KeepsAnimation(s1.state, s2);
    assert KeepsAnimation(s2.state, s3);
    AnimatorAfterConcat(AnimationOf(m), s1.triggers, s2.triggers);
    AnimatorAfterConcat(AnimationOf(m), s1.triggers + s2.triggers, s3.triggers);
  }

  /** Triggers run one after the other: the later run decides if it fires at all. */
  lemma AnimatorAfterConcat(a: Animation, t1: seq<Trigger>, t2: seq<Trigger>)
    ensures AnimatorAfter(a, t1 + t2) == AnimatorAfter(AnimatorAfter(a, t1), t2)
  {
    if t2 != [] {
      assert (t1 + t2)[|t1 + t2| - 1] == t2[|t2| - 1];
    } else {
      assert t1 + t2 == t1;
    }
  }

  /** What MoveAvatar does in a state: translate forward or not, and which way to rotate. */
  datatype Motion = Motion(translates: bool, rotatesLeft: bool, rotatesRight: bool)

  /** MoveAvatar's tests on the movement state. */
  function MotionOf(m: byte): (r: Motion)
    ensures r.translates <==> Walks(m)
    ensures r.rotatesLeft <==> TurnsLeft(m)
    ensures r.rotatesRight <==> TurnsRight(m)
    ensures !(r.rotatesLeft && r.rotatesRight)
  {
    var turnsLeft := m == TurningLeft || m == WalkingTurningLeft;
    Motion(m == Walking || m == WalkingTurningLeft || m == WalkingTurningRight,
           turnsLeft,
           !turnsLeft && (m == TurningRight || m == WalkingTurningRight))
  }

  class LocalAvatarScript {
    var movementState: byte
    /** The triggers sent to the animator, oldest first. */
    var triggers: seq<Trigger>

    constructor ()
      ensures movementState == Idle && triggers == []
    {
      movementState, triggers := Idle, [];
    }

    /** UpdateWalkingState, for this frame's key events: its three blocks in turn. */
    method UpdateWalkingState(keys: Keys)
      modifies this
      ensures movementState == WalkingStateStep(old(movementState), keys).state
      ensures triggers == old(triggers) + WalkingStateStep(old(movementState), keys).triggers
    {
      ghost var t0 := triggers;
      ghost var s1 := WStep(movementState, keys);
      WKeyBlock(keys);
      ghost var s2 := TurnStartStep(movementState, keys);
      TurnStartBlock(keys);
      ghost var s3 := TurnStopStep(movementState, keys);
      TurnStopBlock(keys);
      assert triggers == t0 + s1.triggers + s2.triggers + s3.triggers;
      assert t0 + s1.triggers + s2.triggers + s3.triggers == t0 + (s1.triggers + s2.triggers + s3.triggers);
    }

    /** The W block. */
    method WKeyBlock(keys: Keys)
      modifies this
      ensures movementState == WStep(old(movementState), keys).state
      ensures triggers == old(triggers) + WStep(old(movementState), keys).triggers
    {
      if keys.wDown {
        triggers := triggers + [WalkTrigger];
        movementState := Walking;
      } else if keys.wUp {
        if movementState == WalkingTurningLeft {
          movementState := TurningLeft;
          triggers := triggers + [TurnLeftTrigger];
        } else if movementState == WalkingTurningRight {
          movementState := TurningRight;
          triggers := triggers + [TurnRightTrigger];
        } else {
          // The source asserts the state was walking here; Unity only logs a failed assertion.
          movementState := Idle;
          triggers := triggers + [IdleTrigger];
        }
      }
    }

    /** The A-pressed / D-pressed block. */
    method TurnStartBlock(keys: Keys)
      modifies this
      ensures movementState == TurnStartStep(old(movementState), keys).state
      ensures triggers == old(triggers) + TurnStartStep(old(movementState), keys).triggers
    {
      if keys.aDown {
        if movementState == Idle || movementState == TurningRight {
          movementState := TurningLeft;
          triggers := triggers + [TurnLeftTrigger];
        } else if movementState == Walking {
          movementState := WalkingTurningLeft;
        }
      } else if keys.dDown {
        if movementState == Idle || movementState == TurningLeft {
          movementState := TurningRight;
          triggers := triggers + [TurnRightTrigger];
        } else if movementState == Walking {
          movementState := WalkingTurningRight;
        }
      }
    }

    /** The D-released / A-released block. */
    method TurnStopBlock(keys: Keys)
      modifies this
      ensures movementState == TurnStopStep(old(movementState), keys).state
      ensures triggers == old(triggers) + TurnStopStep(old(movementState), keys).triggers
    {
      if keys.dUp {
        if movementState == TurningRight {
          movementState := Idle;
          triggers := triggers + [IdleTrigger];
        } else if movementState == WalkingTurningRight {
          movementState := Walking;
        }
      } else if keys.aUp {
        if movementState == TurningLeft {
          movementState := Idle;
          triggers := triggers + [IdleTrigger];
        } else if movementState == WalkingTurningLeft {
          movementState := Walking;
        }
      }
    }
  }
}

// The remote avatar (RemoteAvatarScript): messages from the server set its
// targets, and each frame its animation follows the target movement state.
module RemoteAvatar {
  import opened Bytes
  import opened Vectors
  import opened AnimationInfo

  /** The triggers UpdateAnimation fires for a change from `current` to `target`. */
  function AnimationTriggers(target: byte, current: byte): seq<Trigger> {
    (if target == Walking && (current == Idle || current == TurningLeft || current == TurningRight)
     then [WalkTrigger] else [])
    + (if target == Idle then [IdleTrigger] else [])
    + (if target == TurningLeft then [TurnLeftTrigger] else [])
    + (if target == TurningRight then [TurnRightTrigger] else [])
    + (if target == WalkingTurningLeft && current != Walking && current != WalkingTurningRight
       then [WalkTrigger] else [])
    + (if target == WalkingTurningRight && current != Walking && current != WalkingTurningLeft
       then [WalkTrigger] else [])
  }

  /**
   * At most one trigger fires. Walk fires for a walking target when the
   * avatar was not walking already; Idle, TurnLeft and TurnRight fire exactly
   * when they are the target.
   */
  lemma AnimationTriggersTable(target: byte, current: byte)
    ensures var ts := AnimationTriggers(target, current);
      && |ts| <= 1
      && (ts == [WalkTrigger] <==>
            (target == Walking && (current == Idle || current == TurningLeft || current == TurningRight))
            || (target == WalkingTurningLeft && current != Walking && current != WalkingTurningRight)
            || (target == WalkingTurningRight && current != Walking && current != WalkingTurningLeft))
      && (ts == [IdleTrigger] <==> target == Idle)
      && (ts == [TurnLeftTrigger] <==> target == TurningLeft)
      && (ts == [TurnRightTrigger] <==> target == TurningRight)
  {
    var ts := AnimationTriggers(target, current);
    if target == Walking || target == WalkingTurningLeft || target == WalkingTurningRight {
      assert ts == [WalkTrigger] || ts == [];
    } else if target == Idle {
      assert ts == [IdleTrigger];
    } else if target == TurningLeft {
      assert ts == [TurnLeftTrigger];
    } else if target == TurningRight {
      assert ts == [TurnRightTrigger];
    } else {
      assert ts == [];
    }
  }

  /**
   * Between legal states that differ, a trigger fires exactly when the
   * animation has to change, and it is the trigger for the target's
   * animation: the remote animator ends up showing the target state.
   */
  lemma AnimationTriggersFollowState(target: byte, current: byte)
    requires IsLegalMovementState(target) && IsLegalMovementState(current) && target != current
    ensures var ts := AnimationTriggers(target, current);
      && (ts != [] <==> AnimationOf(target) != AnimationOf(current))
      && AnimatorAfter(AnimationOf(current), ts) == AnimationOf(target)
  {
  }

  class RemoteAvatarScript {
    var targetPosition: Vec3
    var hasTargetPosition: bool
    var targetRotation: Quaternion
    var hasTargetRotation: bool
    var targetMovementState: byte
    var hasTargetMovementState: bool
    var movementState: byte
    /** The triggers sent to the animator, oldest first. */
    var triggers: seq<Trigger>

    /**
     * The field initialisers: the has-flags down and the avatar idle. Start's
     * own target writes go through SetTargetPosition and SetTargetRotation.
     */
    constructor ()
      ensures !hasTargetPosition && !hasTargetRotation && !hasTargetMovementState && triggers == []
      ensures movementState == Idle
    {
      targetPosition := Vec3(0.0, 0.0, 0.0);
      targetRotation := Quaternion(0.0, 0.0, 0.0, 1.0);
      targetMovementState, movementState := 0, 0;
      hasTargetPosition, hasTargetRotation, hasTargetMovementState := false, false, false;
      triggers := [];
    }

    method SetTargetPosition(value: Vec3)
      modifies this
      ensures targetPosition == value && hasTargetPosition
      ensures hasTargetRotation == old(hasTargetRotation) && targetRotation == old(targetRotation)
      ensures hasTargetMovementState == old(hasTargetMovementState)
      ensures targetMovementState == old(targetMovementState)
      ensures movementState == old(movementState) && triggers == old(triggers)
    {
      targetPosition := value;
      hasTargetPosition := true;
    }

    method SetTargetRotation(value: Quaternion)
      modifies this
      ensures targetRotation == value && hasTargetRotation
      ensures hasTargetPosition == old(hasTargetPosition) && targetPosition == old(targetPosition)
      ensures hasTargetMovementState == old(hasTargetMovementState)
      ensures targetMovementState == old(targetMovementState)
      ensures movementState == old(movementState) && triggers == old(triggers)
    {
      targetRotation := value;
      hasTargetRotation := true;
    }

    method SetTargetMovementState(value: byte)
      modifies this
      ensures targetMovementState == value && hasTargetMovementState
      ensures hasTargetPosition == old(hasTargetPosition) && targetPosition == old(targetPosition)
      ensures hasTargetRotation == old(hasTargetRotation) && targetRotation == old(targetRotation)
      ensures movementState == old(movementState) && triggers == old(triggers)
    {
      targetMovementState := value;
      hasTargetMovementState := true;
    }

    /**
     * UpdateAnimation: a pending target state that differs from the current
     * one fires its trigger, becomes the current state and is consumed;
     * otherwise nothing changes, the flag included.
     */
    method UpdateAnimation()
      modifies this
      ensures old(hasTargetMovementState) && old(targetMovementState) != old(movementState) ==>
        && movementState == old(targetMovementState) && !hasTargetMovementState
        && triggers == old(triggers) + AnimationTriggers(old(targetMovementState), old(movementState))
      ensures !(old(hasTargetMovementState) && old(targetMovementState) != old(movementState)) ==>
        movementState == old(movementState) && hasTargetMovementState == old(hasTargetMovementState)
        && triggers == old(triggers)
      ensures targetMovementState == old(targetMovementState)
      ensures targetPosition == old(targetPosition) && hasTargetPosition == old(hasTargetPosition)
      ensures targetRotation == old(targetRotation) && hasTargetRotation == old(hasTargetRotation)
    {
      if hasTargetMovementState && targetMovementState != movementState {
        ghost var t0 := triggers;
        if targetMovementState == Walking
           && (movementState == Idle || movementState == TurningLeft || movementState == TurningRight) {
          triggers := triggers + [WalkTrigger];
        }
        if targetMovementState == Idle {
          triggers := triggers + [IdleTrigger];
        }
        if targetMovementState == TurningLeft {
          triggers := triggers + [TurnLeftTrigger];
        }
        if targetMovementState == TurningRight {
          triggers := triggers + [TurnRightTrigger];
        }
        if targetMovementState == WalkingTurningLeft
           && movementState != Walking && movementState != WalkingTurningRight {
          triggers := triggers + [WalkTrigger];
        }
        if targetMovementState == WalkingTurningRight
           && movementState != Walking && movementState != WalkingTurningLeft {
          triggers := triggers + [WalkTrigger];
        }
        assert triggers == t0 + AnimationTriggers(targetMovementState, movementState);
        movementState := targetMovementState;
        hasTargetMovementState := false;
      }
    }
  }
}
