// The as3 physics engine (PPhysicsEngine and Contact): each tick integrates
// every body, finds the pairs whose boxes have just started to overlap,
// resolves each such contact with an impulse, and commits every body.
//
// The first half states a tick over a sequence of body states, in the
// engine's list order; the second half is the engine and the contact as
// objects that update the bodies in place, proved against the first half.
module PhysicsEngine {
  import opened Vectors
  import opened Wrappers
  import opened PhysicsBody

  const GroundedDistanceThreshold: real := 0.1

  /** The restitution a new contact starts with. */
  const DefaultRestitution: real := 0.5

  /** The collision time a contact uses when no axis is chosen. */
  const DefaultCollisionTime: real := 0.2

  ghost predicate AllValid(states: seq<BodyState>) {
    forall k :: 0 <= k < |states| ==> ValidState(states[k])
  }

  /** Bodies at these indices keep their parameters. */
  ghost predicate SameParams(a: seq<BodyState>, b: seq<BodyState>) {
    |a| == |b| && forall k :: 0 <= k < |a| ==> a[k].p == b[k].p
  }

  // ---------------------------------------------------------------------
  // Overlap tests

  /** Two boxes intersect unless one lies strictly to one side of the other. */
  predicate Intersecting(ll1: Vec2, ur1: Vec2, ll2: Vec2, ur2: Vec2) {
    !(ur1.x < ll2.x || ur2.x < ll1.x || ur1.y < ll2.y || ur2.y < ll1.y)
  }

  /** The pair did not overlap at the last commit and overlaps now. */
  predicate AreColliding(b1: BodyState, b2: BodyState) {
    !Intersecting(LLold(b1), URold(b1), LLold(b2), URold(b2))
    && Intersecting(LL(b1), UR(b1), LL(b2), UR(b2))
  }

  /** b rests on, or hovers just above, b2. */
  predicate RestsOn(b: BodyState, b2: BodyState) {
    LL(b).x < UR(b2).x && UR(b).x > LL(b2).x
    && Abs(LL(b).y - UR(b2).y) <= GroundedDistanceThreshold
  }

  /** Some body among the first n, other than the one at k, holds up the body at k. */
  predicate RestsOnAny(states: seq<BodyState>, k: nat, n: nat)
    requires k < |states| && n <= |states|
  {
    n > 0 && (RestsOnAny(states, k, n - 1) || (n - 1 != k && RestsOn(states[k], states[n - 1])))
  }

  /** Grounded, for the body at index k of the engine's list. */
  predicate GroundedAt(states: seq<BodyState>, k: nat) {
    k < |states| && RestsOnAny(states, k, |states|)
  }

  lemma {:induction false} RestsOnAnyExists(states: seq<BodyState>, k: nat, n: nat)
    requires k < |states| && n <= |states|
    ensures RestsOnAny(states, k, n) <==> exists m :: 0 <= m < n && m != k && RestsOn(states[k], states[m])
  {
    if n > 0 {
      RestsOnAnyExists(states, k, n - 1);
    }
  }

  /** Intersection is symmetric, and boxes that only touch intersect. */
  lemma IntersectingProperties(ll1: Vec2, ur1: Vec2, ll2: Vec2, ur2: Vec2)
    ensures Intersecting(ll1, ur1, ll2, ur2) == Intersecting(ll2, ur2, ll1, ur1)
    ensures Intersecting(ll1, ur1, ll2, ur2) <==>
      ll1.x <= ur2.x && ll2.x <= ur1.x && ll1.y <= ur2.y && ll2.y <= ur1.y
    ensures ur1.x == ll2.x && ll1.y <= ur2.y && ll2.y <= ur1.y && ll1.x <= ur1.x && ll2.x <= ur2.x
      ==> Intersecting(ll1, ur1, ll2, ur2)
  {
  }

  /**
   * A collision is reported only on the tick the boxes start to overlap: a
   * pair that already overlapped at the last commit is never reported, and
   * freshly committed bodies never collide.
   */
  lemma OnlyNewOverlapsCollide(b1: BodyState, b2: BodyState)
    ensures AreColliding(b1, b2) == AreColliding(b2, b1)
    ensures Intersecting(LLold(b1), URold(b1), LLold(b2), URold(b2)) ==> !AreColliding(b1, b2)
    ensures !AreColliding(Committed(b1), Committed(b2))
  {
  }

  /** Grounded never counts the body itself and looks at no other state. */
  lemma GroundedNeedsAnotherBody(states: seq<BodyState>, k: nat)
    requires k < |states|
    ensures GroundedAt([states[k]], 0) == false
    ensures GroundedAt(states, k) <==>
      exists m :: 0 <= m < |states| && m != k && RestsOn(states[k], states[m])
  {
    RestsOnAnyExists(states, k, |states|);
    RestsOnAnyExists([states[k]], 0, 1);
  }

  // ---------------------------------------------------------------------
  // Integrating every body, in list order

  /** The body at k integrates, asking Grounded of the list as it stands. */
  function IntegrateAt(states: seq<BodyState>, k: nat, dt: real): seq<BodyState>
    requires k < |states|
  {
    states[k := Integrated(states[k], dt, GroundedAt(states, k))]
  }

  /** The body at k reverts. */
  function RevertAt(states: seq<BodyState>, k: nat): seq<BodyState>
    requires k < |states|
  {
    states[k := Reverted(states[k])]
  }

  /** The body at k receives force f. */
  function PushAt(states: seq<BodyState>, k: nat, f: Vec2): seq<BodyState>
    requires k < |states|
  {
    states[k := WithForce(states[k], f)]
  }

  /** The body at k commits. */
  function CommitAt(states: seq<BodyState>, k: nat): seq<BodyState>
    requires k < |states|
  {
    states[k := Committed(states[k])]
  }

  /**
   * The bodies 0 .. k-1 integrated one after the other: each asks Grounded
   * of the list as it stands, with the earlier bodies already moved.
   */
  function IntegrateUpTo(states: seq<BodyState>, k: nat, dt: real): (r: seq<BodyState>)
    requires k <= |states|
    decreases k
    ensures |r| == |states|
  {
    if k == 0 then states
    else
      IntegrateAt(IntegrateUpTo(states, k - 1, dt), k - 1, dt)
  }

  function IntegratedAll(states: seq<BodyState>, dt: real): (r: seq<BodyState>)
    ensures |r| == |states|
  {
    IntegrateUpTo(states, |states|, dt)
  }

  /**
   * After the first k integrations, body m < k holds its integration against
   * the list as it stood when its turn came, and the rest are untouched.
   */
  lemma {:induction false} IntegrateUpToAt(states: seq<BodyState>, k: nat, dt: real, m: nat)
    requires k <= |states| && m < |states|
    ensures m < k ==>
      IntegrateUpTo(states, k, dt)[m]
        == Integrated(IntegrateUpTo(states, m, dt)[m], dt, GroundedAt(IntegrateUpTo(states, m, dt), m))
    ensures m < k ==> IntegrateUpTo(states, m, dt)[m] == states[m]
    ensures k <= m ==> IntegrateUpTo(states, k, dt)[m] == states[m]
    decreases k
  {
    if k > 0 {
      IntegrateUpToAt(states, k - 1, dt, m);
      if m < k - 1 {
        IntegrateUpToAt(states, m, dt, m);
      }
    }
  }

  // ---------------------------------------------------------------------
  // Finding new contacts

  /** A new contact between the bodies at indices i and j, i < j. */
  datatype Pair = Pair(i: nat, j: nat)

  /** The pairs (i, j') with i < j' < j that collide, in ascending j'. */
  function RowPairs(states: seq<BodyState>, i: nat, j: nat): seq<Pair>
    requires j <= |states|
    decreases j
  {
    if j <= i + 1 then []
    else RowPairs(states, i, j - 1) + (if AreColliding(states[i], states[j - 1]) then [Pair(i, j - 1)] else [])
  }

  /** The colliding pairs whose first index is below i, in the order the loops meet them. */
  function PairsBefore(states: seq<BodyState>, i: nat): seq<Pair>
    requires i <= |states|
    decreases i
  {
    if i == 0 then [] else PairsBefore(states, i - 1) + RowPairs(states, i - 1, |states|)
  }

  /** CheckForCollisions: the outer loop stops before the last body. */
  function NewContacts(states: seq<BodyState>): seq<Pair> {
    if |states| == 0 then [] else PairsBefore(states, |states| - 1)
  }

  /** Pair p comes strictly before q in (i, j) order. */
  predicate PairLess(p: Pair, q: Pair) {
    p.i < q.i || (p.i == q.i && p.j < q.j)
  }

  predicate IsContactOf(states: seq<BodyState>, p: Pair) {
    p.i < p.j < |states| && AreColliding(states[p.i], states[p.j])
  }

  /** From index k on, each pair comes strictly before the next. */
  predicate AscendingFrom(ps: seq<Pair>, k: nat)
    requires k <= |ps|
    decreases |ps| - k
  {
    k + 1 >= |ps| || (PairLess(ps[k], ps[k + 1]) && AscendingFrom(ps, k + 1))
  }

  predicate SortedPairs(ps: seq<Pair>) {
    AscendingFrom(ps, 0)
  }

  lemma {:induction false} AscendingSuffix(ps: seq<Pair>, k: nat)
    requires k <= |ps| && SortedPairs(ps)
    ensures AscendingFrom(ps, k)
    decreases k
  {
    if k > 0 {
      AscendingSuffix(ps, k - 1);
    }
  }

  /** In an ascending run every earlier pair comes before every later one. */
  lemma {:induction false} AscendingLess(ps: seq<Pair>, a: nat, b: nat)
    requires a < b < |ps| && AscendingFrom(ps, a)
    ensures PairLess(ps[a], ps[b])
    decreases b - a
  {
    if a + 1 < b {
      AscendingLess(ps, a + 1, b);
    }
  }

  /** The run of y, shifted behind x, is still ascending. */
  lemma {:induction false} AscendingShift(x: seq<Pair>, y: seq<Pair>, m: nat)
    requires m <= |y| && AscendingFrom(y, m)
    ensures AscendingFrom(x + y, |x| + m)
    decreases |y| - m
  {
    if m + 1 < |y| {
      AscendingShift(x, y, m + 1);
      assert (x + y)[|x| + m] == y[m] && (x + y)[|x| + m + 1] == y[m + 1];
    }
  }

  lemma {:induction false} AscendingConcat(x: seq<Pair>, y: seq<Pair>, k: nat)
    requires k <= |x| && AscendingFrom(x, k) && SortedPairs(y)
    requires |x| > 0 && |y| > 0 ==> PairLess(x[|x| - 1], y[0])
    ensures AscendingFrom(x + y, k)
    decreases |x| - k
  {
    if k == |x| {
      AscendingShift(x, y, 0);
    } else {
      AscendingConcat(x, y, k + 1);
      assert (x + y)[k] == x[k];
      if k + 1 < |x| {
        assert (x + y)[k + 1] == x[k + 1];
      } else if |y| > 0 {
        assert (x + y)[k + 1] == y[0];
      }
    }
  }

  lemma SortedConcat(x: seq<Pair>, y: seq<Pair>)
    requires SortedPairs(x) && SortedPairs(y)
    requires forall p, q :: p in x && q in y ==> PairLess(p, q)
    ensures SortedPairs(x + y)
  {
    if |x| > 0 && |y| > 0 {
      assert x[|x| - 1] in x && y[0] in y;
    }
    AscendingConcat(x, y, 0);
  }

  /** The pairs of row i below j are exactly the new contacts (i, j') with j' < j. */
  lemma {:induction false} RowPairsMembers(states: seq<BodyState>, i: nat, j: nat)
    requires j <= |states|
    ensures forall p :: p in RowPairs(states, i, j) <==> p.i == i && p.j < j && IsContactOf(states, p)
    decreases j
  {
    if j > i + 1 {
      RowPairsMembers(states, i, j - 1);
      var head := RowPairs(states, i, j - 1);
      var tail := if AreColliding(states[i], states[j - 1]) then [Pair(i, j - 1)] else [];
      assert RowPairs(states, i, j) == head + tail;
      forall p: Pair
        ensures p in head + tail <==> p.i == i && p.j < j && IsContactOf(states, p)
      {
        assert p in head + tail <==> p in head || p in tail;
      }
    }
  }

  /** Row i below j holds only pairs (i, j') with i < j' < j. */
  lemma {:induction false} RowPairsBounds(states: seq<BodyState>, i: nat, j: nat)
    requires j <= |states|
    ensures forall p :: p in RowPairs(states, i, j) ==> p.i == i && i < p.j < j
    decreases j
  {
    if j > i + 1 {
      RowPairsBounds(states, i, j - 1);
    }
  }

  lemma {:induction false} RowPairsSorted(states: seq<BodyState>, i: nat, j: nat)
    requires j <= |states|
    ensures SortedPairs(RowPairs(states, i, j))
    decreases j
  {
    if j > i + 1 {
      RowPairsSorted(states, i, j - 1);
      RowPairsBounds(states, i, j - 1);
      var tail := if AreColliding(states[i], states[j - 1]) then [Pair(i, j - 1)] else [];
      SortedConcat(RowPairs(states, i, j - 1), tail);
    }
  }

  /** The pairs before row i all start below i. */
  lemma {:induction false} PairsBeforeBounds(states: seq<BodyState>, i: nat)
    requires i <= |states|
    ensures forall p :: p in PairsBefore(states, i) ==> p.i < i
    decreases i
  {
    if i > 0 {
      PairsBeforeBounds(states, i - 1);
      RowPairsBounds(states, i - 1, |states|);
    }
  }

  lemma {:induction false} PairsBeforeMembers(states: seq<BodyState>, i: nat)
    requires i <= |states|
    ensures forall p :: p in PairsBefore(states, i) <==> p.i < i && IsContactOf(states, p)
    decreases i
  {
    if i > 0 {
      PairsBeforeMembers(states, i - 1);
      RowPairsMembers(states, i - 1, |states|);
      var head, row := PairsBefore(states, i - 1), RowPairs(states, i - 1, |states|);
      forall p: Pair
        ensures p in head + row <==> p.i < i && IsContactOf(states, p)
      {
        assert p in head + row <==> p in head || p in row;
      }
    }
  }

  lemma {:induction false} PairsBeforeSorted(states: seq<BodyState>, i: nat)
    requires i <= |states|
    ensures SortedPairs(PairsBefore(states, i))
    decreases i
  {
    if i > 0 {
      PairsBeforeSorted(states, i - 1);
      PairsBeforeBounds(states, i - 1);
      RowPairsBounds(states, i - 1, |states|);
      RowPairsSorted(states, i - 1, |states|);
      SortedConcat(PairsBefore(states, i - 1), RowPairs(states, i - 1, |states|));
    }
  }

  /**
   * CheckForCollisions reports exactly the colliding pairs i < j; no body is
   * paired with itself.
   */
  lemma NewContactsMembers(states: seq<BodyState>)
    ensures forall p :: p in NewContacts(states) <==> IsContactOf(states, p)
  {
    if |states| > 0 {
      PairsBeforeMembers(states, |states| - 1);
    }
  }

  /** CheckForCollisions reports each pair once, in ascending (i, j) order. */
  lemma NewContactsSorted(states: seq<BodyState>)
    ensures var ps := NewContacts(states);
      forall a, b :: 0 <= a < b < |ps| ==> PairLess(ps[a], ps[b])
  {
    var ps := NewContacts(states);
    if |states| > 0 {
      PairsBeforeSorted(states, |states| - 1);
    }
    forall a, b | 0 <= a < b < |ps|
      ensures PairLess(ps[a], ps[b])
    {
      AscendingSuffix(ps, a);
      AscendingLess(ps, a, b);
    }
  }

  // ---------------------------------------------------------------------
  // Resolving one contact

  /** The contact's choice of normal and of how long to re-integrate. */
  datatype Outcome = Outcome(normal: Vec2, collisionTime: real)

  /**
   * The broken swap's guard: the first body did not move its right edge and
   * its lower-left corner sits on the second body's old lower-left corner,
   * the corners compared with Unity's tolerant Vector2 equality.
   */
  predicate SwapGuard(s1: BodyState, s2: BodyState) {
    UR(s1).x == URold(s1).x && LL(s1).UnityEquals(LLold(s2))
  }

  /** The first body's displacement over the tick, reversed: URold - UR. */
  function Speed(s1: BodyState): Vec2 {
    URold(s1).Minus(UR(s1))
  }

  /** The gap the contact measures: lower-left to upper-right when speed.y < 0, else the other way. */
  function ObjectDistance(s1: BodyState, s2: BodyState): Vec2 {
    if Speed(s1).y < 0.0 then LL(s1).Minus(UR(s2)) else UR(s1).Minus(LL(s2))
  }

  /**
   * The source's float comparison d.x / speed.x < d.y / speed.y, with
   * speed.y != 0. When speed.x == 0 the left side is +infinity, NaN or
   * -infinity by the sign of d.x, and only -infinity compares smaller.
   */
  predicate XFirst(d: Vec2, speed: Vec2)
    requires speed.y != 0.0
  {
    if speed.x != 0.0 then d.x / speed.x < d.y / speed.y else d.x < 0.0
  }

  /**
   * The normal and collision time ResolveContact computes from a contact that
   * starts with normal n0. None when the source divides by a zero speed.x and
   * picks the x axis: its collision time is then -infinity, outside this model.
   */
  function ContactOutcome(s1: BodyState, s2: BodyState, n0: Vec2): Option<Outcome> {
    var speed := Speed(s1);
    if speed.y == 0.0 then Some(Outcome(n0, DefaultCollisionTime))
    else
      var d := ObjectDistance(s1, s2);
      if XFirst(d, speed) then
        if speed.x == 0.0 then None
        else Some(Outcome(n0.(x := if speed.x >= 0.0 then -1.0 else 1.0), d.x / speed.x))
      else Some(Outcome(n0.(y := if speed.y < 0.0 then 1.0 else -1.0), d.y / speed.y))
  }

  /**
   * The quadrant table: with no vertical displacement nothing is chosen;
   * otherwise exactly one axis of a fresh contact's normal becomes +-1, the
   * x axis only when its ratio is strictly smaller (ties go to y), and the
   * collision time is the winning ratio.
   */
  lemma ContactNormalTable(s1: BodyState, s2: BodyState)
    ensures var r, speed, d := ContactOutcome(s1, s2, Zero2), Speed(s1), ObjectDistance(s1, s2);
      && (speed.y == 0.0 ==> r == Some(Outcome(Zero2, 0.2)))
      && (speed.y != 0.0 && r.Some? ==>
            (r.value.normal.x == 0.0 && Abs(r.value.normal.y) == 1.0)
            || (Abs(r.value.normal.x) == 1.0 && r.value.normal.y == 0.0))
      && (speed.y != 0.0 && speed.x != 0.0 ==>
            r.Some? && (r.value.normal.x != 0.0 <==> d.x / speed.x < d.y / speed.y))
      && (r.Some? && r.value.normal.x != 0.0 ==>
            speed.x != 0.0 && r.value.normal.x == (if speed.x > 0.0 then -1.0 else 1.0)
            && r.value.collisionTime == d.x / speed.x)
      && (r.Some? && r.value.normal.y != 0.0 ==>
            r.value.normal.y == (if speed.y < 0.0 then 1.0 else -1.0)
            && r.value.collisionTime == d.y / speed.y)
      && (r.None? <==> speed.y != 0.0 && speed.x == 0.0 && d.x < 0.0)
  {
  }

  function Restitution(s1: BodyState, r0: real): real {
    if s1.p.rebounds then 0.8 else r0
  }

  /** Revert the body at a, then the one at b (the same body twice when a == b). */
  function RevertBoth(states: seq<BodyState>, a: nat, b: nat): (r: seq<BodyState>)
    requires a < |states| && b < |states|
    ensures |r| == |states|
  {
    RevertAt(RevertAt(states, a), b)
  }

  /** Total inverse mass of the pair. */
  function TotalInverseMass(s1: BodyState, s2: BodyState): real {
    InverseMass(s1.p.mass) + InverseMass(s2.p.mass)
  }

  /**
   * The impulse: the component-wise separating velocity (v1 - v2) * normal is
   * reversed and scaled by the restitution, and the change is divided by the
   * total inverse mass.
   */
  function Impulse(v1: Vec2, v2: Vec2, normal: Vec2, restitution: real, totalInverseMass: real): Vec2
    requires totalInverseMass != 0.0
  {
    var sep := v1.Minus(v2).Hadamard(normal);
    sep.Neg().Scale(restitution).Minus(sep).Div(totalInverseMass)
  }

  /**
   * After the normal is chosen: revert both bodies; unless the total inverse
   * mass is not positive, push the bodies apart with opposite impulses and
   * re-integrate each for the collision time.
   */
  function ApplyImpulse(states: seq<BodyState>, a: nat, b: nat, restitution: real, o: Outcome): (r: seq<BodyState>)
    requires a < |states| && b < |states|
    ensures |r| == |states|
  {
    var st := RevertBoth(states, a, b);
    var tim := TotalInverseMass(st[a], st[b]);
    if tim <= 0.0 then st
    else
      var impulse := Impulse(st[a].velocity, st[b].velocity, o.normal, restitution, tim);
      var pushed := PushAt(PushAt(st, a, impulse), b, impulse.Neg());
      IntegrateAt(IntegrateAt(pushed, a, o.collisionTime), b, o.collisionTime)
  }

  /**
   * ResolveContact for the contact (i, j) of a contact that starts with normal
   * n0 and restitution r0. The swap as written leaves both slots on body i.
   */
  function Resolve(states: seq<BodyState>, i: nat, j: nat, n0: Vec2, r0: real): (r: Option<seq<BodyState>>)
    requires i < |states| && j < |states|
    ensures r.Some? ==> |r.value| == |states|
  {
    var b := if SwapGuard(states[i], states[j]) then i else j;
    match ContactOutcome(states[i], states[b], n0)
    case None => None
    case Some(o) => Some(ApplyImpulse(states, i, b, Restitution(states[i], r0), o))
  }

  /** ApplyImpulse changes only the bodies at a and b. */
  lemma ApplyImpulseFrame(states: seq<BodyState>, a: nat, b: nat, restitution: real, o: Outcome, m: nat)
    requires a < |states| && b < |states|
    requires m < |states| && m != a && m != b
    ensures ApplyImpulse(states, a, b, restitution, o)[m] == states[m]
  {
  }

  /** A body's impulse against itself is zero: its separating velocity is zero. */
  lemma SelfImpulseZero(v: Vec2, normal: Vec2, restitution: real, totalInverseMass: real)
    requires totalInverseMass != 0.0
    ensures Impulse(v, v, normal, restitution, totalInverseMass) == Zero2
  {
  }

  /** Resolve once the contact's outcome is known. */
  lemma ResolveWith(states: seq<BodyState>, i: nat, j: nat, n0: Vec2, r0: real, b: nat, o: Outcome)
    requires i < |states| && j < |states|
    requires b == if SwapGuard(states[i], states[j]) then i else j
    requires ContactOutcome(states[i], states[b], n0) == Some(o)
    ensures Resolve(states, i, j, n0, r0) == Some(ApplyImpulse(states, i, b, Restitution(states[i], r0), o))
  {
  }

  /**
   * The broken swap: when its guard holds the contact's second body is never
   * touched, and the first is pushed with an impulse against itself, which is zero.
   */
  lemma BrokenSwapIgnoresSecondBody(states: seq<BodyState>, i: nat, j: nat, n0: Vec2, r0: real)
    requires i < |states| && j < |states| && i != j
    requires SwapGuard(states[i], states[j])
    ensures var r := Resolve(states, i, j, n0, r0);
      r.Some? ==> r.value[j] == states[j]
  {
    match ContactOutcome(states[i], states[i], n0)
    case None =>
    case Some(o) =>
      ApplyImpulseFrame(states, i, i, Restitution(states[i], r0), o, j);
  }

  /** With a non-positive total inverse mass the bodies stay reverted and get no force. */
  lemma DegenerateMassOnlyReverts(states: seq<BodyState>, a: nat, b: nat, restitution: real, o: Outcome)
    requires a < |states| && b < |states|
    requires TotalInverseMass(RevertBoth(states, a, b)[a], RevertBoth(states, a, b)[b]) <= 0.0
    ensures ApplyImpulse(states, a, b, restitution, o) == RevertBoth(states, a, b)
  {
  }

  /** Resolve changes only the two bodies of its contact. */
  lemma ResolveTouchesOnlyPair(states: seq<BodyState>, i: nat, j: nat, n0: Vec2, r0: real, m: nat)
    requires i < |states| && j < |states|
    requires m < |states| && m != i && m != j
    ensures var r := Resolve(states, i, j, n0, r0); r.Some? ==> r.value[m] == states[m]
  {
    var b := if SwapGuard(states[i], states[j]) then i else j;
    match ContactOutcome(states[i], states[b], n0)
    case None =>
    case Some(o) =>
      ApplyImpulseFrame(states, i, b, Restitution(states[i], r0), o, m);
  }

  // ---------------------------------------------------------------------
  // The tick

  /** Resolve the contacts in order; None once one falls outside the model. */
  function ResolveAll(states: seq<BodyState>, pairs: seq<Pair>): (r: Option<seq<BodyState>>)
    decreases |pairs|
    ensures r.Some? ==> |r.value| == |states|
  {
    if pairs == [] then Some(states)
    else if pairs[0].i < |states| && pairs[0].j < |states| then
      match Resolve(states, pairs[0].i, pairs[0].j, Zero2, DefaultRestitution)
      case None => None
      case Some(st) => ResolveAll(st, pairs[1..])
    else None
  }

  /** One step of ResolveAll from the k-th pair on: the k-th contact resolves first. */
  lemma ResolveAllStep(states: seq<BodyState>, pairs: seq<Pair>, k: nat)
    requires k < |pairs| && ResolveAll(states, pairs[k..]).Some?
    ensures pairs[k].i < |states| && pairs[k].j < |states|
    ensures var r := Resolve(states, pairs[k].i, pairs[k].j, Zero2, DefaultRestitution);
      r.Some? && ResolveAll(states, pairs[k..]) == ResolveAll(r.value, pairs[k + 1..])
  {
    assert pairs[k..][0] == pairs[k] && pairs[k..][1..] == pairs[k + 1..];
  }

  /**
   * ResolveCollisions over a list of contacts is resolving its first part,
   * then the rest from where the first part left the bodies.
   */
  lemma {:induction false} ResolveAllConcat(states: seq<BodyState>, a: seq<Pair>, b: seq<Pair>)
    ensures ResolveAll(states, a + b) ==
      match ResolveAll(states, a)
      case None => None
      case Some(t) => ResolveAll(t, b)
    decreases |a|
  {
    if a == [] {
      assert a + b == b;
    } else {
      assert (a + b)[0] == a[0] && (a + b)[1..] == a[1..] + b;
      if a[0].i < |states| && a[0].j < |states| {
        match Resolve(states, a[0].i, a[0].j, Zero2, DefaultRestitution)
        case None =>
        case Some(st) => ResolveAllConcat(st, a[1..], b);
      }
    }
  }

  /** A body that belongs to none of the contacts comes out of ResolveCollisions unchanged. */
  lemma {:induction false} ResolveAllUntouched(states: seq<BodyState>, pairs: seq<Pair>, m: nat)
    requires m < |states|
    requires forall k :: 0 <= k < |pairs| ==> pairs[k].i != m && pairs[k].j != m
    ensures var r := ResolveAll(states, pairs); r.Some? ==> r.value[m] == states[m]
    decreases |pairs|
  {
    if pairs != [] && pairs[0].i < |states| && pairs[0].j < |states| {
      var p := pairs[0];
      match Resolve(states, p.i, p.j, Zero2, DefaultRestitution)
      case None =>
      case Some(st) =>
        ResolveTouchesOnlyPair(states, p.i, p.j, Zero2, DefaultRestitution, m);
        ResolveAllUntouched(st, pairs[1..], m);
    }
  }

  function CommittedAll(states: seq<BodyState>): (r: seq<BodyState>)
    ensures |r| == |states| && forall k :: 0 <= k < |states| ==> r[k] == Committed(states[k])
  {
    seq(|states|, k requires 0 <= k < |states| => Committed(states[k]))
  }

  /** The new contacts of a list of states, each resolved in turn. */
  function ResolveNew(states: seq<BodyState>): (r: Option<seq<BodyState>>)
    ensures r.Some? ==> |r.value| == |states|
  {
    ResolveAll(states, NewContacts(states))
  }

  /**
   * UpdatePhysics on the bodies' states with time step dt: integrate all,
   * find new contacts, resolve them in order, commit all.
   */
  function Tick(states: seq<BodyState>, dt: real): (r: Option<seq<BodyState>>)
  {
    match ResolveNew(IntegratedAll(states, dt))
    case None => None
    case Some(resolved) => Some(CommittedAll(resolved))
  }

  /** A tick that stays in the model resolves its new contacts and commits the result. */
  lemma TickSteps(states: seq<BodyState>, dt: real)
    requires Tick(states, dt).Some?
    ensures ResolveNew(IntegratedAll(states, dt)).Some?
    ensures Tick(states, dt).value == CommittedAll(ResolveNew(IntegratedAll(states, dt)).value)
  {
  }

  /** A committed body: no motion, no force, and its old position is where it is. */
  predicate AtRest(s: BodyState) {
    s.velocity == Zero2 && s.force == Zero2 && s.position == s.oldPosition
  }

  lemma CommitAllAtRest(states: seq<BodyState>)
    requires AllValid(states)
    ensures AllValid(CommittedAll(states)) && SameParams(states, CommittedAll(states))
    ensures forall k :: 0 <= k < |states| ==> AtRest(CommittedAll(states)[k])
  {
    forall k | 0 <= k < |states|
      ensures ValidState(CommittedAll(states)[k])
    {
      CommitThenRevert(states[k]);
    }
  }

  lemma {:induction false} IntegrateUpToValid(states: seq<BodyState>, k: nat, dt: real)
    requires k <= |states| && AllValid(states)
    ensures AllValid(IntegrateUpTo(states, k, dt))
    decreases k
  {
    if k > 0 {
      IntegrateUpToValid(states, k - 1, dt);
      var prev := IntegrateUpTo(states, k - 1, dt);
      IntegrateProperties(prev[k - 1], dt, GroundedAt(prev, k - 1));
    }
  }

  lemma RevertBothValid(states: seq<BodyState>, a: nat, b: nat)
    requires a < |states| && b < |states| && AllValid(states)
    ensures AllValid(RevertBoth(states, a, b))
  {
    var st := RevertAt(states, a);
    WithVelocityClamps(states[a].(position := states[a].oldPosition), states[a].oldVelocity);
    WithVelocityClamps(st[b].(position := st[b].oldPosition), st[b].oldVelocity);
  }

  /** Integrating one body keeps every body valid. */
  lemma IntegrateAtValid(states: seq<BodyState>, k: nat, dt: real)
    requires k < |states| && AllValid(states)
    ensures AllValid(IntegrateAt(states, k, dt))
  {
    IntegrateProperties(states[k], dt, GroundedAt(states, k));
  }

  /** Pushing one body keeps every body valid: validity does not constrain the force. */
  lemma PushAtValid(states: seq<BodyState>, k: nat, f: Vec2)
    requires k < |states| && AllValid(states)
    ensures AllValid(PushAt(states, k, f))
  {
  }

  /** Reverting, pushing and re-integrating a pair keeps every body valid. */
  lemma ApplyImpulseValid(states: seq<BodyState>, a: nat, b: nat, restitution: real, o: Outcome)
    requires a < |states| && b < |states| && AllValid(states)
    ensures AllValid(ApplyImpulse(states, a, b, restitution, o))
  {
    var st := RevertBoth(states, a, b);
    RevertBothValid(states, a, b);
    var tim := TotalInverseMass(st[a], st[b]);
    if tim > 0.0 {
      var impulse := Impulse(st[a].velocity, st[b].velocity, o.normal, restitution, tim);
      var once := PushAt(st, a, impulse);
      PushAtValid(st, a, impulse);
      var pushed := PushAt(once, b, impulse.Neg());
      PushAtValid(once, b, impulse.Neg());
      IntegrateAtValid(pushed, a, o.collisionTime);
      IntegrateAtValid(IntegrateAt(pushed, a, o.collisionTime), b, o.collisionTime);
    }
  }

  /** A resolved contact leaves every body valid. */
  lemma ResolveValid(states: seq<BodyState>, i: nat, j: nat, n0: Vec2, r0: real)
    requires i < |states| && j < |states| && AllValid(states)
    ensures var r := Resolve(states, i, j, n0, r0); r.Some? ==> AllValid(r.value)
  {
    var b := if SwapGuard(states[i], states[j]) then i else j;
    match ContactOutcome(states[i], states[b], n0)
    case None =>
    case Some(o) => ApplyImpulseValid(states, i, b, Restitution(states[i], r0), o);
  }

  lemma {:induction false} ResolveAllValid(states: seq<BodyState>, pairs: seq<Pair>)
    requires AllValid(states)
    ensures var r := ResolveAll(states, pairs); r.Some? ==> AllValid(r.value)
    decreases |pairs|
  {
    if pairs != [] && pairs[0].i < |states| && pairs[0].j < |states| {
      ResolveValid(states, pairs[0].i, pairs[0].j, Zero2, DefaultRestitution);
      match Resolve(states, pairs[0].i, pairs[0].j, Zero2, DefaultRestitution)
      case None =>
      case Some(st) => ResolveAllValid(st, pairs[1..]);
    }
  }

  /**
   * After a tick every body is committed and still valid: at rest, with no
   * force.
   */
  lemma TickCommitsAll(states: seq<BodyState>, dt: real)
    requires AllValid(states)
    ensures var r := Tick(states, dt);
      r.Some? ==>
        AllValid(r.value)
        && forall k :: 0 <= k < |states| ==> AtRest(r.value[k])
  {
    var integrated := IntegratedAll(states, dt);
    IntegrateUpToValid(states, |states|, dt);
    var contacts := NewContacts(integrated);
    var resolved := ResolveAll(integrated, contacts);
    ResolveAllValid(integrated, contacts);
    if resolved.Some? {
      CommitAllAtRest(resolved.value);
      assert Tick(states, dt) == Some(CommittedAll(resolved.value));
    }
  }

  // ---------------------------------------------------------------------
  // The engine and its contacts as objects

  /** The states of a list of bodies, in list order. */
  function StatesOf(bs: seq<PPhysicsBody>): (r: seq<BodyState>)
    reads bs
    ensures |r| == |bs|
  {
    StatesFrom(bs, 0)
  }

  /** The states of the bodies from index k on. */
  function StatesFrom(bs: seq<PPhysicsBody>, k: nat): (r: seq<BodyState>)
    requires k <= |bs|
    reads bs
    ensures |r| == |bs| - k
    decreases |bs| - k
  {
    if k == |bs| then [] else [bs[k].State()] + StatesFrom(bs, k + 1)
  }

  lemma {:induction false} StatesFromAt(bs: seq<PPhysicsBody>, k: nat, m: nat)
    requires k <= m < |bs|
    ensures StatesFrom(bs, k)[m - k] == bs[m].State()
    decreases m - k
  {
    if k < m {
      StatesFromAt(bs, k + 1, m);
    }
  }

  lemma StatesOfAt(bs: seq<PPhysicsBody>, m: nat)
    requires m < |bs|
    ensures StatesOf(bs)[m] == bs[m].State()
  {
    StatesFromAt(bs, 0, m);
  }

  /** No element appears twice in the list. */
  predicate Distinct<T(==)>(s: seq<T>) {
    |s| == 0 || (s[|s| - 1] !in s[..|s| - 1] && Distinct(s[..|s| - 1]))
  }

  /** In a list without repeats, the element at k is at no other index. */
  lemma {:induction false} DistinctAt<T>(s: seq<T>, k: nat)
    requires Distinct(s) && k < |s|
    ensures forall m :: 0 <= m < |s| && m != k ==> s[m] != s[k]
  {
    var last := |s| - 1;
    if k < last {
      DistinctAt(s[..last], k);
      assert forall m :: 0 <= m < last ==> s[m] == s[..last][m];
    } else {
      assert forall m :: 0 <= m < last ==> s[m] in s[..last];
    }
  }

  /** Two lists without repeats and without common elements join into one without repeats. */
  lemma {:induction false} DistinctConcat<T>(x: seq<T>, y: seq<T>)
    requires Distinct(x) && Distinct(y)
    requires forall n :: 0 <= n < |y| ==> y[n] !in x
    ensures Distinct(x + y)
    decreases |y|
  {
    if |y| == 0 {
      assert x + y == x;
    } else {
      var last := |y| - 1;
      var front := y[..last];
      assert forall n :: 0 <= n < last ==> front[n] == y[n];
      DistinctConcat(x, front);
      assert (x + y)[..|x + y| - 1] == x + front;
      DistinctAt(y, last);
      forall e | e in x + front
        ensures e != y[last]
      {
        if e !in x {
          var n :| 0 <= n < last && front[n] == e;
        }
      }
    }
  }

  /** Every body has a non-zero mass. */
  predicate Massive(bs: seq<PPhysicsBody>) {
    forall k :: 0 <= k < |bs| ==> bs[k].p.mass != 0.0
  }

  lemma StatesOfAll(bs: seq<PPhysicsBody>)
    ensures forall m :: 0 <= m < |bs| ==> StatesOf(bs)[m] == bs[m].State()
  {
    forall m | 0 <= m < |bs|
      ensures StatesOf(bs)[m] == bs[m].State()
    {
      StatesOfAt(bs, m);
    }
  }

  lemma StatesOfSnoc(bs: seq<PPhysicsBody>, b: PPhysicsBody)
    ensures StatesOf(bs + [b]) == StatesOf(bs) + [b.State()]
  {
    StatesOfAll(bs);
    StatesOfAll(bs + [b]);
  }

  /** When only the body at k has changed, only the k-th state has changed. */
  lemma StatesAfterOne(bs: seq<PPhysicsBody>, k: nat, before: seq<BodyState>)
    requires k < |bs| == |before|
    requires forall m :: 0 <= m < |bs| && m != k ==> bs[m].State() == before[m]
    ensures StatesOf(bs) == before[k := bs[k].State()]
  {
    StatesOfAll(bs);
  }

  /** Contact c stands for the pair p of bs: its bodies and its fresh normal and restitution. */
  ghost predicate Describes(bs: seq<PPhysicsBody>, c: Contact, p: Pair)
    reads c
  {
    p.i < |bs| && p.j < |bs| && c.b1 == bs[p.i] && c.b2 == bs[p.j]
    && c.contactN == Zero2 && c.restitution == DefaultRestitution
  }

  /** Contact k stands for pair k of bs, and no contact appears twice. */
  ghost predicate DescribesAll(bs: seq<PPhysicsBody>, cs: seq<Contact>, pairs: seq<Pair>)
    reads cs
  {
    && |cs| == |pairs|
    && (forall k :: 0 <= k < |cs| ==> Describes(bs, cs[k], pairs[k]))
    && Distinct(cs)
  }

  lemma DescribesConcat(bs: seq<PPhysicsBody>, cs1: seq<Contact>, p1: seq<Pair>, cs2: seq<Contact>, p2: seq<Pair>)
    requires DescribesAll(bs, cs1, p1) && DescribesAll(bs, cs2, p2)
    requires forall n :: 0 <= n < |cs2| ==> cs2[n] !in cs1
    ensures DescribesAll(bs, cs1 + cs2, p1 + p2)
  {
    var cs, ps := cs1 + cs2, p1 + p2;
    forall k | 0 <= k < |cs|
      ensures Describes(bs, cs[k], ps[k])
    {
      if k >= |cs1| {
        assert cs[k] == cs2[k - |cs1|] && ps[k] == p2[k - |cs1|];
      }
    }
    DistinctConcat(cs1, cs2);
  }

  lemma DescribesSnoc(bs: seq<PPhysicsBody>, cs: seq<Contact>, ps: seq<Pair>, c: Contact, p: Pair)
    requires DescribesAll(bs, cs, ps) && Describes(bs, c, p) && c !in cs
    ensures DescribesAll(bs, cs + [c], ps + [p])
  {
    assert (cs + [c])[..|cs|] == cs;
  }

  /** The time step UpdatePhysics takes at Time.time == now. */
  function Elapsed(now: real, previous: real): real {
    now - previous
  }

  /**
   * The time steps of UpdatePhysics calls at the given times, as written:
   * after each call previousIntegrateTime holds the step just taken.
   */
  function StepsAsWritten(times: seq<real>, previous: real): (r: seq<real>)
    ensures |r| == |times|
    ensures times != [] ==> r[0] == times[0] - previous
  {
    if times == [] then []
    else [Elapsed(times[0], previous)] + StepsAsWritten(times[1..], Elapsed(times[0], previous))
  }

  /**
   * Ticks 20 ms apart: the third step is already twice the real interval, and
   * the steps add up to more than the time that passed.
   */
  lemma StepsAsWrittenDrift()
    ensures StepsAsWritten([0.02, 0.04, 0.06], 0.0) == [0.02, 0.02, 0.04]
    ensures StepsAsWritten([0.02, 0.04, 0.06], 0.0)[2] != 0.06 - 0.04
    ensures StepSum(StepsAsWritten([0.02, 0.04, 0.06], 0.0)) > 0.06
  {
    var r := StepsAsWritten([0.02, 0.04, 0.06], 0.0);
    assert [0.02, 0.04, 0.06][1..] == [0.04, 0.06];
    assert [0.04, 0.06][1..] == [0.06];
    assert r == [0.02, 0.02, 0.04];
    assert r[1..] == [0.02, 0.04] && r[1..][1..] == [0.04] && r[1..][1..][1..] == [];
  }

  function StepSum(steps: seq<real>): real {
    if steps == [] then 0.0 else steps[0] + StepSum(steps[1..])
  }

  /**
   * The time steps with previousIntegrateTime set to the time of the call,
   * the end of the step just integrated.
   */
  function TimeSteps(times: seq<real>, previous: real): (r: seq<real>)
    ensures |r| == |times|
  {
    if times == [] then [] else [Elapsed(times[0], previous)] + TimeSteps(times[1..], times[0])
  }

  /**
   * Each corrected step is the interval since the previous call, so the
   * steps together cover exactly the time from the start to the last call.
   */
  lemma {:induction false} TimeStepsCoverElapsedTime(times: seq<real>, previous: real)
    ensures forall k :: 0 < k < |times| ==> TimeSteps(times, previous)[k] == times[k] - times[k - 1]
    ensures times != [] ==> StepSum(TimeSteps(times, previous)) == times[|times| - 1] - previous
    decreases |times|
  {
    if times != [] {
      var r := TimeSteps(times, previous);
      var rest := TimeSteps(times[1..], times[0]);
      assert r[1..] == rest;
      TimeStepsCoverElapsedTime(times[1..], times[0]);
      forall k | 1 < k < |times|
        ensures r[k] == times[k] - times[k - 1]
      {
        assert r[k] == rest[k - 1] && times[1..][k - 1] == times[k] && times[1..][k - 2] == times[k - 1];
      }
      if |times| > 1 {
        assert rest[0] == times[1] - times[0];
        assert times[1..][|times[1..]| - 1] == times[|times| - 1];
      }
    }
  }

  class PPhysicsEngine {
    var bodies: seq<PPhysicsBody>
    var contacts: seq<Contact>
    var previousIntegrateTime: real
    var startIntegrateTime: real

    /** The registered bodies are distinct and each has a mass to divide by. */
    ghost predicate Valid()
      reads this
    {
      Distinct(bodies) && Massive(bodies)
    }

    function States(): seq<BodyState>
      reads this, bodies
    {
      StatesOf(bodies)
    }

    constructor ()
      ensures Valid() && bodies == [] && contacts == []
      ensures previousIntegrateTime == 0.0 && startIntegrateTime == 0.0
    {
      bodies, contacts := [], [];
      previousIntegrateTime, startIntegrateTime := 0.0, 0.0;
    }

    /** AddBody: the body joins the end of the list. */
    method AddBody(newBody: PPhysicsBody)
      requires Valid() && newBody.p.mass != 0.0 && newBody !in bodies
      modifies this
      ensures Valid() && bodies == old(bodies) + [newBody]
      ensures States() == old(States()) + [newBody.State()]
      ensures contacts == old(contacts)
      ensures previousIntegrateTime == old(previousIntegrateTime) && startIntegrateTime == old(startIntegrateTime)
    {
      ghost var before := bodies;
      StatesOfSnoc(before, newBody);
      bodies := bodies + [newBody];
      assert bodies[..|bodies| - 1] == before;
    }

    /** Grounded(b), for the body b at index k of the list. */
    method Grounded(b: PPhysicsBody, ghost k: nat) returns (g: bool)
      requires Valid() && k < |bodies| && bodies[k] == b
      ensures g == GroundedAt(States(), k)
    {
      DistinctAt(bodies, k);
      var m := 0;
      while m < |bodies|
        invariant 0 <= m <= |bodies|
        invariant forall n :: 0 <= n < m && n != k ==> !RestsOn(States()[k], States()[n])
      {
        var b2 := bodies[m];
        StatesOfAt(bodies, k);
        StatesOfAt(bodies, m);
        if b != b2 {
          if LL(b.State()).x < UR(b2.State()).x && UR(b.State()).x > LL(b2.State()).x
             && Abs(LL(b.State()).y - UR(b2.State()).y) <= GroundedDistanceThreshold {
            RestsOnAnyExists(States(), k, |bodies|);
            return true;
          }
        }
        m := m + 1;
      }
      RestsOnAnyExists(States(), k, |bodies|);
      return false;
    }

    /**
     * The body at k integrates: PPhysicsBody.Integrate asks the engine's
     * Grounded for itself first. Only that body changes.
     */
    method IntegrateBody(b: PPhysicsBody, ghost k: nat, deltaTime: real)
      requires Valid() && k < |bodies| && bodies[k] == b
      modifies b
      ensures Valid()
      ensures States() == IntegrateAt(old(States()), k, deltaTime)
    {
      ghost var before := States();
      StatesOfAll(bodies);
      var g := Grounded(b, k);
      DistinctAt(bodies, k);
      b.Integrate(deltaTime, g);
      StatesAfterOne(bodies, k, before);
    }

    /** The body at k reverts; only that body changes. */
    method RevertBody(b: PPhysicsBody, ghost k: nat)
      requires Valid() && k < |bodies| && bodies[k] == b
      modifies b
      ensures Valid() && States() == RevertAt(old(States()), k)
    {
      ghost var before := States();
      StatesOfAll(bodies);
      DistinctAt(bodies, k);
      b.Revert();
      StatesAfterOne(bodies, k, before);
    }

    /** The body at k receives a force; only that body changes. */
    method PushBody(b: PPhysicsBody, ghost k: nat, f: Vec2)
      requires Valid() && k < |bodies| && bodies[k] == b
      modifies b
      ensures Valid() && States() == PushAt(old(States()), k, f)
    {
      ghost var before := States();
      StatesOfAll(bodies);
      DistinctAt(bodies, k);
      b.AddForce(f);
      StatesAfterOne(bodies, k, before);
    }

    /** The body at k commits; only that body changes. */
    method CommitBody(b: PPhysicsBody, ghost k: nat)
      requires Valid() && k < |bodies| && bodies[k] == b
      modifies b
      ensures Valid() && States() == CommitAt(old(States()), k)
    {
      ghost var before := States();
      StatesOfAll(bodies);
      DistinctAt(bodies, k);
      b.Commit();
      StatesAfterOne(bodies, k, before);
    }

    /** IntegrateAll: each body in turn, in list order. */
    method IntegrateAll(deltaTime: real)
      requires Valid()
      modifies bodies
      ensures Valid() && States() == IntegratedAll(old(States()), deltaTime)
    {
      ghost var s0 := States();
      var k := 0;
      while k < |bodies|
        invariant 0 <= k <= |bodies| && Valid()
        invariant States() == IntegrateUpTo(s0, k, deltaTime)
      {
        IntegrateBody(bodies[k], k, deltaTime);
        k := k + 1;
      }
    }

    /**
     * CheckForCollisions: a new contact for each pair i < j whose boxes have
     * just started to overlap, in the order the nested loops meet them.
     */
    method CheckForCollisions() returns (cs: seq<Contact>, ghost pairs: seq<Pair>)
      ensures pairs == NewContacts(States())
      ensures DescribesAll(bodies, cs, pairs) && fresh(cs)
    {
      ghost var s := States();
      cs, pairs := [], [];
      var i := 0;
      while i < |bodies| - 1
        invariant 0 <= i <= |bodies|
        invariant |bodies| == 0 || i <= |bodies| - 1
        invariant States() == s && pairs == PairsBefore(s, i)
        invariant DescribesAll(bodies, cs, pairs) && fresh(cs)
      {
        var row, rowPairs := CollisionsOf(i, s);
        DescribesConcat(bodies, cs, pairs, row, rowPairs);
        cs, pairs := cs + row, pairs + rowPairs;
        i := i + 1;
      }
    }

    /**
     * The inner loop of CheckForCollisions: the new contacts of body i with
     * the bodies after it, given their states s.
     */
    method CollisionsOf(i: nat, ghost s: seq<BodyState>) returns (cs: seq<Contact>, ghost pairs: seq<Pair>)
      requires i < |bodies| && s == States()
      ensures States() == s && pairs == RowPairs(s, i, |bodies|)
      ensures DescribesAll(bodies, cs, pairs) && fresh(cs)
    {
      cs, pairs := [], [];
      var j := i + 1;
      while j < |bodies|
        invariant i + 1 <= j <= |bodies|
        invariant States() == s && pairs == RowPairs(s, i, j)
        invariant DescribesAll(bodies, cs, pairs) && fresh(cs)
      {
        StatesOfAt(bodies, i);
        StatesOfAt(bodies, j);
        if AreColliding(bodies[i].State(), bodies[j].State()) {
          var c := new Contact(bodies[i], bodies[j]);
          DescribesSnoc(bodies, cs, pairs, c, Pair(i, j));
          cs, pairs := cs + [c], pairs + [Pair(i, j)];
        }
        j := j + 1;
      }
    }

    /** ResolveCollisions: each contact in order. */
    method ResolveCollisions(cs: seq<Contact>, ghost pairs: seq<Pair>)
      requires Valid() && DescribesAll(bodies, cs, pairs)
      requires ResolveAll(States(), pairs).Some?
      modifies bodies, cs
      ensures Valid() && States() == ResolveAll(old(States()), pairs).value
    {
      ghost var s0 := States();
      var k := 0;
      while k < |cs|
        invariant 0 <= k <= |cs| && Valid() && bodies == old(bodies)
        invariant ResolveAll(States(), pairs[k..]) == ResolveAll(s0, pairs)
        invariant forall n :: k <= n < |cs| ==> Describes(bodies, cs[n], pairs[n])
      {
        ResolveAllStep(States(), pairs, k);
        DistinctAt(cs, k);
        cs[k].ResolveContact(this, pairs[k].i, pairs[k].j);
        k := k + 1;
      }
      assert pairs[k..] == [];
    }

    /** CommitAll: every body in turn. */
    method CommitAll()
      requires Valid()
      modifies bodies
      ensures Valid() && States() == CommittedAll(old(States()))
    {
      ghost var s0 := States();
      var k := 0;
      while k < |bodies|
        invariant 0 <= k <= |bodies| && Valid() && |s0| == |States()|
        invariant forall m :: 0 <= m < k ==> States()[m] == Committed(s0[m])
        invariant forall m :: k <= m < |bodies| ==> States()[m] == s0[m]
      {
        CommitBody(bodies[k], k);
        k := k + 1;
      }
    }

    /**
     * The middle of UpdatePhysics: the new contacts, which become the
     * engine's contacts, are resolved in order when there are any.
     */
    method DetectAndResolve() returns (cs: seq<Contact>)
      requires Valid() && ResolveNew(States()).Some?
      modifies bodies
      ensures Valid() && States() == ResolveNew(old(States())).value
      ensures |cs| == |NewContacts(old(States()))|
    {
      ghost var pairs;
      cs, pairs := CheckForCollisions();
      if |cs| > 0 {
        ResolveCollisions(cs, pairs);
      }
    }

    /**
     * UpdatePhysics at Time.time == now: the time step is the time elapsed
     * since previousIntegrateTime, and previousIntegrateTime then takes the
     * time step (not the time).
     */
    method UpdatePhysics(now: real)
      requires Valid() && Tick(States(), Elapsed(now, previousIntegrateTime)).Some?
      modifies this, bodies
      ensures Valid() && bodies == old(bodies)
      ensures startIntegrateTime == Elapsed(now, old(previousIntegrateTime))
      ensures previousIntegrateTime == startIntegrateTime
      ensures States() == Tick(old(States()), startIntegrateTime).value
      ensures |contacts| == |NewContacts(IntegratedAll(old(States()), startIntegrateTime))|
    {
      var dt := Elapsed(now, previousIntegrateTime);
      // No body reads the engine's fields during the step, so the three
      // field writes are gathered after it.
      var cs := Step(dt);
      startIntegrateTime, contacts := dt, cs;
      previousIntegrateTime := startIntegrateTime;
    }

    /** The body of UpdatePhysics for time step dt; it returns the tick's new contacts. */
    method Step(dt: real) returns (cs: seq<Contact>)
      requires Valid() && Tick(States(), dt).Some?
      modifies bodies
      ensures Valid() && States() == Tick(old(States()), dt).value
      ensures |cs| == |NewContacts(IntegratedAll(old(States()), dt))|
    {
      TickSteps(States(), dt);
      IntegrateAll(dt);
      cs := DetectAndResolve();
      CommitAll();
    }
  }

  class Contact {
    var b1: PPhysicsBody
    var b2: PPhysicsBody
    var contactN: Vec2
    var restitution: real

    constructor (b1: PPhysicsBody, b2: PPhysicsBody)
      ensures this.b1 == b1 && this.b2 == b2
      ensures contactN == Zero2 && restitution == DefaultRestitution
    {
      this.b1, this.b2 := b1, b2;
      contactN, restitution := Zero2, DefaultRestitution;
    }

    /**
     * ResolveContact for the contact between the engine's bodies i and j.
     * Defined only where the source's float arithmetic stays finite.
     */
    method ResolveContact(engine: PPhysicsEngine, ghost i: nat, ghost j: nat)
      requires engine.Valid() && i < |engine.bodies| && j < |engine.bodies|
      requires b1 == engine.bodies[i] && b2 == engine.bodies[j]
      requires Resolve(engine.States(), i, j, contactN, restitution).Some?
      modifies this, engine.bodies
      ensures engine.Valid() && engine.bodies == old(engine.bodies)
      ensures engine.States() == Resolve(old(engine.States()), i, j, old(contactN), old(restitution)).value
    {
      ghost var s0 := engine.States();
      ghost var b := if SwapGuard(s0[i], s0[j]) then i else j;
      StatesOfAt(engine.bodies, i);
      StatesOfAt(engine.bodies, j);
      if UR(b1.State()).x == URold(b1.State()).x && LL(b1.State()).UnityEquals(LLold(b2.State())) {
        var temp := b1;
        b2 := b1;
        b1 := temp;
      }
      assert b1 == engine.bodies[i] && b2 == engine.bodies[b];
      if b1.p.rebounds {
        restitution := 0.8;
      }
      assert restitution == Restitution(s0[i], old(restitution));
      var collisionTime := ChooseNormal();
      ghost var o := Outcome(contactN, collisionTime);
      ResolveWith(s0, i, j, old(contactN), old(restitution), b, o);
      assert engine.States() == s0;
      Respond(engine, collisionTime, i, b);
      assert engine.States() == ApplyImpulse(s0, i, b, restitution, o);
    }

    /**
     * The quadrant analysis: the side of the second body the first strikes
     * sets one axis of the normal, and the time to reach it becomes the
     * collision time.
     */
    method ChooseNormal() returns (collisionTime: real)
      requires ContactOutcome(b1.State(), b2.State(), contactN).Some?
      modifies this
      ensures b1 == old(b1) && b2 == old(b2) && restitution == old(restitution)
      ensures ContactOutcome(b1.State(), b2.State(), old(contactN)) == Some(Outcome(contactN, collisionTime))
    {
      var s1, s2 := b1.State(), b2.State();
      var speed := URold(s1).Minus(UR(s1));
      collisionTime := DefaultCollisionTime;
      var objectDistance: Vec2;
      if speed.x >= 0.0 {
        if speed.y < 0.0 {
          objectDistance := LL(s1).Minus(UR(s2));
          if XFirst(objectDistance, speed) {
            contactN := contactN.(x := -1.0);
            collisionTime := objectDistance.x / speed.x;
          } else {
            contactN := contactN.(y := 1.0);
            collisionTime := objectDistance.y / speed.y;
          }
        } else if speed.y > 0.0 {
          objectDistance := UR(s1).Minus(LL(s2));
          if XFirst(objectDistance, speed) {
            contactN := contactN.(x := -1.0);
            collisionTime := objectDistance.x / speed.x;
          } else {
            contactN := contactN.(y := -1.0);
            collisionTime := objectDistance.y / speed.y;
          }
        }
      } else if speed.x < 0.0 {
        if speed.y < 0.0 {
          objectDistance := LL(s1).Minus(UR(s2));
          if XFirst(objectDistance, speed) {
            contactN := contactN.(x := 1.0);
            collisionTime := objectDistance.x / speed.x;
          } else {
            contactN := contactN.(y := 1.0);
            collisionTime := objectDistance.y / speed.y;
          }
        } else if speed.y > 0.0 {
          objectDistance := UR(s1).Minus(LL(s2));
          if XFirst(objectDistance, speed) {
            contactN := contactN.(x := 1.0);
            collisionTime := objectDistance.x / speed.x;
          } else {
            contactN := contactN.(y := -1.0);
            collisionTime := objectDistance.y / speed.y;
          }
        }
      }
    }

    /** Revert both bodies, then push them apart and re-integrate them. */
    method Respond(engine: PPhysicsEngine, collisionTime: real, ghost a: nat, ghost b: nat)
      requires engine.Valid() && a < |engine.bodies| && b < |engine.bodies|
      requires b1 == engine.bodies[a] && b2 == engine.bodies[b]
      modifies engine.bodies
      ensures engine.Valid() && engine.bodies == old(engine.bodies)
      ensures engine.States()
        == ApplyImpulse(old(engine.States()), a, b, restitution, Outcome(contactN, collisionTime))
    {
      ghost var s0 := engine.States();
      engine.RevertBody(b1, a);
      engine.RevertBody(b2, b);
      ghost var st := engine.States();
      assert st == RevertBoth(s0, a, b);
      StatesOfAt(engine.bodies, a);
      StatesOfAt(engine.bodies, b);
      var relativeVelocity := b1.velocity;
      relativeVelocity := relativeVelocity.Minus(b2.velocity);
      var seperatingVelocity := relativeVelocity.Hadamard(contactN);
      var newSepVelocity := seperatingVelocity.Neg().Scale(restitution);
      var deltaVelocity := newSepVelocity.Minus(seperatingVelocity);
      var totalInverseMass := 1.0 / b1.p.mass + 1.0 / b2.p.mass;
      assert totalInverseMass == TotalInverseMass(st[a], st[b]);
      if totalInverseMass <= 0.0 {
        return;
      }
      var impulse := deltaVelocity.Div(totalInverseMass);
      assert impulse == Impulse(st[a].velocity, st[b].velocity, contactN, restitution, totalInverseMass);
      engine.PushBody(b1, a, impulse);
      engine.PushBody(b2, b, impulse.Neg());
      engine.IntegrateBody(b1, a, collisionTime);
      engine.IntegrateBody(b2, b, collisionTime);
    }
  }
}
