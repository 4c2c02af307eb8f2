// Collision bookkeeping of the as1 engine (uEngine/PhysicsEngine.java).
// Every frame the engine compares every ordered pair of game objects; a pair
// that starts colliding gets one enter callback on its first object and is
// tracked, a tracked pair that stops colliding gets one exit callback and is
// dropped. Game objects are identified by their index in the game's object
// list; the callbacks are recorded as emitted events. Positions do not change
// during the check, so a pair's collision status is fixed for the whole call.
module UEnginePhysics {
  import opened Vectors

  /** A game object's transform: lower corner and size. */
  datatype Box = Box(position: Vec2, size: Vec2)

  /** CollisionPair: ordered, compared by the identity of its two objects. */
  datatype CollisionPair = CollisionPair(g1: nat, g2: nat)

  /** g1.onCollisionEnter(g2) and g1.onCollisionExit(g2). */
  datatype Event = Enter(pair: CollisionPair) | Exit(pair: CollisionPair)

  predicate NoDup<T(==)>(s: seq<T>) {
    forall i, j :: 0 <= i < j < |s| ==> s[i] != s[j]
  }

  /** within: the point lies in the half-open box [x, x + w) x [y, y + h). */
  predicate Within(p: Vec2, g: Box) {
    p.x >= g.position.x && p.x < g.position.x + g.size.x
    && p.y >= g.position.y && p.y < g.position.y + g.size.y
  }

  /** colliding: one of g1's four corners, placed size - 1 from its origin, lies within g2. */
  predicate Colliding(g1: Box, g2: Box) {
    var p := g1.position;
    var ll := p;
    var lr := Vec2(p.x + g1.size.x - 1.0, p.y);
    var ul := Vec2(p.x, p.y + g1.size.y - 1.0);
    var ur := Vec2(p.x + g1.size.x - 1.0, p.y + g1.size.y - 1.0);
    Within(ll, g2) || Within(lr, g2) || Within(ul, g2) || Within(ur, g2)
  }

  /** Two boxes overlap: their half-open extents intersect on both axes. */
  predicate Overlap(g1: Box, g2: Box) {
    g1.position.x < g2.position.x + g2.size.x && g2.position.x < g1.position.x + g1.size.x
    && g1.position.y < g2.position.y + g2.size.y && g2.position.y < g1.position.y + g1.size.y
  }

  /**
   * For boxes at least one unit wide and high, colliding means overlapping,
   * every box collides with itself, and a box whose lower-left corner lies
   * in another collides with it.
   */
  lemma CollidingMeansOverlap(g1: Box, g2: Box)
    requires g1.size.x >= 1.0 && g1.size.y >= 1.0
    ensures Colliding(g1, g2) ==> Overlap(g1, g2)
    ensures Colliding(g1, g1)
    ensures Within(g1.position, g2) ==> Colliding(g1, g2)
  {
  }

  /**
   * The test is one-sided: a small box inside a larger one collides with it,
   * but not the other way round.
   */
  lemma CollidingIsOneSided()
    ensures var small, large := Box(Vec2(1.0, 1.0), Vec2(1.0, 1.0)), Box(Vec2(0.0, 0.0), Vec2(3.0, 3.0));
      Colliding(small, large) && !Colliding(large, small)
  {
  }

  /**
   * Two boxes that overlap in a cross, with no corner of either inside the
   * other, are not colliding in either order.
   */
  lemma CrossingBoxesDoNotCollide()
    ensures var wide, tall := Box(Vec2(0.0, 10.0), Vec2(50.0, 10.0)), Box(Vec2(20.0, 0.0), Vec2(10.0, 50.0));
      !Colliding(wide, tall) && !Colliding(tall, wide)
  {
  }

  /** The condition of the entry check: two distinct objects of the list that collide. */
  predicate Collides(boxes: seq<Box>, p: CollisionPair) {
    p.g1 < |boxes| && p.g2 < |boxes| && p.g1 != p.g2 && Colliding(boxes[p.g1], boxes[p.g2])
  }

  /** The tracked pairs and the callbacks fired so far in one call. */
  datatype Bookkeeping = Bookkeeping(tracked: seq<CollisionPair>, events: seq<Event>)

  /** The body of the inner entry loop for objects g1 and g2. */
  function EnterStep(boxes: seq<Box>, b: Bookkeeping, g1: nat, g2: nat): Bookkeeping {
    var cp := CollisionPair(g1, g2);
    if Collides(boxes, cp) && cp !in b.tracked then Bookkeeping(b.tracked + [cp], b.events + [Enter(cp)])
    else b
  }

  /** The inner entry loop over the first m objects as g2. */
  function EnterRow(boxes: seq<Box>, b: Bookkeeping, g1: nat, m: nat): Bookkeeping {
    if m == 0 then b else EnterStep(boxes, EnterRow(boxes, b, g1, m - 1), g1, m - 1)
  }

  /** The outer entry loop over the first m objects as g1. */
  function EnterRows(boxes: seq<Box>, b: Bookkeeping, m: nat): Bookkeeping {
    if m == 0 then b else EnterRow(boxes, EnterRows(boxes, b, m - 1), m - 1, |boxes|)
  }

  /** checkAndHandleCollisionEntry over the whole list. */
  function Entered(boxes: seq<Box>, tracked: seq<CollisionPair>): Bookkeeping {
    EnterRows(boxes, Bookkeeping(tracked, []), |boxes|)
  }

  /** The tracked pairs that still collide, in order. */
  function Kept(boxes: seq<Box>, t: seq<CollisionPair>): seq<CollisionPair> {
    if t == [] then []
    else Kept(boxes, t[..|t| - 1]) + (if Collides(boxes, t[|t| - 1]) then [t[|t| - 1]] else [])
  }

  /** The tracked pairs that no longer collide (the list noLongerColliding), in order. */
  function Dropped(boxes: seq<Box>, t: seq<CollisionPair>): seq<CollisionPair> {
    if t == [] then []
    else Dropped(boxes, t[..|t| - 1]) + (if Collides(boxes, t[|t| - 1]) then [] else [t[|t| - 1]])
  }

  function ExitEvents(ps: seq<CollisionPair>): (r: seq<Event>)
    ensures |r| == |ps|
  {
    seq(|ps|, i requires 0 <= i < |ps| => Exit(ps[i]))
  }

  /** checkCollisions: the entry check, then the exit check on the pairs it left. */
  function Checked(boxes: seq<Box>, tracked: seq<CollisionPair>): Bookkeeping {
    var e := Entered(boxes, tracked);
    Bookkeeping(Kept(boxes, e.tracked), e.events + ExitEvents(Dropped(boxes, e.tracked)))
  }

  /** Set.remove on the tracked pairs. */
  function Remove(t: seq<CollisionPair>, p: CollisionPair): seq<CollisionPair> {
    if t == [] then []
    else Remove(t[..|t| - 1], p) + (if t[|t| - 1] != p then [t[|t| - 1]] else [])
  }

  /** The second exit loop: remove each pair of ps in turn. */
  function RemoveAll(t: seq<CollisionPair>, ps: seq<CollisionPair>): seq<CollisionPair> {
    if ps == [] then t else Remove(RemoveAll(t, ps[..|ps| - 1]), ps[|ps| - 1])
  }

  /** The pairs of t that are not in ps, in order. */
  function FilterOut(t: seq<CollisionPair>, ps: seq<CollisionPair>): seq<CollisionPair> {
    if t == [] then []
    else FilterOut(t[..|t| - 1], ps) + (if t[|t| - 1] !in ps then [t[|t| - 1]] else [])
  }

  // ----- the entry check -----

  /** One step of the entry loops: what is tracked and which enter callbacks fired. */
  lemma EnterStepMember(boxes: seq<Box>, b: Bookkeeping, g1: nat, g2: nat, p: CollisionPair)
    ensures p in EnterStep(boxes, b, g1, g2).tracked <==>
      p in b.tracked || (p == CollisionPair(g1, g2) && Collides(boxes, p))
    ensures Enter(p) in EnterStep(boxes, b, g1, g2).events <==>
      Enter(p) in b.events || (p == CollisionPair(g1, g2) && Collides(boxes, p) && p !in b.tracked)
    ensures forall e :: e in EnterStep(boxes, b, g1, g2).events ==> e in b.events || e.Enter?
  {
  }

  /** The inner loop tracks every colliding (g1, g2') with g2' < m, and fires enter for the new ones. */
  lemma {:induction false} EnterRowMember(boxes: seq<Box>, b: Bookkeeping, g1: nat, m: nat, p: CollisionPair)
    ensures p in EnterRow(boxes, b, g1, m).tracked <==>
      p in b.tracked || (p.g1 == g1 && p.g2 < m && Collides(boxes, p))
    ensures Enter(p) in EnterRow(boxes, b, g1, m).events <==>
      Enter(p) in b.events || (p.g1 == g1 && p.g2 < m && Collides(boxes, p) && p !in b.tracked)
    ensures forall e :: e in EnterRow(boxes, b, g1, m).events ==> e in b.events || e.Enter?
    decreases m
  {
    if m > 0 {
      EnterRowMember(boxes, b, g1, m - 1, p);
      EnterStepMember(boxes, EnterRow(boxes, b, g1, m - 1), g1, m - 1, p);
    }
  }

  /** The outer loop tracks every colliding pair with first object below m. */
  lemma {:induction false} EnterRowsMember(boxes: seq<Box>, b: Bookkeeping, m: nat, p: CollisionPair)
    ensures p in EnterRows(boxes, b, m).tracked <==>
      p in b.tracked || (p.g1 < m && Collides(boxes, p))
    ensures Enter(p) in EnterRows(boxes, b, m).events <==>
      Enter(p) in b.events || (p.g1 < m && Collides(boxes, p) && p !in b.tracked)
    ensures forall e :: e in EnterRows(boxes, b, m).events ==> e in b.events || e.Enter?
    decreases m
  {
    if m > 0 {
      EnterRowsMember(boxes, b, m - 1, p);
      EnterRowMember(boxes, EnterRows(boxes, b, m - 1), m - 1, |boxes|, p);
    }
  }

  /**
   * What the bookkeeping keeps true inside a call: no pair tracked twice,
   * no callback fired twice, and every enter fired is for a tracked pair.
   */
  predicate Inv(b: Bookkeeping) {
    NoDup(b.tracked) && NoDup(b.events)
    && forall i :: 0 <= i < |b.events| ==> b.events[i].Enter? && b.events[i].pair in b.tracked
  }

  lemma EnterStepInv(boxes: seq<Box>, b: Bookkeeping, g1: nat, g2: nat)
    requires Inv(b)
    ensures Inv(EnterStep(boxes, b, g1, g2))
  {
    var cp := CollisionPair(g1, g2);
    if Collides(boxes, cp) && cp !in b.tracked {
      var r := EnterStep(boxes, b, g1, g2);
      forall i | 0 <= i < |b.events|
        ensures b.events[i] != Enter(cp)
      {
        assert b.events[i].pair in b.tracked;
      }
      assert forall i :: 0 <= i < |r.events| ==> r.events[i].Enter? && r.events[i].pair in r.tracked;
    }
  }

  lemma {:induction false} EnterRowsInv(boxes: seq<Box>, b: Bookkeeping, m: nat)
    requires Inv(b)
    ensures Inv(EnterRows(boxes, b, m))
    decreases m
  {
    if m > 0 {
      EnterRowsInv(boxes, b, m - 1);
      EnterRowInv(boxes, EnterRows(boxes, b, m - 1), m - 1, |boxes|);
    }
  }

  lemma {:induction false} EnterRowInv(boxes: seq<Box>, b: Bookkeeping, g1: nat, m: nat)
    requires Inv(b)
    ensures Inv(EnterRow(boxes, b, g1, m))
    decreases m
  {
    if m > 0 {
      EnterRowInv(boxes, b, g1, m - 1);
      EnterStepInv(boxes, EnterRow(boxes, b, g1, m - 1), g1, m - 1);
    }
  }

  /** When every colliding pair is tracked already, the entry loops change nothing. */
  lemma {:induction false} EnterRowsNoop(boxes: seq<Box>, b: Bookkeeping, m: nat)
    requires forall p :: Collides(boxes, p) ==> p in b.tracked
    ensures EnterRows(boxes, b, m) == b
    decreases m
  {
    if m > 0 {
      EnterRowsNoop(boxes, b, m - 1);
      EnterRowNoop(boxes, b, m - 1, |boxes|);
    }
  }

  lemma {:induction false} EnterRowNoop(boxes: seq<Box>, b: Bookkeeping, g1: nat, m: nat)
    requires forall p :: Collides(boxes, p) ==> p in b.tracked
    ensures EnterRow(boxes, b, g1, m) == b
    decreases m
  {
    if m > 0 {
      EnterRowNoop(boxes, b, g1, m - 1);
    }
  }

  // ----- the exit check -----

  lemma {:induction false} KeptDroppedMember(boxes: seq<Box>, t: seq<CollisionPair>, p: CollisionPair)
    ensures p in Kept(boxes, t) <==> p in t && Collides(boxes, p)
    ensures p in Dropped(boxes, t) <==> p in t && !Collides(boxes, p)
    decreases |t|
  {
    if t != [] {
      KeptDroppedMember(boxes, t[..|t| - 1], p);
      assert t == t[..|t| - 1] + [t[|t| - 1]];
    }
  }

  lemma {:induction false} KeptNoDup(boxes: seq<Box>, t: seq<CollisionPair>)
    requires NoDup(t)
    ensures NoDup(Kept(boxes, t)) && NoDup(Dropped(boxes, t))
    decreases |t|
  {
    if t != [] {
      var init, x := t[..|t| - 1], t[|t| - 1];
      assert NoDup(init) by {
        forall i, j | 0 <= i < j < |init|
          ensures init[i] != init[j]
        {
          assert init[i] == t[i] && init[j] == t[j];
        }
      }
      KeptNoDup(boxes, init);
      assert x !in init by {
        forall i | 0 <= i < |init|
          ensures init[i] != x
        {
          assert init[i] == t[i];
        }
      }
      KeptDroppedMember(boxes, init, x);
    }
  }

  /** Every pair of a sequence that collides is kept, in order, and none is dropped. */
  lemma {:induction false} AllCollidingKept(boxes: seq<Box>, t: seq<CollisionPair>)
    requires forall i :: 0 <= i < |t| ==> Collides(boxes, t[i])
    ensures Kept(boxes, t) == t && Dropped(boxes, t) == []
    decreases |t|
  {
    if t != [] {
      AllCollidingKept(boxes, t[..|t| - 1]);
      assert t == t[..|t| - 1] + [t[|t| - 1]];
    }
  }

  lemma {:induction false} RemoveConcat(a: seq<CollisionPair>, b: seq<CollisionPair>, p: CollisionPair)
    ensures Remove(a + b, p) == Remove(a, p) + Remove(b, p)
    decreases |b|
  {
    if b == [] {
      assert a + b == a;
    } else {
      assert (a + b)[..|a + b| - 1] == a + b[..|b| - 1];
      RemoveConcat(a, b[..|b| - 1], p);
    }
  }

  lemma {:induction false} RemoveFilterOut(t: seq<CollisionPair>, ps: seq<CollisionPair>, p: CollisionPair)
    ensures Remove(FilterOut(t, ps), p) == FilterOut(t, ps + [p])
    decreases |t|
  {
    if t != [] {
      var x := t[|t| - 1];
      RemoveFilterOut(t[..|t| - 1], ps, p);
      RemoveConcat(FilterOut(t[..|t| - 1], ps), if x !in ps then [x] else [], p);
      if x !in ps {
        assert Remove([x], p) == Remove([], p) + (if x != p then [x] else []);
      }
    }
  }

  /** Removing the pairs of ps one by one leaves the pairs not in ps, in order. */
  lemma {:induction false} RemoveAllIsFilterOut(t: seq<CollisionPair>, ps: seq<CollisionPair>)
    ensures RemoveAll(t, ps) == FilterOut(t, ps)
    decreases |ps|
  {
    if ps == [] {
      FilterOutNothing(t);
    } else {
      var init := ps[..|ps| - 1];
      RemoveAllIsFilterOut(t, init);
      RemoveFilterOut(t, init, ps[|ps| - 1]);
      assert init + [ps[|ps| - 1]] == ps;
    }
  }

  lemma {:induction false} FilterOutNothing(t: seq<CollisionPair>)
    ensures FilterOut(t, []) == t
    decreases |t|
  {
    if t != [] {
      FilterOutNothing(t[..|t| - 1]);
      assert t == t[..|t| - 1] + [t[|t| - 1]];
    }
  }

  /** Filtering out exactly the non-colliding pairs of t keeps the colliding ones. */
  lemma {:induction false} FilterOutDropped(boxes: seq<Box>, t: seq<CollisionPair>, d: seq<CollisionPair>)
    requires forall x :: x in t ==> (x in d <==> !Collides(boxes, x))
    ensures FilterOut(t, d) == Kept(boxes, t)
    decreases |t|
  {
    if t != [] {
      assert forall x :: x in t[..|t| - 1] ==> x in t;
      FilterOutDropped(boxes, t[..|t| - 1], d);
    }
  }

  /** The exit check's two loops leave exactly the still-colliding pairs. */
  lemma RemoveDroppedKeeps(boxes: seq<Box>, t: seq<CollisionPair>)
    ensures RemoveAll(t, Dropped(boxes, t)) == Kept(boxes, t)
  {
    RemoveAllIsFilterOut(t, Dropped(boxes, t));
    forall x | x in t
      ensures x in Dropped(boxes, t) <==> !Collides(boxes, x)
    {
      KeptDroppedMember(boxes, t, x);
    }
    FilterOutDropped(boxes, t, Dropped(boxes, t));
  }

  // ----- what a call achieves -----

  /** The invariant of the tracked set between frames. */
  predicate Tracking(t: seq<CollisionPair>) {
    NoDup(t) && forall i :: 0 <= i < |t| ==> t[i].g1 != t[i].g2
  }

  /**
   * After checkCollisions the tracked pairs are exactly the ordered pairs of
   * distinct objects that collide; an enter fired for exactly the colliding
   * pairs that were not tracked, an exit for exactly the tracked pairs that
   * stopped colliding, and no callback fired twice.
   */
  lemma CheckedSpec(boxes: seq<Box>, tracked: seq<CollisionPair>, p: CollisionPair)
    requires Tracking(tracked)
    ensures p in Checked(boxes, tracked).tracked <==> Collides(boxes, p)
    ensures Enter(p) in Checked(boxes, tracked).events <==> Collides(boxes, p) && p !in tracked
    ensures Exit(p) in Checked(boxes, tracked).events <==> p in tracked && !Collides(boxes, p)
    ensures Tracking(Checked(boxes, tracked).tracked) && NoDup(Checked(boxes, tracked).events)
  {
    var b0 := Bookkeeping(tracked, []);
    var e := Entered(boxes, tracked);
    EnterRowsMember(boxes, b0, |boxes|, p);
    KeptDroppedMember(boxes, e.tracked, p);
    var exits := ExitEvents(Dropped(boxes, e.tracked));
    assert Exit(p) in e.events + exits <==> Exit(p) in exits;
    assert Enter(p) in e.events + exits <==> Enter(p) in e.events;
    EnterRowsInv(boxes, b0, |boxes|);
    KeptNoDup(boxes, e.tracked);
    var r := Checked(boxes, tracked);
    forall i | 0 <= i < |r.tracked|
      ensures r.tracked[i].g1 != r.tracked[i].g2
    {
      KeptDroppedMember(boxes, e.tracked, r.tracked[i]);
    }
    forall i, j | 0 <= i < j < |r.events|
      ensures r.events[i] != r.events[j]
    {
      if j < |e.events| {
      } else if i >= |e.events| {
        assert r.events[i] == Exit(Dropped(boxes, e.tracked)[i - |e.events|]);
        assert r.events[j] == Exit(Dropped(boxes, e.tracked)[j - |e.events|]);
      } else {
        assert r.events[i] == e.events[i];
      }
    }
    if p in tracked && !Collides(boxes, p) {
      assert p in e.tracked;
      var k :| 0 <= k < |Dropped(boxes, e.tracked)| && Dropped(boxes, e.tracked)[k] == p;
      assert exits[k] == Exit(p);
    }
    if Exit(p) in exits {
      var k :| 0 <= k < |exits| && exits[k] == Exit(p);
      assert Dropped(boxes, e.tracked)[k] == p;
    }
  }

  /** A second call with nothing moved changes nothing and fires no callback. */
  lemma CheckedIdempotent(boxes: seq<Box>, tracked: seq<CollisionPair>)
    requires Tracking(tracked)
    ensures Checked(boxes, Checked(boxes, tracked).tracked) == Bookkeeping(Checked(boxes, tracked).tracked, [])
  {
    var t := Checked(boxes, tracked).tracked;
    forall p | Collides(boxes, p)
      ensures p in t
    {
      CheckedSpec(boxes, tracked, p);
    }
    EnterRowsNoop(boxes, Bookkeeping(t, []), |boxes|);
    forall i | 0 <= i < |t|
      ensures Collides(boxes, t[i])
    {
      CheckedSpec(boxes, tracked, t[i]);
    }
    AllCollidingKept(boxes, t);
  }

  /** Both orders of a pair that collides both ways are tracked, and each gets its own enter. */
  lemma OrderedPairsTrackedSeparately(boxes: seq<Box>, tracked: seq<CollisionPair>, a: nat, b: nat)
    requires Tracking(tracked) && CollisionPair(a, b) !in tracked && CollisionPair(b, a) !in tracked
    requires Collides(boxes, CollisionPair(a, b)) && Collides(boxes, CollisionPair(b, a))
    ensures Enter(CollisionPair(a, b)) in Checked(boxes, tracked).events
    ensures Enter(CollisionPair(b, a)) in Checked(boxes, tracked).events
    ensures CollisionPair(a, b) != CollisionPair(b, a)
  {
    CheckedSpec(boxes, tracked, CollisionPair(a, b));
    CheckedSpec(boxes, tracked, CollisionPair(b, a));
  }

  class PhysicsEngine {
    var currentCollisions: seq<CollisionPair>

    ghost predicate Valid()
      reads this
    {
      Tracking(currentCollisions)
    }

    constructor ()
      ensures Valid() && currentCollisions == []
    {
      currentCollisions := [];
    }

    /** The tracked pairs refer to objects of the list. */
    predicate InRange(boxes: seq<Box>)
      reads this
    {
      forall i :: 0 <= i < |currentCollisions| ==>
        currentCollisions[i].g1 < |boxes| && currentCollisions[i].g2 < |boxes|
    }

    /** checkAndHandleCollisionEntry: the two nested loops over the object list. */
    method CheckAndHandleCollisionEntry(boxes: seq<Box>) returns (events: seq<Event>)
      modifies this
      ensures Bookkeeping(currentCollisions, events) == Entered(boxes, old(currentCollisions))
    {
      events := [];
      ghost var b0 := Bookkeeping(currentCollisions, []);
      for g1 := 0 to |boxes|
        invariant Bookkeeping(currentCollisions, events) == EnterRows(boxes, b0, g1)
      {
        for g2 := 0 to |boxes|
          invariant Bookkeeping(currentCollisions, events) == EnterRow(boxes, EnterRows(boxes, b0, g1), g1, g2)
        {
          var cp := CollisionPair(g1, g2);
          if g1 != g2 && Colliding(boxes[g1], boxes[g2]) && cp !in currentCollisions {
            events := events + [Enter(cp)];
            currentCollisions := currentCollisions + [cp];
          }
        }
      }
    }

    /**
     * checkAndHandleCollisionExit: collect the tracked pairs that no longer
     * collide, firing exit for each, then remove them.
     */
    method CheckAndHandleCollisionExit(boxes: seq<Box>) returns (events: seq<Event>)
      requires Valid() && InRange(boxes)
      modifies this
      ensures currentCollisions == Kept(boxes, old(currentCollisions))
      ensures events == ExitEvents(Dropped(boxes, old(currentCollisions)))
    {
      var snapshot := currentCollisions;
      var noLongerColliding: seq<CollisionPair> := [];
      events := [];
      for i := 0 to |snapshot|
        invariant noLongerColliding == Dropped(boxes, snapshot[..i])
        invariant events == ExitEvents(noLongerColliding)
      {
        var cp := snapshot[i];
        assert snapshot[..i + 1][..i] == snapshot[..i];
        if !Colliding(boxes[cp.g1], boxes[cp.g2]) {
          noLongerColliding := noLongerColliding + [cp];
          events := events + [Exit(cp)];
        }
      }
      assert snapshot[..|snapshot|] == snapshot;
      for i := 0 to |noLongerColliding|
        invariant currentCollisions == RemoveAll(snapshot, noLongerColliding[..i])
      {
        assert noLongerColliding[..i + 1][..i] == noLongerColliding[..i];
        currentCollisions := Remove(currentCollisions, noLongerColliding[i]);
      }
      assert noLongerColliding[..|noLongerColliding|] == noLongerColliding;
      RemoveDroppedKeeps(boxes, snapshot);
    }

    /** checkCollisions: entry, then exit; the callbacks in the order they fire. */
    method CheckCollisions(boxes: seq<Box>) returns (events: seq<Event>)
      requires Valid() && InRange(boxes)
      modifies this
      ensures Valid() && InRange(boxes)
      ensures Bookkeeping(currentCollisions, events) == Checked(boxes, old(currentCollisions))
    {
      ghost var t0 := currentCollisions;
      var entered := CheckAndHandleCollisionEntry(boxes);
      assert Valid() && InRange(boxes) by {
        EnterRowsInv(boxes, Bookkeeping(t0, []), |boxes|);
        forall i | 0 <= i < |currentCollisions|
          ensures currentCollisions[i].g1 != currentCollisions[i].g2
          ensures currentCollisions[i].g1 < |boxes| && currentCollisions[i].g2 < |boxes|
        {
          EnterRowsMember(boxes, Bookkeeping(t0, []), |boxes|, currentCollisions[i]);
        }
      }
      var exited := CheckAndHandleCollisionExit(boxes);
      events := entered + exited;
      CheckedSpec(boxes, t0, CollisionPair(0, 0));
      forall i | 0 <= i < |currentCollisions|
        ensures currentCollisions[i].g1 < |boxes| && currentCollisions[i].g2 < |boxes|
      {
        CheckedSpec(boxes, t0, currentCollisions[i]);
      }
    }
  }
}
