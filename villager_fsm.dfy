// The fruit-gathering villager of the as2 assignment: a finite-state machine
// of four nodes (Idle.cs, Walking.cs, PickingFruit.cs, DroppingFruit.cs)
// driving one villager, who carries at most two fruit from the trees to the
// village. The nodes are wired Idle -> Walking; Walking -> PickingFruit
// (connectedNodes[0]) or DroppingFruit ([1]); PickingFruit -> Walking;
// DroppingFruit -> Walking ([0]) or Idle ([1]).
//
// The four node objects and the villager are flattened into one class: each
// node's own fields become fields of the villager. The trees and the village
// are shared by every villager and live in a World object. Distances from
// the villager to its target and to every tree are parameters, and one call
// of a node's Do, coroutine included, is one atomic step. Animator triggers
// are recorded as emitted events.
module VillagerFsm {
  import opened Wrappers

  /** Something that holds fruit: a tree (by its index in the tree list) or the village. */
  datatype Holder = Tree(index: nat) | Village

  datatype Node = IdleNode | WalkingNode | PickingFruitNode | DroppingFruitNode

  /** The animator triggers "Idle", "Walk", "Pickup" and "Drop". */
  datatype Trigger = IdleTrigger | WalkTrigger | PickupTrigger | DropTrigger

  /** Sum of the fruit on the trees. */
  function Sum(trees: seq<int>): int {
    if trees == [] then 0 else trees[0] + Sum(trees[1..])
  }

  /** Changing one tree's count by d changes the sum by d. */
  lemma {:induction false} SumUpdate(trees: seq<int>, i: nat, v: int)
    requires i < |trees|
    ensures Sum(trees[i := v]) == Sum(trees) - trees[i] + v
    decreases |trees|
  {
    if i > 0 {
      SumUpdate(trees[1..], i - 1, v);
      assert trees[i := v][1..] == trees[1..][i - 1 := v];
    }
  }

  /** FruitExists (Idle and DroppingFruit): some tree's fruit is not zero; none for no trees. */
  function FruitExists(trees: seq<int>): (r: bool)
    ensures r <==> exists i :: 0 <= i < |trees| && trees[i] != 0
  {
    if trees == [] then false
    else
      var rest := FruitExists(trees[1..]);
      assert forall i :: 0 < i < |trees| ==> trees[i] == trees[1..][i - 1];
      trees[0] != 0 || rest
  }

  /**
   * The loop of ChooseTree over the first n trees: the tree chosen so far and
   * the distance recorded for it (-1 while none is chosen).
   */
  function Scan(distances: seq<real>, trees: seq<int>, n: nat): (Option<nat>, real)
    requires |distances| == |trees| && n <= |trees|
  {
    if n == 0 then (None, -1.0)
    else
      var (chosen, closest) := Scan(distances, trees, n - 1);
      if (distances[n - 1] < closest || closest == -1.0) && trees[n - 1] > 0 then (Some(n - 1), distances[n - 1])
      else (chosen, closest)
  }

  /** The tree ChooseTree returns. */
  function NearestTree(distances: seq<real>, trees: seq<int>): Option<nat>
    requires |distances| == |trees|
  {
    Scan(distances, trees, |trees|).0
  }

  /** Distances are lengths. */
  predicate Distances(distances: seq<real>, trees: seq<int>) {
    |distances| == |trees| && forall i :: 0 <= i < |distances| ==> distances[i] >= 0.0
  }

  /**
   * What the loop keeps: nothing is chosen iff no tree so far has fruit;
   * otherwise the chosen tree has fruit, is at least as near as every tree so
   * far with fruit, and is nearer than every earlier one with fruit.
   */
  lemma {:induction false} ScanSpec(distances: seq<real>, trees: seq<int>, n: nat)
    requires Distances(distances, trees) && n <= |trees|
    ensures var (chosen, closest) := Scan(distances, trees, n);
      && (chosen.None? <==> forall j :: 0 <= j < n ==> trees[j] <= 0)
      && (chosen.None? ==> closest == -1.0)
      && (chosen.Some? ==>
            && chosen.value < n && trees[chosen.value] > 0 && closest == distances[chosen.value]
            && (forall j :: 0 <= j < n && trees[j] > 0 ==> distances[chosen.value] <= distances[j])
            && (forall j :: 0 <= j < chosen.value && trees[j] > 0 ==> distances[chosen.value] < distances[j]))
    decreases n
  {
    if n > 0 {
      ScanSpec(distances, trees, n - 1);
    }
  }

  /** Under the invariant that no count is negative, a tree is chosen iff FruitExists. */
  lemma ChosenIffFruitExists(distances: seq<real>, trees: seq<int>)
    requires Distances(distances, trees)
    requires forall i :: 0 <= i < |trees| ==> trees[i] >= 0
    ensures NearestTree(distances, trees).Some? <==> FruitExists(trees)
  {
    ScanSpec(distances, trees, |trees|);
  }

  /** One villager with its nodes' fields, and the fruit of the world it works in. */
  datatype State = State(
    fruit: int, atTree: bool, atVillage: bool, pickingDistance: real,
    node: Node, target: Option<Holder>,
    walkingTarget: Option<Holder>,                 // Walking.target
    pickingFrom: Option<Holder>,                   // PickingFruit.f
    pickingStarted: bool,                          // PickingFruit.hasStarted
    droppingStarted: bool,                         // DroppingFruit.hasStarted
    triggers: seq<Trigger>,
    trees: seq<int>, village: int)

  /** The fruit count of a holder. */
  function FruitOf(s: State, h: Holder): int
    requires h.Tree? ==> h.index < |s.trees|
  {
    if h.Tree? then s.trees[h.index] else s.village
  }

  /** A holder's count changed by d. */
  function AddFruit(s: State, h: Holder, d: int): (r: State)
    requires h.Tree? ==> h.index < |s.trees|
    ensures |r.trees| == |s.trees|
  {
    if h.Tree? then s.(trees := s.trees[h.index := s.trees[h.index] + d]) else s.(village := s.village + d)
  }

  /** Idle.OnEnter. */
  function IdleEntered(s: State): State {
    s.(node := IdleNode, triggers := s.triggers + [IdleTrigger])
  }

  /** Walking.OnEnter: to the village when the villager is full or no tree has fruit, else to the nearest tree. */
  function WalkingEntered(s: State, distances: seq<real>): State
    requires |distances| == |s.trees|
  {
    var chosen := NearestTree(distances, s.trees);
    var h := if s.fruit == 2 || chosen.None? then Village else Tree(chosen.value);
    s.(node := WalkingNode, target := Some(h), walkingTarget := Some(h), triggers := s.triggers + [WalkTrigger])
  }

  /** PickingFruit.OnEnter: picks from the villager's target. */
  function PickingEntered(s: State): State {
    s.(node := PickingFruitNode, pickingFrom := s.target, triggers := s.triggers + [PickupTrigger])
  }

  /** DroppingFruit.OnEnter: the target becomes the village. */
  function DroppingEntered(s: State): State {
    s.(node := DroppingFruitNode, target := Some(Village), triggers := s.triggers + [DropTrigger])
  }

  /** Idle.Do: off to walk when there is room and fruit somewhere. */
  function IdleStep(s: State, distances: seq<real>): (r: State)
    requires |distances| == |s.trees|
    ensures r.fruit == s.fruit && r.trees == s.trees && r.village == s.village
    ensures s.fruit < 2 && FruitExists(s.trees) ==> r.node == WalkingNode && r.target.Some?
    ensures !(s.fruit < 2 && FruitExists(s.trees)) ==> r == s
  {
    if s.fruit < 2 && FruitExists(s.trees) then WalkingEntered(s, distances) else s
  }

  /**
   * Walking.Do (DoWalking): arriving at a tree (within pickingDistance) moves
   * to PickingFruit, arriving at the village (within pickingDistance + 10) to
   * DroppingFruit; otherwise the villager walks on, which the model does not
   * track.
   */
  function WalkingStep(s: State, distance: real): State
    requires s.walkingTarget.Some?
  {
    match s.walkingTarget.value
    case Tree(_) =>
      if distance <= s.pickingDistance && !s.atTree then PickingEntered(s.(atTree := true)) else s
    case Village =>
      if distance <= s.pickingDistance + 10.0 && !s.atVillage then DroppingEntered(s.(atVillage := true)) else s
  }

  /** PickupFruit: take one fruit while there is room and fruit, else leave for Walking. */
  function PickedUp(s: State, distances: seq<real>): State
    requires s.pickingFrom.Some? && (s.pickingFrom.value.Tree? ==> s.pickingFrom.value.index < |s.trees|)
    requires |distances| == |s.trees|
  {
    var h := s.pickingFrom.value;
    var s1 := s.(pickingStarted := true);
    var s2 := if s.fruit <= 1 && FruitOf(s, h) > 0 then AddFruit(s1, h, -1).(fruit := s.fruit + 1)
              else WalkingEntered(s1.(atTree := false), distances);
    s2.(pickingStarted := false)
  }

  /** PickingFruit.Do. */
  function PickingStep(s: State, distances: seq<real>): State
    requires s.pickingFrom.Some? && (s.pickingFrom.value.Tree? ==> s.pickingFrom.value.index < |s.trees|)
    requires |distances| == |s.trees|
  {
    if !s.pickingStarted then PickedUp(s, distances) else s
  }

  /**
   * DropFruit: hand one fruit to the village; with empty hands go back to
   * Walking when some tree has fruit, else to Idle.
   */
  function DroppedOff(s: State, distances: seq<real>): State
    requires |distances| == |s.trees|
  {
    var s1 := s.(droppingStarted := true);
    var s2 := if s.fruit > 0 then s1.(village := s.village + 1, fruit := s.fruit - 1)
              else if s.fruit == 0 && FruitExists(s.trees) then WalkingEntered(s1, distances).(atVillage := false)
              else IdleEntered(s1).(atVillage := false);
    s2.(droppingStarted := false)
  }

  /** DroppingFruit.Do. */
  function DroppingStep(s: State, distances: seq<real>): State
    requires |distances| == |s.trees|
  {
    if !s.droppingStarted then DroppedOff(s, distances) else s
  }

  /** The holders the villager refers to are trees of the world or the village. */
  predicate HolderOk(h: Option<Holder>, trees: seq<int>) {
    h.Some? && h.value.Tree? ==> h.value.index < |trees|
  }

  /** What the wiring of the nodes guarantees about the villager's fields. */
  predicate Valid(s: State) {
    && HolderOk(s.target, s.trees) && HolderOk(s.walkingTarget, s.trees) && HolderOk(s.pickingFrom, s.trees)
    && (s.node == WalkingNode ==> s.walkingTarget.Some? && s.target == s.walkingTarget)
    && (s.node == PickingFruitNode ==> s.pickingFrom.Some?)
  }

  /** The scheduler's call of the current node's Do. */
  function Stepped(s: State, distance: real, distances: seq<real>): State
    requires Valid(s) && |distances| == |s.trees|
  {
    match s.node
    case IdleNode => IdleStep(s, distances)
    case WalkingNode => WalkingStep(s, distance)
    case PickingFruitNode => PickingStep(s, distances)
    case DroppingFruitNode => DroppingStep(s, distances)
  }

  /** The fruit in the world and in the villager's hands. */
  function Total(s: State): int {
    Sum(s.trees) + s.village + s.fruit
  }

  /** No count is negative and the villager carries at most two. */
  predicate Capacity(s: State) {
    0 <= s.fruit <= 2 && s.village >= 0 && forall i :: 0 <= i < |s.trees| ==> s.trees[i] >= 0
  }

  /** The wiring: the nodes each node can hand over to. */
  predicate Wired(a: Node, b: Node) {
    a == b
    || (a == IdleNode && b == WalkingNode)
    || (a == WalkingNode && (b == PickingFruitNode || b == DroppingFruitNode))
    || (a == PickingFruitNode && b == WalkingNode)
    || (a == DroppingFruitNode && (b == WalkingNode || b == IdleNode))
  }

  /**
   * What every step guarantees: the invariant is kept, the node changes only
   * along the wiring, fruit moves without being created or lost, no count
   * goes negative and the villager never carries more than two, and no
   * coroutine is left marked as running.
   */
  predicate StepOk(s: State, r: State) {
    && Valid(r) && |r.trees| == |s.trees| && Wired(s.node, r.node)
    && Total(r) == Total(s)
    && (Capacity(s) ==> Capacity(r))
    && (!s.pickingStarted ==> !r.pickingStarted) && (!s.droppingStarted ==> !r.droppingStarted)
  }

  /** Walking.OnEnter aims at the village or at a tree of the world, and touches no count. */
  lemma WalkingEnteredOk(s: State, distances: seq<real>)
    requires Distances(distances, s.trees)
    ensures var r := WalkingEntered(s, distances);
      && HolderOk(r.target, r.trees) && r.target == r.walkingTarget && r.node == WalkingNode
      && r.trees == s.trees && r.village == s.village && r.fruit == s.fruit
  {
    ScanSpec(distances, s.trees, |s.trees|);
  }

  lemma IdleStepOk(s: State, distances: seq<real>)
    requires Valid(s) && s.node == IdleNode && Distances(distances, s.trees)
    ensures StepOk(s, IdleStep(s, distances))
  {
    WalkingEnteredOk(s, distances);
  }

  lemma WalkingStepOk(s: State, distance: real)
    requires Valid(s) && s.node == WalkingNode
    ensures StepOk(s, WalkingStep(s, distance))
  {
  }

  lemma PickingStepOk(s: State, distances: seq<real>)
    requires Valid(s) && s.node == PickingFruitNode && Distances(distances, s.trees)
    ensures StepOk(s, PickingStep(s, distances))
  {
    if !s.pickingStarted {
      var h := s.pickingFrom.value;
      if s.fruit <= 1 && FruitOf(s, h) > 0 {
        if h.Tree? {
          SumUpdate(s.trees, h.index, s.trees[h.index] - 1);
        }
      } else {
        WalkingEnteredOk(s.(pickingStarted := true, atTree := false), distances);
      }
    }
  }

  lemma DroppingStepOk(s: State, distances: seq<real>)
    requires Valid(s) && s.node == DroppingFruitNode && Distances(distances, s.trees)
    ensures StepOk(s, DroppingStep(s, distances))
  {
    if !s.droppingStarted && s.fruit <= 0 {
      WalkingEnteredOk(s.(droppingStarted := true), distances);
    }
  }

  /** Every step of the machine, whatever its node, is a good step. */
  lemma StepPreserves(s: State, distance: real, distances: seq<real>)
    requires Valid(s) && Distances(distances, s.trees)
    ensures StepOk(s, Stepped(s, distance, distances))
  {
    match s.node
    case IdleNode => IdleStepOk(s, distances);
    case WalkingNode => WalkingStepOk(s, distance);
    case PickingFruitNode => PickingStepOk(s, distances);
    case DroppingFruitNode => DroppingStepOk(s, distances);
  }

  /** PickupFruit with room and fruit on the tree moves exactly one fruit into the villager's hands. */
  lemma PickingMovesOne(s: State, distances: seq<real>, i: nat)
    requires s.pickingFrom == Some(Tree(i)) && i < |s.trees| && |distances| == |s.trees|
    requires !s.pickingStarted && s.fruit <= 1 && s.trees[i] > 0
    ensures var r := PickingStep(s, distances);
      r.trees == s.trees[i := s.trees[i] - 1] && r.fruit == s.fruit + 1 && r.village == s.village
      && r.node == s.node && !r.pickingStarted
  {
  }

  /**
   * PickupFruit with no room, or with the tree picked bare, moves no fruit:
   * the villager leaves the tree and walks on, to the village when full or
   * when no tree has fruit.
   */
  lemma PickingLeaves(s: State, distances: seq<real>, i: nat)
    requires s.pickingFrom == Some(Tree(i)) && i < |s.trees| && Distances(distances, s.trees)
    requires !s.pickingStarted && (s.fruit > 1 || s.trees[i] <= 0)
    requires forall k :: 0 <= k < |s.trees| ==> s.trees[k] >= 0
    ensures var r := PickingStep(s, distances);
      && r.trees == s.trees && r.fruit == s.fruit && r.village == s.village
      && r.node == WalkingNode && !r.atTree && !r.pickingStarted
      && (s.fruit == 2 || !FruitExists(s.trees) ==> r.target == Some(Village))
  {
    WalkingEnteredOk(s.(pickingStarted := true, atTree := false), distances);
    WalkingTarget(s.(pickingStarted := true, atTree := false), distances);
  }

  /**
   * DropFruit: a villager with fruit hands one to the village; one with none
   * leaves for Walking when some tree has fruit and for Idle otherwise, and is
   * no longer at the village.
   */
  lemma DroppingCases(s: State, distances: seq<real>)
    requires !s.droppingStarted && |distances| == |s.trees| && s.fruit >= 0
    ensures var r := DroppingStep(s, distances);
      && (s.fruit > 0 ==> r.village == s.village + 1 && r.fruit == s.fruit - 1 && r.node == s.node)
      && (s.fruit == 0 && FruitExists(s.trees) ==> r.node == WalkingNode && !r.atVillage && r.fruit == 0)
      && (s.fruit == 0 && !FruitExists(s.trees) ==> r.node == IdleNode && !r.atVillage && r.fruit == 0)
      && !r.droppingStarted && r.trees == s.trees
  {
  }

  /**
   * Walking.OnEnter aims at the village when the villager is full or no tree
   * has fruit, and otherwise at a tree with fruit that no other tree with
   * fruit is nearer than.
   */
  lemma WalkingTarget(s: State, distances: seq<real>)
    requires Distances(distances, s.trees)
    requires forall i :: 0 <= i < |s.trees| ==> s.trees[i] >= 0
    ensures var r := WalkingEntered(s, distances);
      && r.node == WalkingNode && r.target == r.walkingTarget
      && (r.target == Some(Village) <==> s.fruit == 2 || !FruitExists(s.trees))
      && (r.target.value.Tree? ==>
            var k := r.target.value.index;
            k < |s.trees| && s.trees[k] > 0
            && forall j :: 0 <= j < |s.trees| && s.trees[j] > 0 ==> distances[k] <= distances[j])
  {
    ScanSpec(distances, s.trees, |s.trees|);
  }

  /** The fruit-holding objects every villager shares. */
  class World {
    var trees: seq<int>
    var village: int

    constructor (trees0: seq<int>, village0: int)
      ensures trees == trees0 && village == village0
    {
      trees, village := trees0, village0;
    }
  }

  class Villager {
    var fruit: int
    var atTree: bool
    var atVillage: bool
    var pickingDistance: real
    var currentNode: Node
    var target: Option<Holder>
    var walkingTarget: Option<Holder>
    var pickingFrom: Option<Holder>
    var pickingStarted: bool
    var droppingStarted: bool
    var triggers: seq<Trigger>
    const world: World

    function Snap(): State
      reads this, world
    {
      State(fruit, atTree, atVillage, pickingDistance, currentNode, target, walkingTarget, pickingFrom,
            pickingStarted, droppingStarted, triggers, world.trees, world.village)
    }

    /** A villager as the scene creates it: empty-handed, with the default picking distance. */
    constructor (w: World)
      ensures world == w && fruit == 0 && !atTree && !atVillage && pickingDistance == 5.0
      ensures target == None && walkingTarget == None && pickingFrom == None
      ensures !pickingStarted && !droppingStarted && triggers == []
    {
      world := w;
      fruit := 0;
      atTree, atVillage := false, false;
      pickingDistance := 5.0;
      currentNode := IdleNode;
      target, walkingTarget, pickingFrom := None, None, None;
      pickingStarted, droppingStarted := false, false;
      triggers := [];
    }

    /** VillagerFSM.Start: enter the start node, Idle or Walking. */
    method Start(startInIdle: bool, distances: seq<real>)
      requires Distances(distances, world.trees)
      modifies this
      ensures startInIdle ==> Snap() == IdleEntered(old(Snap()))
      ensures !startInIdle ==> Snap() == WalkingEntered(old(Snap()), distances)
    {
      if startInIdle {
        currentNode := IdleNode;
        IdleOnEnter();
      } else {
        currentNode := WalkingNode;
        WalkingOnEnter(distances);
      }
    }

    /**
     * Walking.ChooseTree: the nearest tree with fruit, the earliest in the
     * list among equally near ones; none when no tree has fruit.
     */
    method ChooseTree(distances: seq<real>) returns (chosen: Option<nat>)
      requires Distances(distances, world.trees)
      ensures chosen == NearestTree(distances, world.trees)
      ensures chosen.None? <==> forall j :: 0 <= j < |world.trees| ==> world.trees[j] <= 0
      ensures chosen.Some? ==>
        && chosen.value < |world.trees| && world.trees[chosen.value] > 0
        && (forall j :: 0 <= j < |world.trees| && world.trees[j] > 0 ==> distances[chosen.value] <= distances[j])
        && (forall j :: 0 <= j < chosen.value && world.trees[j] > 0 ==> distances[chosen.value] < distances[j])
    {
      var trees := world.trees;
      var tempTarget: Option<nat> := None;
      var closestTree := -1.0;
      for i := 0 to |trees|
        invariant (tempTarget, closestTree) == Scan(distances, trees, i)
      {
        var treeDistance := distances[i];
        if (treeDistance < closestTree || closestTree == -1.0) && trees[i] > 0 {
          tempTarget := Some(i);
          closestTree := treeDistance;
        }
      }
      chosen := tempTarget;
      ScanSpec(distances, trees, |trees|);
    }

    method IdleOnEnter()
      modifies this
      ensures Snap() == IdleEntered(old(Snap()))
    {
      currentNode := IdleNode;
      triggers := triggers + [IdleTrigger];
    }

    method IdleDo(distances: seq<real>)
      requires Distances(distances, world.trees)
      modifies this
      ensures Snap() == IdleStep(old(Snap()), distances)
    {
      if fruit < 2 && FruitExists(world.trees) {
        WalkingOnEnter(distances);
      }
    }

    method WalkingOnEnter(distances: seq<real>)
      requires Distances(distances, world.trees)
      modifies this
      ensures Snap() == WalkingEntered(old(Snap()), distances)
    {
      currentNode := WalkingNode;
      var chosen := ChooseTree(distances);
      if fruit == 2 || chosen.None? {
        target := Some(Village);
        walkingTarget := target;
      } else {
        target := Some(Tree(chosen.value));
        walkingTarget := target;
      }
      triggers := triggers + [WalkTrigger];
    }

    /** DoWalking, with the distance from the villager to the walking target. */
    method WalkingDo(distance: real)
      requires walkingTarget.Some?
      modifies this
      ensures Snap() == WalkingStep(old(Snap()), distance)
    {
      if walkingTarget.value.Tree? {
        if distance <= pickingDistance && !atTree {
          atTree := true;
          PickingOnEnter();
        }
      } else {
        if distance <= pickingDistance + 10.0 && !atVillage {
          atVillage := true;
          DroppingOnEnter();
        }
      }
    }

    method PickingOnEnter()
      modifies this
      ensures Snap() == PickingEntered(old(Snap()))
    {
      currentNode := PickingFruitNode;
      pickingFrom := target;
      triggers := triggers + [PickupTrigger];
    }

    method PickingOnExit()
      modifies this
      ensures Snap() == old(Snap()).(atTree := false)
    {
      atTree := false;
    }

    method PickupFruit(distances: seq<real>)
      requires pickingFrom.Some? && HolderOk(pickingFrom, world.trees) && Distances(distances, world.trees)
      modifies this, world
      ensures Snap() == PickedUp(old(Snap()), distances)
    {
      pickingStarted := true;
      var h := pickingFrom.value;
      var available := if h.Tree? then world.trees[h.index] else world.village;
      if fruit <= 1 && available > 0 {
        if h.Tree? {
          world.trees := world.trees[h.index := world.trees[h.index] - 1];
        } else {
          world.village := world.village - 1;
        }
        fruit := fruit + 1;
      } else {
        PickingOnExit();
        WalkingOnEnter(distances);
      }
      pickingStarted := false;
    }

    method PickingDo(distances: seq<real>)
      requires pickingFrom.Some? && HolderOk(pickingFrom, world.trees) && Distances(distances, world.trees)
      modifies this, world
      ensures Snap() == PickingStep(old(Snap()), distances)
    {
      if !pickingStarted {
        PickupFruit(distances);
      }
    }

    method DroppingOnEnter()
      modifies this
      ensures Snap() == DroppingEntered(old(Snap()))
    {
      currentNode := DroppingFruitNode;
      target := Some(Village);
      triggers := triggers + [DropTrigger];
    }

    method DroppingOnExit()
      modifies this
      ensures Snap() == old(Snap()).(atVillage := false)
    {
      atVillage := false;
    }

    method DropFruit(distances: seq<real>)
      requires Distances(distances, world.trees)
      modifies this, world
      ensures Snap() == DroppedOff(old(Snap()), distances)
    {
      droppingStarted := true;
      if fruit > 0 {
        world.village := world.village + 1;
        fruit := fruit - 1;
      } else if fruit == 0 && FruitExists(world.trees) {
        WalkingOnEnter(distances);
        DroppingOnExit();
      } else {
        IdleOnEnter();
        DroppingOnExit();
      }
      droppingStarted := false;
    }

    method DroppingDo(distances: seq<real>)
      requires Distances(distances, world.trees)
      modifies this, world
      ensures Snap() == DroppingStep(old(Snap()), distances)
    {
      if !droppingStarted {
        DropFruit(distances);
      }
    }

    /**
     * The scheduler's currentNode.Do(): the step of the current node, given
     * the distance to the walking target and to every tree.
     */
    method Do(distance: real, distances: seq<real>)
      requires Valid(Snap()) && Distances(distances, world.trees)
      modifies this, world
      ensures Snap() == Stepped(old(Snap()), distance, distances)
      ensures Valid(Snap()) && Wired(old(currentNode), currentNode)
      ensures Total(Snap()) == Total(old(Snap()))
      ensures Capacity(old(Snap())) ==> Capacity(Snap())
    {
      StepPreserves(Snap(), distance, distances);
      match currentNode
      case IdleNode => IdleDo(distances);
      case WalkingNode => WalkingDo(distance);
      case PickingFruitNode => PickingDo(distances);
      case DroppingFruitNode => DroppingDo(distances);
    }
  }
}
