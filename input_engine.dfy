// The keyboard side of the as1 engine (uEngine/InputEngine.java): a listener
// buffers key events as they arrive, and at the start of every frame the
// engine folds the buffered batch into a per-key table that the game queries.
// The key table is a dictionary from key code to the last recorded change;
// it is kept here as its entries, one per key, in the order the keys first
// appeared. Where a key sits in that order never matters to a query.
module InputEngine {
  import opened Wrappers

  /** KeyChange.KEY_UP / KEY_DOWN. */
  datatype KeyState = KeyUp | KeyDown

  /** The recorded change of one key, and whether it happened in the current frame. */
  datatype KeyChange = KeyChange(state: KeyState, currentFrame: bool)

  datatype Entry = Entry(key: int, change: KeyChange)

  /** The id of an AWT key event. */
  datatype EventId = KeyPressedId | KeyReleasedId | KeyTypedId

  datatype KeyEvent = KeyEvent(id: EventId, keyCode: int)

  /** Hashtable.get: the entry for `key`, if there is one. */
  function Lookup(t: seq<Entry>, key: int): (r: Option<KeyChange>)
    ensures r.Some? <==> exists i :: 0 <= i < |t| && t[i].key == key
  {
    if t == [] then None
    else if t[0].key == key then Some(t[0].change)
    else
      var r := Lookup(t[1..], key);
      assert forall i :: 0 < i < |t| ==> t[i] == t[1..][i - 1];
      r
  }

  /** Hashtable.put: replaces the entry for `key` where it stands, or adds one at the end. */
  function Put(t: seq<Entry>, key: int, kc: KeyChange): (r: seq<Entry>)
    ensures |r| == |t| || |r| == |t| + 1
  {
    if t == [] then [Entry(key, kc)]
    else if t[0].key == key then [Entry(key, kc)] + t[1..]
    else [t[0]] + Put(t[1..], key, kc)
  }

  /** No key has two entries. */
  predicate UniqueKeys(t: seq<Entry>) {
    forall i, j :: 0 <= i < j < |t| ==> t[i].key != t[j].key
  }

  /** Put stores the new change for its key and leaves every other key's entry alone. */
  lemma {:induction false} PutLookup(t: seq<Entry>, key: int, kc: KeyChange, k: int)
    ensures Lookup(Put(t, key, kc), k) == if k == key then Some(kc) else Lookup(t, k)
    decreases |t|
  {
    if t != [] && t[0].key != key {
      PutLookup(t[1..], key, kc, k);
      assert Put(t, key, kc)[1..] == Put(t[1..], key, kc);
    }
  }

  /** The table of the first loop of startFrame: every entry's flag cleared, its state kept. */
  function Cleared(t: seq<Entry>): (r: seq<Entry>)
    ensures |r| == |t|
  {
    seq(|t|, i requires 0 <= i < |t| => Entry(t[i].key, KeyChange(t[i].change.state, false)))
  }

  /** Clearing keeps every key and its state and makes no entry refer to the current frame. */
  lemma {:induction false} ClearedLookup(t: seq<Entry>, k: int)
    ensures Lookup(Cleared(t), k) ==
      if Lookup(t, k).Some? then Some(KeyChange(Lookup(t, k).value.state, false)) else None
    decreases |t|
  {
    if t != [] {
      assert Cleared(t)[1..] == Cleared(t[1..]);
      ClearedLookup(t[1..], k);
    }
  }

  /** The key is recorded as held down. */
  predicate IsDown(c: Option<KeyChange>) {
    c.Some? && c.value.state == KeyDown
  }

  /**
   * One buffered event of the second loop: a press of a key already held
   * down is an auto-repeat and is thrown away; any other event records the
   * key as down (a press) or up (anything else) in the current frame.
   */
  function ApplyEvent(t: seq<Entry>, ev: KeyEvent): seq<Entry> {
    if ev.id == KeyPressedId && IsDown(Lookup(t, ev.keyCode)) then t
    else Put(t, ev.keyCode, KeyChange(if ev.id == KeyPressedId then KeyDown else KeyUp, true))
  }

  /** The batch applied in arrival order. */
  function ApplyEvents(t: seq<Entry>, evs: seq<KeyEvent>): seq<Entry>
    decreases |evs|
  {
    if evs == [] then t
    else ApplyEvent(ApplyEvents(t, evs[..|evs| - 1]), evs[|evs| - 1])
  }

  /** startFrame: clear the flags, then apply the batch the listener buffered. */
  function FrameStarted(t: seq<Entry>, evs: seq<KeyEvent>): seq<Entry> {
    ApplyEvents(Cleared(t), evs)
  }

  /** getKey: the key is held down; a key with no entry is not. */
  function GetKey(t: seq<Entry>, key: int): (r: bool)
    ensures Lookup(t, key) == None ==> !r
  {
    IsDown(Lookup(t, key))
  }

  /** getKeyDown: the key went down in the current frame. */
  function GetKeyDown(t: seq<Entry>, key: int): (r: bool)
    ensures Lookup(t, key) == None ==> !r
  {
    match Lookup(t, key)
    case None => false
    case Some(kc) => kc.state == KeyDown && kc.currentFrame
  }

  /** getKeyUp: the key went up in the current frame. */
  function GetKeyUp(t: seq<Entry>, key: int): (r: bool)
    ensures Lookup(t, key) == None ==> !r
  {
    match Lookup(t, key)
    case None => false
    case Some(kc) => kc.state == KeyUp && kc.currentFrame
  }

  /** A key never reports both going down and going up, and going down means it is held. */
  lemma QueriesConsistent(t: seq<Entry>, key: int)
    ensures !(GetKeyDown(t, key) && GetKeyUp(t, key))
    ensures GetKeyDown(t, key) ==> GetKey(t, key)
    ensures GetKeyUp(t, key) ==> !GetKey(t, key)
  {
  }

  /** Put keeps the table a dictionary. */
  lemma {:induction false} PutKeepsKeysUnique(t: seq<Entry>, key: int, kc: KeyChange)
    requires UniqueKeys(t)
    ensures UniqueKeys(Put(t, key, kc))
    decreases |t|
  {
    if t != [] && t[0].key != key {
      PutKeepsKeysUnique(t[1..], key, kc);
      var r := Put(t, key, kc);
      assert r[1..] == Put(t[1..], key, kc);
      forall j | 0 < j < |r|
        ensures r[0].key != r[j].key
      {
        PutLookup(t[1..], key, kc, t[0].key);
        forall i | 0 <= i < |t[1..]|
          ensures t[1..][i].key != t[0].key
        {
          assert t[1..][i] == t[i + 1];
        }
        assert r[1..][j - 1] == r[j];
      }
    }
  }

  /** A batch keeps the table a dictionary. */
  lemma {:induction false} ApplyEventsKeepsKeysUnique(t: seq<Entry>, evs: seq<KeyEvent>)
    requires UniqueKeys(t)
    ensures UniqueKeys(ApplyEvents(t, evs))
    decreases |evs|
  {
    if evs != [] {
      var ev := evs[|evs| - 1];
      var before := ApplyEvents(t, evs[..|evs| - 1]);
      ApplyEventsKeepsKeysUnique(t, evs[..|evs| - 1]);
      if !(ev.id == KeyPressedId && IsDown(Lookup(before, ev.keyCode))) {
        PutKeepsKeysUnique(before, ev.keyCode, KeyChange(if ev.id == KeyPressedId then KeyDown else KeyUp, true));
      }
    }
  }

  /** What one event does to the entry of key k. */
  lemma ApplyEventLookup(t: seq<Entry>, ev: KeyEvent, k: int)
    ensures Lookup(ApplyEvent(t, ev), k) ==
      if k != ev.keyCode || (ev.id == KeyPressedId && IsDown(Lookup(t, k))) then Lookup(t, k)
      else Some(KeyChange(if ev.id == KeyPressedId then KeyDown else KeyUp, true))
  {
    if !(ev.id == KeyPressedId && IsDown(Lookup(t, ev.keyCode))) {
      PutLookup(t, ev.keyCode, KeyChange(if ev.id == KeyPressedId then KeyDown else KeyUp, true), k);
    }
  }

  /**
   * A key whose only events in the batch are repeats of a press it is
   * already held by keeps its entry unchanged; so does a key with no events.
   */
  lemma {:induction false} ApplyEventsUntouched(t: seq<Entry>, evs: seq<KeyEvent>, k: int)
    requires forall i :: 0 <= i < |evs| && evs[i].keyCode == k ==> evs[i].id == KeyPressedId && IsDown(Lookup(t, k))
    ensures Lookup(ApplyEvents(t, evs), k) == Lookup(t, k)
    decreases |evs|
  {
    if evs != [] {
      var init := evs[..|evs| - 1];
      assert forall i :: 0 <= i < |init| ==> init[i] == evs[i];
      ApplyEventsUntouched(t, init, k);
      ApplyEventLookup(ApplyEvents(t, init), evs[|evs| - 1], k);
    }
  }

  /** Applying two batches one after the other is applying their concatenation. */
  lemma {:induction false} ApplyEventsConcat(t: seq<Entry>, a: seq<KeyEvent>, b: seq<KeyEvent>)
    ensures ApplyEvents(t, a + b) == ApplyEvents(ApplyEvents(t, a), b)
    decreases |b|
  {
    if b == [] {
      assert a + b == a;
    } else {
      assert (a + b)[..|a + b| - 1] == a + b[..|b| - 1];
      ApplyEventsConcat(t, a, b[..|b| - 1]);
    }
  }

  /**
   * A key with no event in the batch reports neither going down nor going
   * up in the new frame, and is still held iff it was held before.
   */
  lemma QuietKeyReportsNoChange(t: seq<Entry>, evs: seq<KeyEvent>, k: int)
    requires forall i :: 0 <= i < |evs| ==> evs[i].keyCode != k
    ensures !GetKeyDown(FrameStarted(t, evs), k) && !GetKeyUp(FrameStarted(t, evs), k)
    ensures GetKey(FrameStarted(t, evs), k) == GetKey(t, k)
  {
    ApplyEventsUntouched(Cleared(t), evs, k);
    ClearedLookup(t, k);
  }

  /**
   * Auto-repeat filtering: a key held down through the previous frame whose
   * only new events are further presses stays held, and does not report
   * going down again.
   */
  lemma HeldKeyReportsDownOnce(t: seq<Entry>, evs: seq<KeyEvent>, k: int)
    requires GetKey(t, k)
    requires forall i :: 0 <= i < |evs| && evs[i].keyCode == k ==> evs[i].id == KeyPressedId
    ensures GetKey(FrameStarted(t, evs), k) && !GetKeyDown(FrameStarted(t, evs), k)
  {
    ClearedLookup(t, k);
    ApplyEventsUntouched(Cleared(t), evs, k);
  }

  /**
   * Later events override earlier ones: the last event of the batch for a
   * key decides whether it is held, and a release as last event reports
   * going up in the new frame.
   */
  lemma LastEventDecides(t: seq<Entry>, evs: seq<KeyEvent>, i: nat)
    requires i < |evs|
    requires forall j :: i < j < |evs| ==> evs[j].keyCode != evs[i].keyCode
    ensures GetKey(FrameStarted(t, evs), evs[i].keyCode) <==> evs[i].id == KeyPressedId
    ensures evs[i].id != KeyPressedId ==> GetKeyUp(FrameStarted(t, evs), evs[i].keyCode)
  {
    var k := evs[i].keyCode;
    var c := Cleared(t);
    var front, back := evs[..i + 1], evs[i + 1..];
    assert evs == front + back;
    ApplyEventsConcat(c, front, back);
    assert front[..|front| - 1] == evs[..i];
    ApplyEventLookup(ApplyEvents(c, evs[..i]), evs[i], k);
    assert forall j :: 0 <= j < |back| ==> back[j] == evs[i + 1 + j];
    ApplyEventsUntouched(ApplyEvents(c, front), back, k);
  }

  /** After a batch, a key's entry is the one it had, or one recorded in the current frame. */
  lemma {:induction false} TouchedIsCurrent(t: seq<Entry>, evs: seq<KeyEvent>, k: int)
    ensures var r := Lookup(ApplyEvents(t, evs), k);
      r == Lookup(t, k) || (r.Some? && r.value.currentFrame)
    decreases |evs|
  {
    if evs != [] {
      TouchedIsCurrent(t, evs[..|evs| - 1], k);
      ApplyEventLookup(ApplyEvents(t, evs[..|evs| - 1]), evs[|evs| - 1], k);
    }
  }

  /**
   * A key not held at the start of the frame whose last event in the batch
   * is a press reports going down in the new frame, and is held.
   */
  lemma PressedKeyReportsDown(t: seq<Entry>, evs: seq<KeyEvent>, i: nat)
    requires i < |evs| && evs[i].id == KeyPressedId
    requires forall j :: i < j < |evs| ==> evs[j].keyCode != evs[i].keyCode
    requires !GetKey(t, evs[i].keyCode)
    ensures GetKeyDown(FrameStarted(t, evs), evs[i].keyCode)
    ensures GetKey(FrameStarted(t, evs), evs[i].keyCode)
  {
    var k := evs[i].keyCode;
    var c := Cleared(t);
    var front, back := evs[..i + 1], evs[i + 1..];
    assert evs == front + back;
    ApplyEventsConcat(c, front, back);
    assert front[..|front| - 1] == evs[..i];
    ClearedLookup(t, k);
    TouchedIsCurrent(c, evs[..i], k);
    ApplyEventLookup(ApplyEvents(c, evs[..i]), evs[i], k);
    assert forall j :: 0 <= j < |back| ==> back[j] == evs[i + 1 + j];
    ApplyEventsUntouched(ApplyEvents(c, front), back, k);
  }

  /** A key once recorded keeps an entry: startFrame never removes one. */
  lemma {:induction false} EntriesNeverRemoved(t: seq<Entry>, evs: seq<KeyEvent>, k: int)
    requires Lookup(t, k).Some?
    ensures Lookup(ApplyEvents(t, evs), k).Some?
    decreases |evs|
  {
    if evs != [] {
      EntriesNeverRemoved(t, evs[..|evs| - 1], k);
      ApplyEventLookup(ApplyEvents(t, evs[..|evs| - 1]), evs[|evs| - 1], k);
    }
  }

  /**
   * KeyEventProcessor: the key listener. Presses and releases are buffered
   * in arrival order; typed events are not.
   */
  class KeyEventProcessor {
    var events: seq<KeyEvent>

    constructor ()
      ensures events == []
    {
      events := [];
    }

    method KeyPressed(e: KeyEvent)
      modifies this
      ensures events == old(events) + [e]
    {
      events := events + [e];
    }

    method KeyReleased(e: KeyEvent)
      modifies this
      ensures events == old(events) + [e]
    {
      events := events + [e];
    }

    method KeyTyped(e: KeyEvent)
      ensures events == old(events)
    {
    }

    /** Hands over every event buffered since the last call and starts a new buffer. */
    method GetEvents() returns (theEvents: seq<KeyEvent>)
      modifies this
      ensures theEvents == old(events) && events == []
    {
      theEvents := events;
      events := [];
    }
  }

  class Input {
    var keys: seq<Entry>
    var keyEventProcessor: KeyEventProcessor

    ghost predicate Valid()
      reads this
    {
      UniqueKeys(keys)
    }

    constructor (processor: KeyEventProcessor)
      ensures Valid() && keys == [] && keyEventProcessor == processor
    {
      keys := [];
      keyEventProcessor := processor;
    }

    /**
     * startFrame: the first loop clears the current-frame flag of every
     * entry; the second applies the buffered events in order, skipping
     * auto-repeated presses. The listener's buffer is empty afterwards.
     */
    method StartFrame()
      requires Valid()
      modifies this, keyEventProcessor
      ensures Valid() && keyEventProcessor == old(keyEventProcessor)
      ensures keys == FrameStarted(old(keys), old(keyEventProcessor.events))
      ensures keyEventProcessor.events == []
    {
      ghost var k0 := keys;
      for i := 0 to |keys|
        invariant keyEventProcessor == old(keyEventProcessor)
        invariant keyEventProcessor.events == old(keyEventProcessor.events)
        invariant |keys| == |k0|
        invariant forall j :: 0 <= j < i ==> keys[j] == Cleared(k0)[j]
        invariant forall j :: i <= j < |keys| ==> keys[j] == k0[j]
      {
        var kc := keys[i].change;
        kc := kc.(currentFrame := false);
        keys := keys[i := Entry(keys[i].key, kc)];
      }
      assert keys == Cleared(k0);
      ghost var k1 := keys;
      assert UniqueKeys(k1) by {
        forall a, b | 0 <= a < b < |k1|
          ensures k1[a].key != k1[b].key
        {
          assert k1[a].key == k0[a].key && k1[b].key == k0[b].key;
        }
      }
      var evs := keyEventProcessor.GetEvents();
      for i := 0 to |evs|
        invariant keyEventProcessor == old(keyEventProcessor) && keyEventProcessor.events == []
        invariant keys == ApplyEvents(k1, evs[..i])
      {
        var ev := evs[i];
        assert evs[..i + 1][..i] == evs[..i];
        if ev.id == KeyPressedId {
          var kc := Lookup(keys, ev.keyCode);
          if kc.Some? && kc.value.state == KeyDown {
            continue;
          }
        }
        var state := if ev.id == KeyPressedId then KeyDown else KeyUp;
        keys := Put(keys, ev.keyCode, KeyChange(state, true));
      }
      assert evs[..|evs|] == evs;
      ApplyEventsKeepsKeysUnique(k1, evs);
    }
  }
}
