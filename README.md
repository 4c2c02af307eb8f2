# Unity and Java game assignments, modelled in Dafny

This project models the game-engine cores of four course assignments. Each one is proved against its own specification functions.

- **as3, a 2-D rigid-body engine** (`PPhysicsBody`, `PPhysicsEngine`, `Contact`).
  - A body integrates its force from its last committed state, with a per-axis velocity clamp, gravity unless grounded, and revert and commit.
  - Each tick the engine integrates every body in list order and finds the pairs whose boxes have only just started to overlap. It resolves each such contact by choosing a normal from the quadrant of the first body's motion, reverting both bodies and pushing them apart with an impulse, then commits every body.
- **as4, networking and avatars.**
  - The byte formats of the three server messages: built, read back and round-tripped.
  - The server's table of connected clients and their avatars, with connect, forward and disconnect.
  - The local avatar's key-driven movement state machine (`UpdateWalkingState`).
  - The remote avatar's trigger choice (`UpdateAnimation`).
- **as1, a small Java engine.**
  - The keyboard table rebuilt at every frame from buffered key events (`InputEngine.startFrame`), with auto-repeat filtering.
  - The enter/exit collision bookkeeping of `PhysicsEngine.checkCollisions`.
  - The Pong paddle and ball behaviours built on both.
- **as2, a fruit-gathering villager** as a finite-state machine with four nodes: Idle, Walking, PickingFruit and DroppingFruit. One step of the machine keeps the fruit in the world constant, never lets the villager carry more than two, and moves only along the wiring of the nodes.

Files:

- `vectors.dfy` holds the vector types.
- `wrappers.dfy` holds `Option`.
- `physics_body.dfy` and `physics_engine.dfy` hold as3.
- `messages.dfy` (modules `Bytes`, `Messages`, `ServerConnections`) and `avatar_states.dfy` (`AnimationInfo`, `LocalAvatar`, `RemoteAvatar`) hold as4.
- `input_engine.dfy`, `uengine_physics.dfy` and `pong.dfy` hold as1.
- `villager_fsm.dfy` holds as2.

Classes keep the source's mutable fields. Each method's `ensures` ties the new state to a specification function of the old state, and lemmas prove what the source promises about those functions. Floats are modelled as exact `real`s.

## Model

| member | source | states |
|---|---|---|
| PhysicsBody.ClampAxisBounds | as3-physics/Assets/Assets/PhysicsScripts/PPhysicsBody.cs:70-78 | a clamped axis stays within a non-negative limit, is unchanged when already within it, and keeps its sign at the limit otherwise |
| PhysicsBody.SetBounds | as3-physics/Assets/Assets/PhysicsScripts/PPhysicsBody.cs:113-133 | the edge offsets put the body's box exactly on the renderer's bounds, or on the 2 x 2 fallback box without a renderer, so the box has twice the bounds' extents |
| PhysicsBody.WithVelocityClamps | as3-physics/Assets/Assets/PhysicsScripts/PPhysicsBody.cs:66-78 | the velocity setter keeps the body valid, keeps an in-range value, and clamping is idempotent |
| PhysicsBody.AddForceAdditive | as3-physics/Assets/Assets/PhysicsScripts/PPhysicsBody.cs:48-50 | two AddForce calls equal one with the sum, and only the force changes |
| PhysicsBody.StopZeroes | as3-physics/Assets/Assets/PhysicsScripts/PPhysicsBody.cs:56-59 | Stop zeroes velocity and force, keeps everything else, and is idempotent |
| PhysicsBody.IntegrateProperties | as3-physics/Assets/Assets/PhysicsScripts/PPhysicsBody.cs:166-187 | Integrate keeps the body valid, adds gravity exactly when it is not grounded and obeys gravity, builds the clamped velocity on the committed velocity, and keeps the committed state |
| PhysicsBody.IntegrateIgnoresCurrentMotion | as3-physics/Assets/Assets/PhysicsScripts/PPhysicsBody.cs:180-184 | the result of Integrate does not depend on the current position or velocity, only on the committed ones |
| PhysicsBody.FreeFall | as3-physics/Assets/Assets/PhysicsScripts/PPhysicsBody.cs:166-187 | a unit mass falling from rest for 1 s under gravity -9.8 reaches velocity -9.8 and drops 14.7 |
| PhysicsBody.RevertAfterIntegrate | as3-physics/Assets/Assets/PhysicsScripts/PPhysicsBody.cs:192-195 | Revert undoes an Integrate's position and velocity but keeps the force it accumulated |
| PhysicsBody.CommitThenRevert | as3-physics/Assets/Assets/PhysicsScripts/PPhysicsBody.cs:200-205 | after Commit the body is at rest with no force, and a later Revert returns to the committed position and velocity |
| PhysicsBody.BoxSizeConstant | as3-physics/Assets/Assets/PhysicsScripts/PPhysicsBody.cs:211-251 | LL/UR and LLold/URold span the same fixed size, and the box moves exactly with the body |
| PhysicsBody.PPhysicsBody.constructor | as3-physics/Assets/Assets/PhysicsScripts/PPhysicsBody.cs:139-157 | Start: the body is stopped, both positions come from the transform, the bounds come from the renderer, and the body is valid |
| PhysicsBody.PPhysicsBody.AddForce | as3-physics/Assets/Assets/PhysicsScripts/PPhysicsBody.cs:48-50 | the force field becomes the old force plus the new one; nothing else changes |
| PhysicsBody.PPhysicsBody.SetVelocity | as3-physics/Assets/Assets/PhysicsScripts/PPhysicsBody.cs:66-78 | each axis of the stored velocity is the value clamped to that axis's limit |
| PhysicsBody.PPhysicsBody.Stop | as3-physics/Assets/Assets/PhysicsScripts/PPhysicsBody.cs:56-59 | the fields become the Stopped state |
| PhysicsBody.PPhysicsBody.Integrate | as3-physics/Assets/Assets/PhysicsScripts/PPhysicsBody.cs:166-187 | the fields become the Integrated state for the engine's grounded answer, and validity is kept |
| PhysicsBody.PPhysicsBody.Revert | as3-physics/Assets/Assets/PhysicsScripts/PPhysicsBody.cs:192-195 | the fields become the Reverted state, and validity is kept |
| PhysicsBody.PPhysicsBody.Commit | as3-physics/Assets/Assets/PhysicsScripts/PPhysicsBody.cs:200-205 | the fields become the Committed state, and validity is kept |
| PhysicsEngine.RestsOnAnyExists | as3-physics/Assets/Assets/PhysicsScripts/PPhysicsEngine.cs:80-91 | Grounded's loop answers true iff some other body of the list holds the body up within the 0.1 threshold |
| PhysicsEngine.GroundedNeedsAnotherBody | as3-physics/Assets/Assets/PhysicsScripts/PPhysicsEngine.cs:80-91 | a body alone is never grounded, and Grounded never counts the body itself |
| PhysicsEngine.IntersectingProperties | as3-physics/Assets/Assets/PhysicsScripts/PPhysicsEngine.cs:32-34 | the overlap test is symmetric, is equivalent to overlapping closed intervals on both axes, and counts touching boxes as intersecting |
| PhysicsEngine.OnlyNewOverlapsCollide | as3-physics/Assets/Assets/PhysicsScripts/PPhysicsEngine.cs:41-44 | AreColliding is symmetric, never reports a pair that already overlapped at the last commit, and never reports freshly committed bodies |
| PhysicsEngine.IntegrateUpToAt | as3-physics/Assets/Assets/PhysicsScripts/PPhysicsEngine.cs:68-72 | in IntegrateAll each body integrates once, against the list as it stood when its turn came (earlier bodies already moved), and later bodies are untouched |
| PhysicsEngine.NewContactsMembers | as3-physics/Assets/Assets/PhysicsScripts/PPhysicsEngine.cs:52-66 | CheckForCollisions reports exactly the pairs i < j that are colliding |
| PhysicsEngine.NewContactsSorted | as3-physics/Assets/Assets/PhysicsScripts/PPhysicsEngine.cs:52-66 | the contacts come once each, in ascending (i, j) order |
| PhysicsEngine.ContactNormalTable | as3-physics/Assets/Assets/PhysicsScripts/PPhysicsEngine.cs:167-231 | the quadrant table: no vertical motion keeps the normal and the 0.2 collision time; otherwise exactly one axis of the normal becomes +-1, x only when its ratio is strictly smaller, and the collision time is the winning ratio |
| PhysicsEngine.ApplyImpulseFrame | as3-physics/Assets/Assets/PhysicsScripts/PPhysicsEngine.cs:234-268 | the revert, impulse and re-integration change no body other than the contact's two |
| PhysicsEngine.SelfImpulseZero | as3-physics/Assets/Assets/PhysicsScripts/PPhysicsEngine.cs:240-256 | a body's impulse against itself is zero |
| PhysicsEngine.BrokenSwapIgnoresSecondBody | as3-physics/Assets/Assets/PhysicsScripts/PPhysicsEngine.cs:156-161 | when the swap's guard holds (the corners compared with Unity's tolerant Vector2 equality, squared distance below 1e-10), the contact's second body is left untouched |
| PhysicsEngine.DegenerateMassOnlyReverts | as3-physics/Assets/Assets/PhysicsScripts/PPhysicsEngine.cs:250-254 | with non-positive total inverse mass both bodies are only reverted |
| PhysicsEngine.ResolveTouchesOnlyPair | as3-physics/Assets/Assets/PhysicsScripts/PPhysicsEngine.cs:152-268 | resolving a contact changes only its two bodies |
| PhysicsEngine.ResolveValid | as3-physics/Assets/Assets/PhysicsScripts/PPhysicsEngine.cs:152-268 | a resolved contact leaves every body valid (velocities within their limits) |
| PhysicsEngine.ResolveAllConcat | as3-physics/Assets/Assets/PhysicsScripts/PPhysicsEngine.cs:93-97 | resolving a list of contacts is resolving its first part and then the rest from the state the first part left; a contact outside the model stops the whole run |
| PhysicsEngine.ResolveAllUntouched | as3-physics/Assets/Assets/PhysicsScripts/PPhysicsEngine.cs:93-97 | a body that belongs to none of the contacts comes out of ResolveCollisions unchanged |
| PhysicsEngine.CommitAllAtRest | as3-physics/Assets/Assets/PhysicsScripts/PPhysicsEngine.cs:99-103 | CommitAll leaves every body valid, at rest, with no force and with its parameters unchanged |
| PhysicsEngine.TickCommitsAll | as3-physics/Assets/Assets/PhysicsScripts/PPhysicsEngine.cs:111-127 | after a tick every body is valid and at rest |
| PhysicsEngine.StepsAsWritten | as3-physics/Assets/Assets/PhysicsScripts/PPhysicsEngine.cs:112-124 | the time steps of successive UpdatePhysics calls as written; the first is the time since the start |
| PhysicsEngine.StepsAsWrittenDrift | as3-physics/Assets/Assets/PhysicsScripts/PPhysicsEngine.cs:124 | ticks at 0.02, 0.04 and 0.06 take steps 0.02, 0.02 and 0.04: the last step is not the real interval, and the steps do not add up to the elapsed time |
| PhysicsEngine.TimeStepsCoverElapsedTime | as3-physics/Assets/Assets/PhysicsScripts/PPhysicsEngine.cs:112-124 | with the time itself stored as the previous time, each step is the interval since the previous call, and the steps add up to the elapsed time |
| PhysicsEngine.PPhysicsEngine.constructor | as3-physics/Assets/Assets/PhysicsScripts/PPhysicsEngine.cs:12-17 | an engine starts with no bodies, no contacts and zero times |
| PhysicsEngine.PPhysicsEngine.AddBody | as3-physics/Assets/Assets/PhysicsScripts/PPhysicsEngine.cs:19-23 | the body joins the end of the list; no other state changes |
| PhysicsEngine.PPhysicsEngine.Grounded | as3-physics/Assets/Assets/PhysicsScripts/PPhysicsEngine.cs:80-91 | the loop's answer is GroundedAt of the body's index |
| PhysicsEngine.PPhysicsEngine.IntegrateAll | as3-physics/Assets/Assets/PhysicsScripts/PPhysicsEngine.cs:68-72 | the bodies' states become IntegratedAll of the old states |
| PhysicsEngine.PPhysicsEngine.CheckForCollisions | as3-physics/Assets/Assets/PhysicsScripts/PPhysicsEngine.cs:52-66 | one fresh contact per colliding pair i < j, in loop order, each with normal zero and restitution 0.5 |
| PhysicsEngine.PPhysicsEngine.ResolveCollisions | as3-physics/Assets/Assets/PhysicsScripts/PPhysicsEngine.cs:93-97 | the bodies' states become ResolveAll of the contacts in order |
| PhysicsEngine.PPhysicsEngine.CommitAll | as3-physics/Assets/Assets/PhysicsScripts/PPhysicsEngine.cs:99-103 | every body's state becomes its Committed state |
| PhysicsEngine.PPhysicsEngine.UpdatePhysics | as3-physics/Assets/Assets/PhysicsScripts/PPhysicsEngine.cs:111-127 | the bodies take one Tick with step now - previousIntegrateTime, previousIntegrateTime then holds that step (as written), and the contacts field holds one contact per new collision of the integrated bodies |
| PhysicsEngine.Contact.constructor | as3-physics/Assets/Assets/PhysicsScripts/PPhysicsEngine.cs:400-403 | the contact records its two bodies with a zero normal and restitution 0.5 |
| PhysicsEngine.Contact.ResolveContact | as3-physics/Assets/Assets/PhysicsScripts/PPhysicsEngine.cs:152-268 | the engine's bodies' states become Resolve of the contact's pair, including the swap as written |
| PhysicsEngine.Contact.ChooseNormal | as3-physics/Assets/Assets/PhysicsScripts/PPhysicsEngine.cs:167-231 | the four-quadrant branch sets the normal and collision time to ContactOutcome |
| PhysicsEngine.Contact.Respond | as3-physics/Assets/Assets/PhysicsScripts/PPhysicsEngine.cs:233-268 | the states become ApplyImpulse: revert both bodies, then push with opposite impulses and re-integrate for the collision time, unless the total inverse mass is not positive |
| Bytes.Int16RoundTrip | as4-networking/Assets/Assets/Scripts/ServerNetworkScript.cs:113-119 | the two bytes BitConverter writes for an Int16 read back as that Int16, wherever they sit in a message |
| Bytes.Int16BytesOfRead | as4-networking/Assets/Assets/Scripts/ServerNetworkScript.cs:231-235 | any two bytes are the encoding of the Int16 they are read as |
| Messages.AvatarIdToString | as4-networking/Assets/Assets/Scripts/ServerNetworkScript.cs:35-43 | "Flora" iff id 1, "Tommy" iff id 2, "Bad avatar id" iff any other id |
| Messages.AddIntToByteArray | as4-networking/Assets/Assets/Scripts/ServerNetworkScript.cs:113-119 | the two bytes of n land at count and count + 1, every other byte is kept, and the counter advances by 2 |
| Messages.CreateSetAvatarPositionRotationMessage | as4-networking/Assets/Assets/Scripts/ServerNetworkScript.cs:138-165 | a 9-byte message: type 3, then avatar and movement state, then x, z and r, each reading back as the Int16 given |
| Messages.PositionRotationFields | as4-networking/Assets/Assets/Scripts/ServerNetworkScript.cs:140-160 | every field of a position message sits at the offset the format gives and reads back as itself |
| Messages.CreateUseAvatarMessage | as4-networking/Assets/Assets/Scripts/ServerNetworkScript.cs:173-180 | the message reads back with GetMessageType as useAvatar and with GetAvatarIdFromMessage as the avatar |
| Messages.GetAvatarIdFromMessage | as4-networking/Assets/Assets/Scripts/ServerNetworkScript.cs:187-194 | the avatar read from a well-formed message is Flora or Tommy |
| Messages.CreateSetPlayerIdMessage | as4-networking/Assets/Assets/Scripts/ServerNetworkScript.cs:202-210 | the message reads back with GetMessageType as setPlayerId and with GetPlayerIdFromMessage as the player id |
| Messages.GetPlayerIdFromMessage | as4-networking/Assets/Assets/Scripts/ServerNetworkScript.cs:217-221 | the player id is a byte value and encodes back to the message's first two bytes |
| Messages.GetMessageType | as4-networking/Assets/Assets/Scripts/ServerNetworkScript.cs:270-274 | the type is byte 0 and is one of the three known types |
| Messages.ExtractFloat | as4-networking/Assets/Assets/Scripts/ServerNetworkScript.cs:231-235 | as written (check startPos + 2 < Length): the Int16 at startPos, widened, within the Int16 range |
| Messages.UnmarshallPositionRotationMessage | as4-networking/Assets/Assets/Scripts/ServerNetworkScript.cs:246-263 | as written (at least 14 bytes): the avatar and state are bytes 1 and 2, x and z are the Int16s at 3 and 5 divided by 100, r is the Int16 at 7 |
| Messages.BuiltMessageFailsReaderChecks | as4-networking/Assets/Assets/Scripts/ServerNetworkScript.cs:232-248 | every built position message fails the reader's length check and the rotation's ExtractFloat check |
| Messages.ExtractInt16 | as4-networking/Assets/Assets/Scripts/ServerNetworkScript.cs:231-235 | the corrected reader of the Int16 whose two bytes lie inside the message |
| Messages.UnmarshallPositionRotation | as4-networking/Assets/Assets/Scripts/ServerNetworkScript.cs:246-263 | the corrected reader (9 bytes): avatar and movement state are bytes 1 and 2 |
| Messages.CorrectedReaderAgrees | as4-networking/Assets/Assets/Scripts/ServerNetworkScript.cs:246-263 | the corrected reader accepts everything the as-written reader accepts and reads it the same way |
| Messages.PositionRotationRoundTrip | as4-networking/Assets/Assets/Scripts/ServerNetworkScript.cs:138-263 | a position message built for Flora or Tommy and a legal movement state passes the corrected checks and reads back as (avatar, x/100, z/100, r, state) |
| Messages.SmallMessagesRoundTrip | as4-networking/Assets/Assets/Scripts/ServerNetworkScript.cs:173-221 | the use-avatar and set-player-id messages read back as their type and what they were built from |
| Messages.ReceivedPositionRoundTrip | as4-networking/Assets/Assets/Scripts/ServerNetworkScript.cs:246-263 | a position message at the start of the 128-byte receive buffer, whatever follows it, passes the as-written and the corrected reader's checks and reads back through both as (avatar, x/100, z/100, r, state) |
| ServerConnections.AvatarFor | as4-networking/Assets/Assets/Scripts/ServerNetworkScript.cs:367-368 | a new client gets Flora iff the table is empty, and Tommy otherwise |
| ServerConnections.RecipientsAreOthers | as4-networking/Assets/Assets/Scripts/ServerNetworkScript.cs:389-404 | a movement message goes to exactly the connections other than the sender |
| ServerConnections.RemovedEntries | as4-networking/Assets/Assets/Scripts/ServerNetworkScript.cs:446 | Remove keeps exactly the entries with another id |
| ServerConnections.RemovedUnique | as4-networking/Assets/Assets/Scripts/ServerNetworkScript.cs:446 | after Remove the ids stay unique and the removed id is gone |
| ServerConnections.FirstTwoClientsGetBothAvatars | as4-networking/Assets/Assets/Scripts/ServerNetworkScript.cs:355-380 | two clients joining an empty server get Flora and then Tommy, one avatar each |
| ServerConnections.ReconnectDuplicatesAvatar | as4-networking/Assets/Assets/Scripts/ServerNetworkScript.cs:368 | after the Flora client leaves, the next client is given Tommy too, so two clients play the same avatar |
| ServerConnections.FreeAvatar | as4-networking/Assets/Assets/Scripts/ServerNetworkScript.cs:368 | corrected choice: Tommy iff some client already plays Flora |
| ServerConnections.FreeAvatarKeepsAvatarsDistinct | as4-networking/Assets/Assets/Scripts/ServerNetworkScript.cs:364-373 | with the corrected choice, a client joining at most one other never shares its avatar, and on an empty server the choice is the original one |
| ServerConnections.ServerNetwork.constructor | as4-networking/Assets/Assets/Scripts/ServerNetworkScript.cs:361-380 | a server starts with no connections and nothing sent |
| ServerConnections.ServerNetwork.AddNewClient | as4-networking/Assets/Assets/Scripts/ServerNetworkScript.cs:361-380 | the client is added with its avatar and is sent the set-player-id message (the avatar's number) and then the use-avatar message; the table stays valid |
| ServerConnections.ServerNetwork.ForwardMovementMessage | as4-networking/Assets/Assets/Scripts/ServerNetworkScript.cs:389-404 | the recipients are every connection except the sender, in enumeration order |
| ServerConnections.ServerNetwork.Disconnect | as4-networking/Assets/Assets/Scripts/ServerNetworkScript.cs:442-447 | the connection leaves the table, every other entry stays, and the table stays valid |
| AnimationInfo.LegalStatesAreZeroToFive | as4-networking/Assets/Assets/Scripts/LocalAvatarScript.cs:22-33 | the legal movement states are exactly the bytes 0 to 5 |
| AnimationInfo.StateByComponents | as4-networking/Assets/Assets/Scripts/LocalAvatarScript.cs:22-33 | a legal state is determined by whether it walks and which way it turns |
| LocalAvatar.WKey | as4-networking/Assets/Assets/Scripts/LocalAvatarScript.cs:58-76 | W pressed: walk with the Walk trigger; W released: walking stops, keeping a walking turn, and any other state goes to idle; otherwise nothing changes; on release exactly one trigger fires, the one that leads to the new state's animation |
| LocalAvatar.TurnStart | as4-networking/Assets/Assets/Scripts/LocalAvatarScript.cs:78-96 | A or D pressed: start turning that way, walking or not; a standing turn the other way reverses; a walking turn the other way is kept; A wins over D; a walking state fires no trigger, and a standing state fires exactly one trigger, leading to the new animation, iff it changes |
| LocalAvatar.TurnStop | as4-networking/Assets/Assets/Scripts/LocalAvatarScript.cs:98-116 | D or A released: the turn that way stops, walking is kept, and D wins over A; a walking state fires no trigger, and a standing turn that stops fires exactly the Idle trigger |
| LocalAvatar.WalkingStateStepKeepsAnimation | as4-networking/Assets/Assets/Scripts/LocalAvatarScript.cs:57-117 | the state stays legal, at most three triggers fire, and the animator ends up showing the new state's animation |
| LocalAvatar.AnimatorAfterConcat | as4-networking/Assets/Assets/Scripts/LocalAvatarScript.cs:57-117 | trigger runs compose: the later run decides whenever it fires |
| LocalAvatar.MotionOf | as4-networking/Assets/Assets/Scripts/LocalAvatarScript.cs:124-135 | the avatar translates iff its state walks, rotates left iff it turns left, rotates right iff it turns right, and never both |
| LocalAvatar.LocalAvatarScript.constructor | as4-networking/Assets/Assets/Scripts/LocalAvatarScript.cs:57-117 | an avatar starts idle, with no triggers fired |
| LocalAvatar.LocalAvatarScript.UpdateWalkingState | as4-networking/Assets/Assets/Scripts/LocalAvatarScript.cs:57-117 | the three key blocks in order: the state and the triggers fired follow WalkingStateStep |
| LocalAvatar.LocalAvatarScript.WKeyBlock | as4-networking/Assets/Assets/Scripts/LocalAvatarScript.cs:58-76 | the W block's state and triggers |
| LocalAvatar.LocalAvatarScript.TurnStartBlock | as4-networking/Assets/Assets/Scripts/LocalAvatarScript.cs:78-96 | the A/D-pressed block's state and triggers |
| LocalAvatar.LocalAvatarScript.TurnStopBlock | as4-networking/Assets/Assets/Scripts/LocalAvatarScript.cs:98-116 | the D/A-released block's state and triggers |
| RemoteAvatar.AnimationTriggersTable | as4-networking/Assets/Assets/Scripts/RemoteAvatarScript.cs:204-245 | at most one trigger fires: Walk for a walking target not already walking, and Idle, TurnLeft or TurnRight exactly when that is the target |
| RemoteAvatar.AnimationTriggersFollowState | as4-networking/Assets/Assets/Scripts/RemoteAvatarScript.cs:204-245 | between different legal states a trigger fires iff the animation must change, and the animator then shows the target state |
| RemoteAvatar.RemoteAvatarScript.constructor | as4-networking/Assets/Assets/Scripts/RemoteAvatarScript.cs:15-27 | the field initialisers: no pending target position, rotation or movement state, no triggers, and the avatar idle |
| RemoteAvatar.RemoteAvatarScript.SetTargetPosition | as4-networking/Assets/Assets/Scripts/RemoteAvatarScript.cs:34-40 | stores the position and raises its flag; nothing else changes |
| RemoteAvatar.RemoteAvatarScript.SetTargetRotation | as4-networking/Assets/Assets/Scripts/RemoteAvatarScript.cs:47-53 | stores the rotation and raises its flag; nothing else changes |
| RemoteAvatar.RemoteAvatarScript.SetTargetMovementState | as4-networking/Assets/Assets/Scripts/RemoteAvatarScript.cs:60-66 | stores the movement state and raises its flag; nothing else changes |
| RemoteAvatar.RemoteAvatarScript.UpdateAnimation | as4-networking/Assets/Assets/Scripts/RemoteAvatarScript.cs:204-245 | a pending, different target fires its triggers, becomes the current state and is consumed; otherwise nothing changes |
| InputEngine.Lookup | as1-uengine/src/uEngine/InputEngine.java:12 | the table has an entry for a key iff some entry carries that key |
| InputEngine.PutLookup | as1-uengine/src/uEngine/InputEngine.java:43-66 | Hashtable.put stores the new change for its key and leaves every other key alone |
| InputEngine.ClearedLookup | as1-uengine/src/uEngine/InputEngine.java:35-40 | the first loop of startFrame keeps every key and its state and clears every current-frame flag |
| InputEngine.GetKey | as1-uengine/src/uEngine/InputEngine.java:75-88 | a key with no entry is not held |
| InputEngine.GetKeyDown | as1-uengine/src/uEngine/InputEngine.java:95-111 | a key with no entry did not go down; the frame-level behaviour is stated by PressedKeyReportsDown and HeldKeyReportsDownOnce |
| InputEngine.GetKeyUp | as1-uengine/src/uEngine/InputEngine.java:118-131 | a key with no entry did not go up |
| InputEngine.QueriesConsistent | as1-uengine/src/uEngine/InputEngine.java:75-131 | a key never reports both going down and going up; going down implies held, going up implies not held |
| InputEngine.PutKeepsKeysUnique | as1-uengine/src/uEngine/InputEngine.java:43-66 | put keeps the table a dictionary |
| InputEngine.ApplyEventsKeepsKeysUnique | as1-uengine/src/uEngine/InputEngine.java:43-66 | a whole batch of events keeps the table a dictionary |
| InputEngine.ApplyEventLookup | as1-uengine/src/uEngine/InputEngine.java:43-66 | one event: an auto-repeated press changes nothing; any other event records down (press) or up (release) in the current frame for its key only |
| InputEngine.ApplyEventsConcat | as1-uengine/src/uEngine/InputEngine.java:43-66 | applying two batches in turn equals applying their concatenation |
| InputEngine.QuietKeyReportsNoChange | as1-uengine/src/uEngine/InputEngine.java:32-68 | a key with no events in the frame reports neither down nor up, and stays held iff it was held |
| InputEngine.HeldKeyReportsDownOnce | as1-uengine/src/uEngine/InputEngine.java:45-52 | auto-repeat filtering: a held key whose only events are presses stays held and does not report going down again |
| InputEngine.TouchedIsCurrent | as1-uengine/src/uEngine/InputEngine.java:43-66 | after a batch, each key's entry is the one it had before or one recorded in the current frame |
| InputEngine.PressedKeyReportsDown | as1-uengine/src/uEngine/InputEngine.java:32-68 | a key not held at the start of the frame whose last event of the batch is a press reports going down in the new frame, and is held |
| InputEngine.LastEventDecides | as1-uengine/src/uEngine/InputEngine.java:43-66 | the last event of the frame for a key decides whether it is held, and a final release reports going up |
| InputEngine.EntriesNeverRemoved | as1-uengine/src/uEngine/InputEngine.java:32-68 | startFrame never removes a key's entry |
| InputEngine.KeyEventProcessor.constructor | as1-uengine/src/uEngine/InputEngine.java:181-182 | the listener starts with an empty buffer |
| InputEngine.KeyEventProcessor.KeyPressed | as1-uengine/src/uEngine/InputEngine.java:184-187 | the event is appended to the buffer |
| InputEngine.KeyEventProcessor.KeyReleased | as1-uengine/src/uEngine/InputEngine.java:189-192 | the event is appended to the buffer |
| InputEngine.KeyEventProcessor.KeyTyped | as1-uengine/src/uEngine/InputEngine.java:194-196 | typed events are not buffered |
| InputEngine.KeyEventProcessor.GetEvents | as1-uengine/src/uEngine/InputEngine.java:203-211 | hands over every buffered event, in arrival order, and empties the buffer |
| InputEngine.Input.constructor | as1-uengine/src/uEngine/InputEngine.java:12 | the key table starts empty |
| InputEngine.Input.StartFrame | as1-uengine/src/uEngine/InputEngine.java:32-68 | the table becomes the cleared table with the buffered batch applied in order, it stays a dictionary, and the listener's buffer is empty |
| UEnginePhysics.CollidingMeansOverlap | as1-uengine/src/uEngine/PhysicsEngine.java:16-33 | for boxes at least one unit in size: colliding implies the boxes overlap, every box collides with itself, and a box whose lower-left corner lies in another collides with it |
| UEnginePhysics.CollidingIsOneSided | as1-uengine/src/uEngine/PhysicsEngine.java:23-33 | the corner test is one-sided: a small box inside a big one collides with it, but not the other way round |
| UEnginePhysics.CrossingBoxesDoNotCollide | as1-uengine/src/uEngine/PhysicsEngine.java:16-33 | two boxes overlapping in a cross, with no corner inside the other, are not colliding in either order |
| UEnginePhysics.CheckedSpec | as1-uengine/src/uEngine/PhysicsEngine.java:35-75 | afterwards the tracked pairs are exactly the colliding ordered pairs; an enter fired exactly for the newly colliding pairs and an exit exactly for the pairs that stopped; no callback fired twice |
| UEnginePhysics.CheckedIdempotent | as1-uengine/src/uEngine/PhysicsEngine.java:72-75 | a second check with nothing moved changes nothing and fires no callback |
| UEnginePhysics.OrderedPairsTrackedSeparately | as1-uengine/src/uEngine/PhysicsEngine.java:77-95 | pairs are ordered: when both orders collide, each order gets its own enter |
| UEnginePhysics.PhysicsEngine.constructor | as1-uengine/src/uEngine/PhysicsEngine.java:77-95 | no pair is tracked at first |
| UEnginePhysics.PhysicsEngine.CheckAndHandleCollisionEntry | as1-uengine/src/uEngine/PhysicsEngine.java:35-54 | the nested loops produce the Entered bookkeeping: new colliding pairs tracked, each with one enter, in loop order |
| UEnginePhysics.PhysicsEngine.CheckAndHandleCollisionExit | as1-uengine/src/uEngine/PhysicsEngine.java:56-70 | the tracked pairs that still collide are kept, and one exit fires for each dropped pair, in order |
| UEnginePhysics.PhysicsEngine.CheckCollisions | as1-uengine/src/uEngine/PhysicsEngine.java:72-75 | entry then exit: the tracked set and the callbacks follow Checked, and the tracking invariant is kept |
| Pong.OnCallback | as1-uengine/src/pong/Paddle.java:36-53 | a callback about anything other than "top" or "bottom" leaves the flags unchanged |
| Pong.FlagsAfterUntouched | as1-uengine/src/pong/Paddle.java:36-53 | callbacks about other objects never change a wall's flag |
| Pong.FlagsAfterConcat | as1-uengine/src/pong/Paddle.java:36-53 | callback runs compose |
| Pong.LatestCallbackDecides | as1-uengine/src/pong/Paddle.java:36-53 | a flag is set iff the latest callback about its wall was an enter |
| Pong.PaddleY | as1-uengine/src/pong/Paddle.java:25-33 | with DOWN held and the paddle not at the bottom it moves down by speed times the elapsed time; otherwise, with UP held and not at the top, it moves up by as much; otherwise it stays put. It never moves down at the bottom or up at the top, and moves at most speed times the elapsed time |
| Pong.Paddle.constructor | as1-uengine/src/pong/Paddle.java:12-13 | a paddle starts touching neither wall |
| Pong.Paddle.Start | as1-uengine/src/pong/Paddle.java:16-22 | the name is "paddle" and the box is 20 x 130 at (700, 300) |
| Pong.Paddle.Update | as1-uengine/src/pong/Paddle.java:25-33 | only the height changes, as PaddleY gives it for the held arrow keys and the flags |
| Pong.Paddle.OnCollisionEnter | as1-uengine/src/pong/Paddle.java:36-43 | the flags follow OnCallback for an enter |
| Pong.Paddle.OnCollisionExit | as1-uengine/src/pong/Paddle.java:46-53 | the flags follow OnCallback for an exit |
| Pong.Flipped | as1-uengine/src/pong/Ball.java:32-42 | hitting "top" or "bottom" reverses only the vertical direction, anything else only the horizontal one; the speed per axis is kept |
| Pong.FlipTwiceRestores | as1-uengine/src/pong/Ball.java:32-42 | two hits on the same object restore the direction |
| Pong.AdvanceAdditive | as1-uengine/src/pong/Ball.java:26-29 | two updates move the ball as one update over the total time |
| Pong.Ball.constructor | as1-uengine/src/pong/Ball.java:9-11 | speed 120, and velocity (-root2, -root2) |
| Pong.Ball.Start | as1-uengine/src/pong/Ball.java:14-23 | the name is "Ball" and the box is 40 x 40 at the window's centre |
| Pong.Ball.Update | as1-uengine/src/pong/Ball.java:26-29 | the position advances by velocity times speed times elapsed time; nothing else changes |
| Pong.Ball.OnCollisionEnter | as1-uengine/src/pong/Ball.java:32-42 | plays "blip", and the velocity becomes Flipped for the object hit |
| VillagerFsm.SumUpdate | as2-fsm-behaviour/Assets/Assets/Scripts/PickingFruit.cs:39-53 | changing one tree's count changes the world's sum by the difference |
| VillagerFsm.FruitExists | as2-fsm-behaviour/Assets/Assets/Scripts/Idle.cs:35-47 | true iff some tree's count is not zero |
| VillagerFsm.ScanSpec | as2-fsm-behaviour/Assets/Assets/Scripts/Walking.cs:84-100 | the loop of ChooseTree keeps: nothing chosen iff no tree seen has fruit; otherwise the chosen tree has fruit, is no farther than any tree with fruit, and is strictly nearer than every earlier one |
| VillagerFsm.ChosenIffFruitExists | as2-fsm-behaviour/Assets/Assets/Scripts/Walking.cs:84-100 | with no negative counts, a tree is chosen iff FruitExists |
| VillagerFsm.AddFruit | as2-fsm-behaviour/Assets/Assets/Scripts/PickingFruit.cs:44-47 | changing a holder's count keeps the number of trees |
| VillagerFsm.IdleStep | as2-fsm-behaviour/Assets/Assets/Scripts/Idle.cs:15-22 | Idle touches no fruit; it leaves for Walking, with a target, exactly when the villager has room and some tree has fruit, and otherwise stays Idle with nothing changed |
| VillagerFsm.WalkingEnteredOk | as2-fsm-behaviour/Assets/Assets/Scripts/Walking.cs:18-36 | Walking.OnEnter aims at the village or at a tree of the world and touches no count |
| VillagerFsm.IdleStepOk | as2-fsm-behaviour/Assets/Assets/Scripts/Idle.cs:15-28 | an Idle step is a good step (invariant kept, wired transition, fruit conserved, capacity kept) |
| VillagerFsm.WalkingStepOk | as2-fsm-behaviour/Assets/Assets/Scripts/Walking.cs:43-82 | a Walking step is a good step |
| VillagerFsm.PickingStepOk | as2-fsm-behaviour/Assets/Assets/Scripts/PickingFruit.cs:16-53 | a PickingFruit step is a good step: a fruit moves from the tree to the hands, never beyond two |
| VillagerFsm.DroppingStepOk | as2-fsm-behaviour/Assets/Assets/Scripts/DroppingFruit.cs:15-60 | a DroppingFruit step is a good step: a fruit moves from the hands to the village |
| VillagerFsm.StepPreserves | as2-fsm-behaviour/Assets/Assets/Scripts/FSMScheduler.cs:34 | every step of the machine, whatever its node, keeps the invariant, follows the wiring, conserves the fruit and keeps the capacity |
| VillagerFsm.PickingMovesOne | as2-fsm-behaviour/Assets/Assets/Scripts/PickingFruit.cs:39-53 | with room and fruit on the tree, exactly one fruit moves from that tree into the hands |
| VillagerFsm.PickingLeaves | as2-fsm-behaviour/Assets/Assets/Scripts/PickingFruit.cs:39-53 | with no room or a bare tree, no fruit moves: the villager leaves the tree and enters Walking, towards the village when full or when no tree has fruit |
| VillagerFsm.DroppingCases | as2-fsm-behaviour/Assets/Assets/Scripts/DroppingFruit.cs:40-60 | with fruit, one goes to the village; empty-handed, off to Walking if any tree has fruit, else to Idle, leaving the village |
| VillagerFsm.WalkingTarget | as2-fsm-behaviour/Assets/Assets/Scripts/Walking.cs:18-36 | the target is the village iff the villager is full or no tree has fruit; otherwise a tree with fruit that no other tree with fruit is nearer than |
| VillagerFsm.World.constructor | as2-fsm-behaviour/Assets/Assets/Scripts/Walking.cs:84-88 | the world holds the given tree counts and village count |
| VillagerFsm.Villager.constructor | as2-fsm-behaviour/Assets/Assets/Scripts/VillagerFSM.cs:7-16 | a villager starts empty-handed, away from tree and village, with picking distance 5 |
| VillagerFsm.Villager.Start | as2-fsm-behaviour/Assets/Assets/Scripts/VillagerFSM.cs:19-23 | the start node's OnEnter: Idle's or Walking's |
| VillagerFsm.Villager.ChooseTree | as2-fsm-behaviour/Assets/Assets/Scripts/Walking.cs:84-100 | none iff no tree has fruit; otherwise a tree with fruit that is no farther than any other with fruit, and the earliest among equally near ones |
| VillagerFsm.Villager.IdleOnEnter | as2-fsm-behaviour/Assets/Assets/Scripts/Idle.cs:24-28 | the node becomes Idle and the Idle trigger fires |
| VillagerFsm.Villager.IdleDo | as2-fsm-behaviour/Assets/Assets/Scripts/Idle.cs:15-22 | the state follows IdleStep |
| VillagerFsm.Villager.WalkingOnEnter | as2-fsm-behaviour/Assets/Assets/Scripts/Walking.cs:18-36 | the state follows WalkingEntered: target chosen, Walk trigger fired |
| VillagerFsm.Villager.WalkingDo | as2-fsm-behaviour/Assets/Assets/Scripts/Walking.cs:43-82 | arrival at a tree enters PickingFruit, arrival at the village enters DroppingFruit |
| VillagerFsm.Villager.PickingOnEnter | as2-fsm-behaviour/Assets/Assets/Scripts/PickingFruit.cs:24-31 | picks from the current target, with the Pickup trigger |
| VillagerFsm.Villager.PickingOnExit | as2-fsm-behaviour/Assets/Assets/Scripts/PickingFruit.cs:33-36 | the villager is no longer at a tree |
| VillagerFsm.Villager.PickupFruit | as2-fsm-behaviour/Assets/Assets/Scripts/PickingFruit.cs:39-53 | the state follows PickedUp |
| VillagerFsm.Villager.PickingDo | as2-fsm-behaviour/Assets/Assets/Scripts/PickingFruit.cs:16-22 | the state follows PickingStep |
| VillagerFsm.Villager.DroppingOnEnter | as2-fsm-behaviour/Assets/Assets/Scripts/DroppingFruit.cs:24-33 | the target becomes the village, with the Drop trigger |
| VillagerFsm.Villager.DroppingOnExit | as2-fsm-behaviour/Assets/Assets/Scripts/DroppingFruit.cs:35-38 | the villager is no longer at the village |
| VillagerFsm.Villager.DropFruit | as2-fsm-behaviour/Assets/Assets/Scripts/DroppingFruit.cs:40-60 | the state follows DroppedOff |
| VillagerFsm.Villager.DroppingDo | as2-fsm-behaviour/Assets/Assets/Scripts/DroppingFruit.cs:15-22 | the state follows DroppingStep |
| VillagerFsm.Villager.Do | as2-fsm-behaviour/Assets/Assets/Scripts/FSMScheduler.cs:34 | one scheduled Do keeps the invariant, moves only along the wiring, conserves the world's fruit and keeps the two-fruit capacity |

## Left out

- Floating point: every float is an exact real. Rounding, NaN and infinities are not modelled. The one float behaviour the logic depends on, the ratio comparison with a zero speed.x, is written out in `XFirst`.
- PhysicsBody.PPhysicsBody.Integrate: requires a non-zero mass. The source divides by the mass and would produce infinities.
- PhysicsBody.PPhysicsBody.constructor: requires a non-zero mass and non-negative maximum velocities. The source accepts any values, but a zero mass makes Integrate divide by zero, and the velocity clamp needs a non-negative limit.
- PhysicsEngine.PPhysicsEngine.AddBody: requires a body with a non-zero mass that is not yet registered. The source only asserts that the body is not null and would accept a second registration. Each body registers once, from its own Start, and the mass defaults to 1.
- PhysicsEngine.Contact.ResolveContact: requires that the contact resolves inside the model. This excludes the case where the x axis wins with a zero speed.x, where the source's collision time is -infinity.
- PhysicsEngine.PPhysicsEngine.UpdatePhysics: requires that every contact of the tick resolves inside the model (same reason).
- Unity glue of the physics body:
  - The transform read in Start and written in Commit.
  - The tag lookup of the engine. Registration is the separate `AddBody` call.
  - `FixedUpdate`.
  - `Time.time` and the body's `Grounded` property, which are parameters.
- Messages: `Convert.ToInt16` of x*100, z*100 and r, with its rounding and overflow exception, happens before the model. The builders take the Int16 values.
- Messages: `BitConverter` is modelled as little-endian.
- The Messages `Debug.Assert`s are modelled as preconditions. A message that fails one is outside the model, although Unity would only log the failure and go on.
- ServerConnections.ServerNetwork.AddNewClient: requires fewer than two clients and a new id (the source asserts both, and Unity only logs a failed assertion).
- Network transport, logging, `NetworkErrorToString`, `ClientNetworkScript` and the server's receive loop are left out. `ForwardMovementMessage` returns its recipients instead of sending.
- Dictionary and Hashtable enumeration order is taken to be insertion order.
- Avatars:
  - The animator is modelled only as the state a trigger leads to.
  - `MoveAvatar`'s and `UpdateAvatarPosition`'s transform arithmetic and the walk and turn speeds are not modelled. `MotionOf` gives only which motions happen.
  - The local avatar's `Debug.Assert` in the W-released branch only logs, and is not a precondition.
- InputEngine: the singleton `getInstance`, `setInputSource`, the mouse stubs and the synchronisation of the listener are left out. A frame's event batch is taken as it stands when `getEvents` is called.
- UEnginePhysics: game objects are their indices in a list that does not change between checks (`InRange`), and positions do not change during a check.
- Pong: rendering, colours and audio are left out; the ball returns its sound ("blip").
- Pong.Ball.OnCollisionEnter: the Java `assert` on the collider's name is not modelled. Java disables assertions by default, and with them enabled a failing one throws an AssertionError.
- Pong.Ball.constructor: `ROOT_2` is a parameter, because the square root of 2 cannot be computed exactly.
- VillagerFsm:
  - Coroutine timing is left out. One `Do`, including its `WaitForSeconds` coroutine, is one atomic step.
  - The scheduler's priority loops reduce to one `Do` call per step.
  - Walking movement, `LookAt` and the terrain are left out. Distances to the target and to each tree are inputs.
  - Trees are identified by index instead of by `GameObject.FindGameObjectsWithTag`.
  - PickingFruit and DroppingFruit look up the holder again by name with `GameObject.Find(target.name)`. The model uses the target itself, which is the same object only when holder names are unique.
  - A start node other than Idle or Walking is left out.
  - Dafny classes have no inheritance without traits, so the four node objects are flattened into the villager.

## Findings

| source | as written | input that shows it | evidently intended | confidence | as-written member | corrected member |
|---|---|---|---|---|---|---|
| as4-networking/Assets/Assets/Scripts/ServerNetworkScript.cs:248 | the reader asserts `message.Length >= 14` | any message from CreateSetAvatarPositionRotationMessage, which is 9 bytes long | `message.Length >= 9`, the length of the format | medium, not executed; the client passes its 128-byte receive buffer, so the assertion fires only for a message passed as built | Messages.BuiltMessageFailsReaderChecks | Messages.PositionRotationRoundTrip |
| as4-networking/Assets/Assets/Scripts/ServerNetworkScript.cs:232 | ExtractFloat asserts `startPos+2 < message.Length` | the rotation at startPos 7 of the 9-byte position message: 9 < 9 fails, although bytes 7 and 8 exist | `startPos + 2 <= message.Length` | medium, not executed; the client passes its 128-byte receive buffer, so the assertion fires only for a message passed as built | Messages.ExtractFloat | Messages.CorrectedReaderAgrees |
| as4-networking/Assets/Assets/Scripts/ServerNetworkScript.cs:368 | the avatar depends only on the number of connected clients | client 1 (Flora) and client 2 (Tommy) join, client 1 leaves, client 3 joins and also gets Tommy | give the avatar that no connected client plays | high, not executed | ServerConnections.ReconnectDuplicatesAvatar | ServerConnections.FreeAvatarKeepsAvatarsDistinct |
| as3-physics/Assets/Assets/PhysicsScripts/PPhysicsEngine.cs:124 | `previousIntegrateTime = startIntegrateTime` stores the step just taken, not the time | UpdatePhysics at times 0.02, 0.04, 0.06 takes steps 0.02, 0.02, 0.04 | store the time of the call, so that each step is the interval since the previous call (the line's own comment) | high, not executed | PhysicsEngine.StepsAsWrittenDrift | PhysicsEngine.TimeStepsCoverElapsedTime |
