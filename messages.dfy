// The byte-level types the as4 networking code works with: C#'s byte and
// Int16.
module Bytes {

  newtype byte = x: int | 0 <= x < 256

  newtype int16 = x: int | -32768 <= x < 32768

  /**
   * BitConverter.GetBytes on an Int16: the two bytes of its 16-bit two's
   * complement form, low byte first (a little-endian host).
   */
  function Int16Bytes(n: int16): (b: seq<byte>)
    ensures |b| == 2
  {
    var u := if n < 0 then n as int + 65536 else n as int;
    [(u % 256) as byte, (u / 256) as byte]
  }

  /** BitConverter.ToInt16: the Int16 whose low byte is m[pos] and high byte m[pos + 1]. */
  function ToInt16(m: seq<byte>, pos: nat): int16
    requires pos + 1 < |m|
  {
    var u := m[pos] as int + 256 * m[pos + 1] as int;
    (if u >= 32768 then u - 65536 else u) as int16
  }

  /** Reading back the two bytes of an Int16 gives the Int16, wherever they sit. */
  lemma Int16RoundTrip(n: int16, prefix: seq<byte>, suffix: seq<byte>)
    ensures ToInt16(prefix + Int16Bytes(n) + suffix, |prefix|) == n
  {
    var m := prefix + Int16Bytes(n) + suffix;
    assert m[|prefix|] == Int16Bytes(n)[0] && m[|prefix| + 1] == Int16Bytes(n)[1];
  }

  /** Any two bytes are the encoding of the Int16 they are read as. */
  lemma Int16BytesOfRead(m: seq<byte>, pos: nat)
    requires pos + 1 < |m|
    ensures Int16Bytes(ToInt16(m, pos)) == m[pos..pos + 2]
  {
  }
}

// The message formats of the as4 game (class Messages in
// ServerNetworkScript.cs): three kinds of small byte arrays, built by the
// Create* methods and read by the Get*/Unmarshall* ones. Convert.ToInt16's
// rounding of the float coordinates happens before this model: the builders
// take the Int16 values it produced.
module Messages {
  import opened Bytes
  import AnimationInfo

  const SetPlayerIdType: byte := 1
  const UseAvatarType: byte := 2
  const SetAvatarPositionRotationType: byte := 3

  const MaxMessageSize: nat := 128

  const Flora: byte := 1
  const Tommy: byte := 2

  predicate IsMessageType(t: byte) {
    t == SetPlayerIdType || t == UseAvatarType || t == SetAvatarPositionRotationType
  }

  predicate IsAvatarId(a: byte) {
    a == Flora || a == Tommy
  }

  /** The avatar's name; every other id reads as an error text. */
  function AvatarIdToString(avatarId: byte): (s: string)
    ensures s == "Flora" <==> avatarId == Flora
    ensures s == "Tommy" <==> avatarId == Tommy
    ensures s == "Bad avatar id" <==> !IsAvatarId(avatarId)
  {
    if avatarId == Flora then "Flora"
    else if avatarId == Tommy then "Tommy"
    else "Bad avatar id"
  }

  /**
   * AddIntToByteArray: the two bytes of n go to m[count] and m[count + 1];
   * the returned counter is the advanced one.
   */
  method AddIntToByteArray(n: int16, m: array<byte>, count: nat) returns (newCount: nat)
    requires count + 2 <= m.Length
    modifies m
    ensures newCount == count + 2
    ensures m[..] == old(m[..])[..count] + Int16Bytes(n) + old(m[..])[count + 2..]
  {
    var b := Int16Bytes(n);
    newCount := count;
    var i := 0;
    while i < |b|
      invariant 0 <= i <= |b| && newCount == count + i
      invariant m[..] == old(m[..])[..count] + b[..i] + old(m[..])[count + i..]
    {
      m[newCount] := b[i];
      newCount := newCount + 1;
      i := i + 1;
    }
  }

  /** The 9-byte position message: type, avatar, movement state, then x, z and r as Int16s. */
  function PositionRotationMessage(avatarId: byte, movementState: byte, x: int16, z: int16, r: int16): seq<byte> {
    [SetAvatarPositionRotationType, avatarId, movementState] + Int16Bytes(x) + Int16Bytes(z) + Int16Bytes(r)
  }

  /**
   * CreateSetAvatarPositionRotationMessage, given x * 100, z * 100 and r
   * already converted to Int16. The message holds exactly those fields at
   * their offsets, and reads back as them.
   */
  method CreateSetAvatarPositionRotationMessage(avatarId: byte, x: int16, z: int16, r: int16, movementState: byte)
    returns (message: seq<byte>)
    requires IsAvatarId(avatarId)
    ensures message == PositionRotationMessage(avatarId, movementState, x, z, r)
    ensures |message| == 9 && message[0] == SetAvatarPositionRotationType
    ensures message[1] == avatarId && message[2] == movementState
    ensures ToInt16(message, 3) == x && ToInt16(message, 5) == z && ToInt16(message, 7) == r
  {
    var m := new byte[9];
    var count := 3;
    m[0] := SetAvatarPositionRotationType;
    m[1] := avatarId;
    m[2] := movementState;
    count := AddIntToByteArray(x, m, count);
    count := AddIntToByteArray(z, m, count);
    count := AddIntToByteArray(r, m, count);
    message := m[..];
    assert message == PositionRotationMessage(avatarId, movementState, x, z, r);
    PositionRotationFields(avatarId, movementState, x, z, r);
  }

  /** The fields of a position message are where the format puts them. */
  lemma PositionRotationFields(avatarId: byte, movementState: byte, x: int16, z: int16, r: int16)
    ensures var m := PositionRotationMessage(avatarId, movementState, x, z, r);
      && |m| == 9 && m[0] == SetAvatarPositionRotationType && m[1] == avatarId && m[2] == movementState
      && ToInt16(m, 3) == x && ToInt16(m, 5) == z && ToInt16(m, 7) == r
  {
    var head := [SetAvatarPositionRotationType, avatarId, movementState];
    var m := PositionRotationMessage(avatarId, movementState, x, z, r);
    Int16RoundTrip(x, head, Int16Bytes(z) + Int16Bytes(r));
    assert m == head + Int16Bytes(x) + (Int16Bytes(z) + Int16Bytes(r));
    Int16RoundTrip(z, head + Int16Bytes(x), Int16Bytes(r));
    Int16RoundTrip(r, head + Int16Bytes(x) + Int16Bytes(z), []);
    assert m == head + Int16Bytes(x) + Int16Bytes(z) + Int16Bytes(r) + [];
  }

  function UseAvatarMessage(avatarId: byte): seq<byte> {
    [UseAvatarType, avatarId]
  }

  /** CreateUseAvatarMessage: tells a client which avatar it plays. */
  method CreateUseAvatarMessage(avatarId: byte) returns (message: seq<byte>)
    requires IsAvatarId(avatarId)
    ensures message == UseAvatarMessage(avatarId)
    ensures GetMessageType(message) == UseAvatarType && GetAvatarIdFromMessage(message) == avatarId
  {
    var m := new byte[2];
    m[0] := UseAvatarType;
    m[1] := avatarId;
    message := m[..];
  }

  /** GetAvatarIdFromMessage: byte 1 of a use-avatar or position message. */
  function GetAvatarIdFromMessage(message: seq<byte>): (avatarId: byte)
    requires |message| >= 2
    requires IsMessageType(message[0])
    requires message[0] == UseAvatarType || message[0] == SetAvatarPositionRotationType
    requires IsAvatarId(message[1])
    ensures IsAvatarId(avatarId)
  {
    message[1]
  }

  function SetPlayerIdMessage(playerId: int): seq<byte>
    requires 0 <= playerId < 256
  {
    [SetPlayerIdType, playerId as byte]
  }

  /** CreateSetPlayerIdMessage: tells a client its player id, which must fit a byte. */
  method CreateSetPlayerIdMessage(playerId: int) returns (message: seq<byte>)
    requires 0 <= playerId < 256
    ensures message == SetPlayerIdMessage(playerId)
    ensures GetMessageType(message) == SetPlayerIdType && GetPlayerIdFromMessage(message) == playerId
  {
    var m := new byte[2];
    m[0] := SetPlayerIdType;
    m[1] := playerId as byte;
    message := m[..];
  }

  /** GetPlayerIdFromMessage: byte 1 of a set-player-id message, widened to int. */
  function GetPlayerIdFromMessage(message: seq<byte>): (playerId: int)
    requires |message| >= 2
    requires IsMessageType(message[0]) && message[0] == SetPlayerIdType
    ensures 0 <= playerId < 256 && SetPlayerIdMessage(playerId) == message[..2]
  {
    message[1] as int
  }

  /** GetMessageType: byte 0, which must be one of the three message types. */
  function GetMessageType(message: seq<byte>): (t: byte)
    requires |message| >= 1 && IsMessageType(message[0])
    ensures IsMessageType(t) && t == message[0]
  {
    message[0]
  }

  /** ExtractFloat as written: its check wants a byte beyond the two it reads. */
  function ExtractFloat(message: seq<byte>, startPos: int): (f: real)
    requires startPos >= 0 && startPos + 2 < |message|
    ensures f == ToInt16(message, startPos) as real && -32768.0 <= f < 32768.0
  {
    ToInt16(message, startPos) as real
  }

  /** What UnmarshallPositionRotationMessage hands back through its out parameters. */
  datatype PositionRotation = PositionRotation(avatarId: byte, x: real, z: real, r: real, m: byte)

  /** The checks UnmarshallPositionRotationMessage makes before it reads, as written. */
  predicate UnmarshallChecks(message: seq<byte>) {
    && |message| >= 14
    && IsMessageType(message[0]) && message[0] == SetAvatarPositionRotationType
    && IsAvatarId(message[1])
    && AnimationInfo.IsLegalMovementState(message[2])
  }

  /**
   * UnmarshallPositionRotationMessage as written: it demands at least 14
   * bytes, and reads x and z as hundredths and r as whole degrees.
   */
  function UnmarshallPositionRotationMessage(message: seq<byte>): (p: PositionRotation)
    requires UnmarshallChecks(message)
    ensures p.avatarId == message[1] && p.m == message[2] && IsAvatarId(p.avatarId)
    ensures p.x * 100.0 == ToInt16(message, 3) as real && p.z * 100.0 == ToInt16(message, 5) as real
    ensures p.r == ToInt16(message, 7) as real
  {
    PositionRotation(message[1], ExtractFloat(message, 3) / 100.0, ExtractFloat(message, 5) / 100.0,
                     ExtractFloat(message, 7), message[2])
  }

  /**
   * A position message as CreateSetAvatarPositionRotationMessage builds it
   * fails both checks of the reader as written: it is shorter than 14 bytes,
   * and the rotation at offset 7 is its last two bytes, which ExtractFloat's
   * check refuses.
   */
  lemma BuiltMessageFailsReaderChecks(avatarId: byte, movementState: byte, x: int16, z: int16, r: int16)
    ensures var m := PositionRotationMessage(avatarId, movementState, x, z, r);
      !UnmarshallChecks(m) && !(7 + 2 < |m|)
  {
    PositionRotationFields(avatarId, movementState, x, z, r);
  }

  /** ExtractFloat with the bound the read needs: its two bytes inside the message. */
  function ExtractInt16(message: seq<byte>, startPos: int): (f: real)
    requires startPos >= 0 && startPos + 2 <= |message|
    ensures f == ToInt16(message, startPos) as real
  {
    ToInt16(message, startPos) as real
  }

  /** The reader's checks with the length the format has: 9 bytes. */
  predicate PositionRotationChecks(message: seq<byte>) {
    && |message| >= 9
    && IsMessageType(message[0]) && message[0] == SetAvatarPositionRotationType
    && IsAvatarId(message[1])
    && AnimationInfo.IsLegalMovementState(message[2])
  }

  /** The reader with the corrected checks. */
  function UnmarshallPositionRotation(message: seq<byte>): (p: PositionRotation)
    requires PositionRotationChecks(message)
    ensures p.avatarId == message[1] && p.m == message[2]
  {
    PositionRotation(message[1], ExtractInt16(message, 3) / 100.0, ExtractInt16(message, 5) / 100.0,
                     ExtractInt16(message, 7), message[2])
  }

  /** Every message the as-written reader accepts, the corrected one reads the same way. */
  lemma CorrectedReaderAgrees(message: seq<byte>)
    requires UnmarshallChecks(message)
    ensures PositionRotationChecks(message)
    ensures UnmarshallPositionRotation(message) == UnmarshallPositionRotationMessage(message)
  {
  }

  /**
   * The round trip: a position message built for a legal movement state
   * passes the corrected reader's checks, and reads back as the avatar, the
   * state, the coordinates divided by 100 and the rotation.
   */
  lemma PositionRotationRoundTrip(avatarId: byte, movementState: byte, x: int16, z: int16, r: int16)
    requires IsAvatarId(avatarId) && AnimationInfo.IsLegalMovementState(movementState)
    ensures var m := PositionRotationMessage(avatarId, movementState, x, z, r);
      && PositionRotationChecks(m)
      && UnmarshallPositionRotation(m)
         == PositionRotation(avatarId, x as real / 100.0, z as real / 100.0, r as real, movementState)
  {
    PositionRotationFields(avatarId, movementState, x, z, r);
  }

  /** The two small messages read back as what they were built from. */
  lemma SmallMessagesRoundTrip(avatarId: byte, playerId: int)
    requires IsAvatarId(avatarId) && 0 <= playerId < 256
    ensures GetAvatarIdFromMessage(UseAvatarMessage(avatarId)) == avatarId
    ensures GetPlayerIdFromMessage(SetPlayerIdMessage(playerId)) == playerId
    ensures GetMessageType(UseAvatarMessage(avatarId)) == UseAvatarType
    ensures GetMessageType(SetPlayerIdMessage(playerId)) == SetPlayerIdType
  {
  }

  /**
   * A position message as the client receives it: the built message at the
   * start of the 128-byte receive buffer, followed by whatever the buffer
   * held. Both readers accept the buffer (the as-written length and offset
   * checks hold for it) and read back every field of the message.
   */
  lemma ReceivedPositionRoundTrip(avatarId: byte, movementState: byte, x: int16, z: int16, r: int16, rest: seq<byte>)
    requires IsAvatarId(avatarId) && AnimationInfo.IsLegalMovementState(movementState)
    requires |PositionRotationMessage(avatarId, movementState, x, z, r)| + |rest| == MaxMessageSize
    ensures var buffer := PositionRotationMessage(avatarId, movementState, x, z, r) + rest;
      var expected := PositionRotation(avatarId, x as real / 100.0, z as real / 100.0, r as real, movementState);
      && UnmarshallChecks(buffer) && UnmarshallPositionRotationMessage(buffer) == expected
      && PositionRotationChecks(buffer) && UnmarshallPositionRotation(buffer) == expected
  {
    var m := PositionRotationMessage(avatarId, movementState, x, z, r);
    var buffer := m + rest;
    PositionRotationFields(avatarId, movementState, x, z, r);
    assert buffer[..9] == m;
    assert forall k :: 0 <= k < 9 ==> buffer[k] == m[k];
  }
}

// The server's table of connected clients (ServerNetworkScript.connections):
// each connection id maps to the avatar its client was given. The table is
// kept as its entries in the order the dictionary enumerates them, which the
// model takes to be the order they were added in. The sends are recorded as
// emitted messages; the transport itself is not modelled.
module ServerConnections {
  import opened Bytes
  import opened Messages

  datatype Connection = Connection(id: int, avatar: byte)

  /** One NetworkTransport.Send: the connection it goes to and its bytes. */
  datatype Send = Send(connectionId: int, message: seq<byte>)

  /** No connection id occurs twice: the table is a dictionary. */
  predicate UniqueIds(t: seq<Connection>) {
    forall i, j :: 0 <= i < j < |t| ==> t[i].id != t[j].id
  }

  /** ContainsKey. */
  predicate HasId(t: seq<Connection>, id: int) {
    exists i :: 0 <= i < |t| && t[i].id == id
  }

  /** The avatar AddNewClient gives the next client: Flora when the table is empty, Tommy otherwise. */
  function AvatarFor(t: seq<Connection>): (a: byte)
    ensures IsAvatarId(a)
    ensures a == Flora <==> |t| == 0
  {
    if |t| == 0 then Flora else Tommy
  }

  /** The table after AddNewClient adds connection id. */
  function Added(t: seq<Connection>, id: int): seq<Connection> {
    t + [Connection(id, AvatarFor(t))]
  }

  /** The table after Remove(id): every other entry stays, in order. */
  function Removed(t: seq<Connection>, id: int): (r: seq<Connection>)
    ensures |r| <= |t|
  {
    if t == [] then []
    else if t[0].id == id then Removed(t[1..], id)
    else [t[0]] + Removed(t[1..], id)
  }

  /** The connections a movement message from `sender` is forwarded to, in enumeration order. */
  function Recipients(t: seq<Connection>, sender: int): seq<int> {
    if t == [] then []
    else (if t[0].id != sender then [t[0].id] else []) + Recipients(t[1..], sender)
  }

  /** No two connections play the same avatar. */
  predicate DistinctAvatars(t: seq<Connection>) {
    forall i, j :: 0 <= i < j < |t| ==> t[i].avatar != t[j].avatar
  }

  /** Forwarding reaches exactly the connections other than the sender. */
  lemma {:induction false} RecipientsAreOthers(t: seq<Connection>, sender: int, id: int)
    ensures id in Recipients(t, sender) <==> HasId(t, id) && id != sender
    decreases |t|
  {
    if t != [] {
      RecipientsAreOthers(t[1..], sender, id);
      if HasId(t, id) && id != t[0].id {
        var i :| 0 <= i < |t| && t[i].id == id;
        assert t[1..][i - 1].id == id;
      }
      if HasId(t[1..], id) {
        var i :| 0 <= i < |t[1..]| && t[1..][i].id == id;
        assert t[i + 1].id == id;
      }
    }
  }

  /**
   * Remove takes out exactly the given id: an entry stays in the table iff
   * its id differs, and ids stay unique.
   */
  lemma {:induction false} RemovedEntries(t: seq<Connection>, id: int, c: Connection)
    ensures c in Removed(t, id) <==> c in t && c.id != id
    decreases |t|
  {
    if t != [] {
      RemovedEntries(t[1..], id, c);
      assert t == [t[0]] + t[1..];
    }
  }

  lemma {:induction false} RemovedUnique(t: seq<Connection>, id: int)
    requires UniqueIds(t)
    ensures UniqueIds(Removed(t, id)) && !HasId(Removed(t, id), id)
    decreases |t|
  {
    if t != [] {
      RemovedUnique(t[1..], id);
      var rest := Removed(t[1..], id);
      if t[0].id != id {
        var r := [t[0]] + rest;
        forall i, j | 0 <= i < j < |r|
          ensures r[i].id != r[j].id
        {
          if i == 0 {
            RemovedEntries(t[1..], id, r[j]);
            var k :| 0 <= k < |t[1..]| && t[1..][k] == r[j];
            assert t[k + 1] == r[j];
          }
        }
        forall i | 0 < i < |r|
          ensures r[i].id != id
        {
          assert r[i] == rest[i - 1];
        }
      }
    }
  }

  /** Two clients joining an empty server get Flora and then Tommy. */
  lemma FirstTwoClientsGetBothAvatars(c1: int, c2: int)
    ensures Added(Added([], c1), c2) == [Connection(c1, Flora), Connection(c2, Tommy)]
    ensures DistinctAvatars(Added(Added([], c1), c2))
  {
  }

  /**
   * As written, the avatar depends only on how many clients remain: after
   * the Flora client leaves, the next client is given Tommy as well.
   */
  lemma ReconnectDuplicatesAvatar()
    ensures var left := Removed(Added(Added([], 1), 2), 1);
      && left == [Connection(2, Tommy)]
      && Added(left, 3) == [Connection(2, Tommy), Connection(3, Tommy)]
      && !DistinctAvatars(Added(left, 3))
  {
    var full := Added(Added([], 1), 2);
    assert full == [Connection(1, Flora), Connection(2, Tommy)];
    assert full[1..] == [Connection(2, Tommy)];
    assert full[1..][1..] == [];
    var t := Added([Connection(2, Tommy)], 3);
    assert t[0].avatar == t[1].avatar;
  }

  /** The avatar to give a new client: Flora unless a client already plays Flora. */
  function FreeAvatar(t: seq<Connection>): (a: byte)
    ensures IsAvatarId(a)
    ensures a == Tommy <==> exists i :: 0 <= i < |t| && t[i].avatar == Flora
  {
    if exists i :: 0 <= i < |t| && t[i].avatar == Flora then Tommy else Flora
  }

  /** AddNewClient with the free avatar instead of the count-based one. */
  function AddedFree(t: seq<Connection>, id: int): seq<Connection> {
    t + [Connection(id, FreeAvatar(t))]
  }

  /**
   * With the free avatar, a table of at most one client stays free of
   * duplicate avatars whatever came and went before; on an empty table it
   * gives what the as-written code gives.
   */
  lemma FreeAvatarKeepsAvatarsDistinct(t: seq<Connection>, id: int)
    requires |t| < 2
    requires forall i :: 0 <= i < |t| ==> IsAvatarId(t[i].avatar)
    ensures DistinctAvatars(AddedFree(t, id))
    ensures |t| == 0 ==> AddedFree(t, id) == Added(t, id)
  {
  }

  class ServerNetwork {
    var connections: seq<Connection>
    var sent: seq<Send>

    /** The server's own invariant: at most two clients, each with an avatar, no id twice. */
    ghost predicate Valid()
      reads this
    {
      |connections| <= 2 && UniqueIds(connections)
      && forall i :: 0 <= i < |connections| ==> IsAvatarId(connections[i].avatar)
    }

    constructor ()
      ensures Valid() && connections == [] && sent == []
    {
      connections, sent := [], [];
    }

    /**
     * AddNewClient, for fewer than two clients and a connection id not yet in
     * the table (the two conditions the source asserts): the client is
     * recorded with its avatar and sent that avatar's number as its player
     * id, then the avatar itself.
     */
    method AddNewClient(connectionId: int)
      requires Valid() && |connections| < 2 && !HasId(connections, connectionId)
      modifies this
      ensures Valid()
      ensures connections == Added(old(connections), connectionId)
      ensures sent == old(sent) + [Send(connectionId, SetPlayerIdMessage(AvatarFor(old(connections)) as int)),
                                   Send(connectionId, UseAvatarMessage(AvatarFor(old(connections))))]
    {
      var avatarForThisConnection := if |connections| == 0 then Flora else Tommy;
      connections := connections + [Connection(connectionId, avatarForThisConnection)];
      var m1 := CreateSetPlayerIdMessage(avatarForThisConnection as int);
      sent := sent + [Send(connectionId, m1)];
      var m2 := CreateUseAvatarMessage(avatarForThisConnection);
      sent := sent + [Send(connectionId, m2)];
    }

    /**
     * ForwardMovementMessage: the connections the message is sent to, in
     * enumeration order; every connection but the sender's.
     */
    method ForwardMovementMessage(senderConnectionId: int) returns (recipients: seq<int>)
      ensures recipients == Recipients(connections, senderConnectionId)
      ensures forall id :: id in recipients <==> HasId(connections, id) && id != senderConnectionId
    {
      recipients := [];
      var k := |connections|;
      while k > 0
        invariant 0 <= k <= |connections|
        invariant recipients == Recipients(connections[k..], senderConnectionId)
      {
        k := k - 1;
        if connections[k].id != senderConnectionId {
          recipients := [connections[k].id] + recipients;
        }
        assert connections[k..][1..] == connections[k + 1..];
      }
      assert connections[0..] == connections;
      forall id
        ensures id in recipients <==> HasId(connections, id) && id != senderConnectionId
      {
        RecipientsAreOthers(connections, senderConnectionId, id);
      }
    }

    /** The disconnect event: the connection leaves the table (if it was there). */
    method Disconnect(connectionId: int)
      requires Valid()
      modifies this
      ensures Valid() && connections == Removed(old(connections), connectionId) && sent == old(sent)
      ensures !HasId(connections, connectionId)
      ensures forall c :: c in connections <==> c in old(connections) && c.id != connectionId
    {
      ghost var before := connections;
      connections := Removed(connections, connectionId);
      RemovedUnique(before, connectionId);
      forall c
        ensures c in connections <==> c in before && c.id != connectionId
      {
        RemovedEntries(before, connectionId, c);
      }
      forall i | 0 <= i < |connections|
        ensures IsAvatarId(connections[i].avatar)
      {
        RemovedEntries(before, connectionId, connections[i]);
      }
    }
  }
}
