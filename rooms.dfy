/** Rooms: a named member list with join, leave, temporary messages and
    screen-share signals, each fanned out to the members that are online.
    The records have the shape the room controller writes (`name`,
    `createdBy`, `members`). */
module Rooms {
  import opened Base
  import opened Lists
  import opened Socket

  datatype Room = Room(name: string, createdBy: UserId, members: seq<UserId>)

  datatype RoomMessage = RoomMessage(roomId: RecordId, sender: UserId, text: string, images: seq<string>)

  /** `new Room({name, createdBy: userId, members: [userId]})`. */
  function NewRoom(name: string, creator: UserId): (r: Room)
    ensures r.name == name && r.createdBy == creator && r.members == [creator]
    ensures NoDup(r.members)
  {
    Room(name, creator, [creator])
  }

  /** No two sockets are registered under one socket id: each connection
      registers a single user. */
  ghost predicate Injective(m: Registry) {
    forall a, b :: a in m && b in m && a != b ==> m[a] != m[b]
  }

  /** The join fan-out runs over the list after the guarded push, so the
      joiner, when online, is sent its own join event; repeating the join
      changes the list no further. */
  lemma JoinReachesJoiner(m: Registry, members: seq<UserId>, roomId: RecordId, u: UserId)
    requires u in m
    ensures Emission(Socket(m[u]), UserJoinedRoom(roomId, u)) in Deliveries(m, AddIfAbsent(members, u), UserJoinedRoom(roomId, u))
    ensures AddIfAbsent(AddIfAbsent(members, u), u) == AddIfAbsent(members, u)
  {
    DeliveriesReachOnlineMembers(m, AddIfAbsent(members, u), UserJoinedRoom(roomId, u));
  }

  /** The leave fan-out runs over the list after the splice; when the list
      was duplicate-free the leaver is no longer in it, so no event reaches
      the leaver's socket. */
  lemma LeaveSkipsLeaver(m: Registry, members: seq<UserId>, roomId: RecordId, u: UserId)
    requires NoDup(members) && Injective(m) && u in m
    ensures Emission(Socket(m[u]), UserLeftRoom(roomId, u)) !in Deliveries(m, RemoveFirst(members, u), UserLeftRoom(roomId, u))
  {
    var rest := RemoveFirst(members, u);
    RemoveFirstNoDup(members, u);
    DeliveriesReachOnlineMembers(m, rest, UserLeftRoom(roomId, u));
  }

  /** The creator is an ordinary member: leaving removes it like anyone
      else, so a room can end with no members while `createdBy` stays. */
  lemma {:induction false} CreatorMayLeave(name: string, creator: UserId)
    ensures RemoveFirst(NewRoom(name, creator).members, creator) == []
    ensures NewRoom(name, creator).createdBy == creator
  {
    assert IndexOf([creator], creator) == 0;
  }

  /** Every member list is duplicate-free. */
  ghost predicate AllNoDup(rooms: map<RecordId, Room>) {
    forall id :: id in rooms ==> NoDup(rooms[id].members)
  }

  /** Storing a room with a duplicate-free list keeps every list so. */
  lemma AllNoDupUpdate(rooms: map<RecordId, Room>, id: RecordId, room: Room)
    requires AllNoDup(rooms) && NoDup(room.members)
    ensures AllNoDup(rooms[id := room])
  {
  }

  /** Splicing one user out of a room keeps every list duplicate-free and
      leaves the user in none of that room's slots; when the user was absent
      the collection is unchanged. */
  lemma LeaveKeepsNoDup(rooms: map<RecordId, Room>, id: RecordId, u: UserId)
    requires AllNoDup(rooms) && id in rooms
    ensures var left := rooms[id].(members := RemoveFirst(rooms[id].members, u));
      AllNoDup(rooms[id := left]) && u !in left.members
      && (IndexOf(rooms[id].members, u) == -1 ==> rooms[id := left] == rooms)
  {
    var left := rooms[id].(members := RemoveFirst(rooms[id].members, u));
    RemoveFirstNoDup(rooms[id].members, u);
    AllNoDupUpdate(rooms, id, left);
  }

  /** The room and room-message collections. */
  class RoomStore {
    var rooms: map<RecordId, Room>
    var messages: map<RecordId, RoomMessage>

    constructor ()
      ensures rooms == map[] && messages == map[]
    {
      rooms := map[];
      messages := map[];
    }

    /** Every member list is duplicate-free: the creator starts it, join
        pushes only absent ids and leave only removes. */
    ghost predicate Valid()
      reads this
    {
      AllNoDup(rooms)
    }

    /** `createRoom`: store a room whose only member is the creator and
        announce it to every connection. `id` is the fresh document id. */
    method CreateRoom(hub: Hub, id: RecordId, roomName: string, userId: UserId) returns (code: Code, room: Room)
      requires id !in rooms
      requires Valid()
      modifies this`rooms, hub`outbox
      ensures Valid()
      ensures code == Created && room == NewRoom(roomName, userId)
      ensures rooms == old(rooms)[id := room]
      ensures hub.outbox == old(hub.outbox) + [Emission(Everyone, RoomCreated(id, roomName, userId, [userId]))]
    {
      room := NewRoom(roomName, userId);
      rooms := rooms[id := room];
      hub.Broadcast(RoomCreated(id, roomName, userId, [userId]));
      code := Created;
    }

    /** `joinRoom`: 404 for an unknown room; otherwise push the user when
        absent and send userJoinedRoom to every online member of the list,
        the joiner included, whether or not the list changed. */
    method JoinRoom(hub: Hub, roomId: RecordId, userId: UserId) returns (code: Code)
      requires Valid()
      modifies this`rooms, hub`outbox
      ensures Valid()
      ensures code == NotFound <==> roomId !in old(rooms)
      ensures code == NotFound ==> rooms == old(rooms) && hub.outbox == old(hub.outbox)
      ensures code != NotFound ==>
        code == Ok
        && rooms == old(rooms)[roomId := old(rooms)[roomId].(members := AddIfAbsent(old(rooms)[roomId].members, userId))]
        && hub.outbox == old(hub.outbox) + Deliveries(hub.userSocketMap, rooms[roomId].members, UserJoinedRoom(roomId, userId))
    {
      if roomId !in rooms {
        return NotFound;
      }
      var room := rooms[roomId];
      ghost var joined := room.(members := AddIfAbsent(room.members, userId));
      if userId !in room.members {
        room := room.(members := room.members + [userId]);
        AllNoDupUpdate(rooms, roomId, room);
        rooms := rooms[roomId := room];
      }
      assert room == joined && rooms == old(rooms)[roomId := joined];
      hub.FanOut(room.members, UserJoinedRoom(roomId, userId));
      code := Ok;
    }

    /** `leaveRoom`: 404 for an unknown room; otherwise splice out the first
        occurrence of the user, if any, and send userLeftRoom to every online
        member that remains, whether or not the user was a member. */
    method LeaveRoom(hub: Hub, roomId: RecordId, userId: UserId) returns (code: Code)
      requires Valid()
      modifies this`rooms, hub`outbox
      ensures Valid()
      ensures code == NotFound <==> roomId !in old(rooms)
      ensures code == NotFound ==> rooms == old(rooms) && hub.outbox == old(hub.outbox)
      ensures code != NotFound ==>
        code == Ok
        && rooms == old(rooms)[roomId := old(rooms)[roomId].(members := RemoveFirst(old(rooms)[roomId].members, userId))]
        && userId !in rooms[roomId].members
        && hub.outbox == old(hub.outbox) + Deliveries(hub.userSocketMap, rooms[roomId].members, UserLeftRoom(roomId, userId))
    {
      if roomId !in rooms {
        return NotFound;
      }
      var room := rooms[roomId];
      LeaveKeepsNoDup(rooms, roomId, userId);
      if IndexOf(room.members, userId) != -1 {
        room := room.(members := RemoveFirst(room.members, userId));
        rooms := rooms[roomId := room];
      }
      hub.FanOut(room.members, UserLeftRoom(roomId, userId));
      code := Ok;
    }

    /** `sendRoomMessage`: the message is saved first, with no check that
        the sender is a member; then it goes to every online member. An
        unknown room fails (500) after the message is already saved.
        `msgId` is the fresh document id. */
    method SendRoomMessage(hub: Hub, msgId: RecordId, roomId: RecordId, senderId: UserId, text: string, images: seq<string>)
      returns (code: Code)
      requires msgId !in messages
      modifies this`messages, hub`outbox
      ensures messages == old(messages)[msgId := RoomMessage(roomId, senderId, text, images)]
      ensures code == ServerError <==> roomId !in rooms
      ensures code == ServerError ==> hub.outbox == old(hub.outbox)
      ensures code != ServerError ==>
        code == Created
        && hub.outbox == old(hub.outbox) + Deliveries(hub.userSocketMap, rooms[roomId].members, NewRoomMessage(msgId, roomId, senderId, text))
    {
      messages := messages[msgId := RoomMessage(roomId, senderId, text, images)];
      if roomId !in rooms {
        return ServerError;
      }
      hub.FanOut(rooms[roomId].members, NewRoomMessage(msgId, roomId, senderId, text));
      code := Created;
    }

    /** `startScreenShare`: no stored state; screenShareStarted goes to the
        online members. An unknown room fails (500). */
    method StartScreenShare(hub: Hub, roomId: RecordId, userId: UserId) returns (code: Code)
      modifies hub`outbox
      ensures code == ServerError <==> roomId !in rooms
      ensures code == ServerError ==> hub.outbox == old(hub.outbox)
      ensures code != ServerError ==>
        code == Ok
        && hub.outbox == old(hub.outbox) + Deliveries(hub.userSocketMap, rooms[roomId].members, ScreenShareStarted(roomId, userId))
    {
      if roomId !in rooms {
        return ServerError;
      }
      hub.FanOut(rooms[roomId].members, ScreenShareStarted(roomId, userId));
      code := Ok;
    }

    /** `stopScreenShare`: as start, with screenShareStopped. */
    method StopScreenShare(hub: Hub, roomId: RecordId, userId: UserId) returns (code: Code)
      modifies hub`outbox
      ensures code == ServerError <==> roomId !in rooms
      ensures code == ServerError ==> hub.outbox == old(hub.outbox)
      ensures code != ServerError ==>
        code == Ok
        && hub.outbox == old(hub.outbox) + Deliveries(hub.userSocketMap, rooms[roomId].members, ScreenShareStopped(roomId, userId))
    {
      if roomId !in rooms {
        return ServerError;
      }
      hub.FanOut(rooms[roomId].members, ScreenShareStopped(roomId, userId));
      code := Ok;
    }

    /** `getAllParticipants`: the whole stored member list, online or not;
        None (404) for an unknown room. */
    function GetAllParticipants(roomId: RecordId): (r: Option<seq<UserId>>)
      reads this
      ensures r.None? <==> roomId !in rooms
      ensures r.Some? ==> r.value == rooms[roomId].members
    {
      if roomId in rooms then Some(rooms[roomId].members) else None
    }
  }
}
