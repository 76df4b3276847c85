/** The socket server: the process-wide map from user id to socket id, the
    outbox every `emit` appends to, and the four voice-call handlers a
    connection registers. */
module Socket {
  import opened Base
  import opened Calls

  /** The query-string value a client sends when it has no user id. */
  const UndefinedUser: UserId := "undefined"

  type Registry = map<UserId, SocketId>

  /** The connection handler's update of the map: the last connection of a
      user wins, and the literal "undefined" is never registered. */
  function Registered(m: Registry, userId: UserId, socketId: SocketId): (r: Registry)
    ensures userId != UndefinedUser ==> userId in r && r[userId] == socketId
    ensures userId == UndefinedUser ==> r == m
    ensures forall v :: v != userId ==> (v in r <==> v in m) && (v in r ==> r[v] == m[v])
  {
    if userId != UndefinedUser then m[userId := socketId] else m
  }

  /** The disconnect handler's update: the entry of the user goes, whichever
      socket it names. */
  function Unregistered(m: Registry, userId: UserId): (r: Registry)
    ensures userId !in r
    ensures forall v :: v != userId ==> (v in r <==> v in m) && (v in r ==> r[v] == m[v])
  {
    m - {userId}
  }

  /** A connection of a user followed by its disconnection leaves no entry
      for the user, even if a later connection of the same user replaced the
      socket in between; the roster broadcast then omits the user. */
  lemma DisconnectForgetsLatestSocket(m: Registry, u: UserId, s1: SocketId, s2: SocketId)
    ensures u !in Unregistered(Registered(Registered(m, u, s1), u, s2), u)
    ensures u !in Unregistered(Registered(m, u, s1), u).Keys
  {
  }

  /** The directed send of one event to a user: one emission to the user's
      socket when the user is online, nothing otherwise. */
  function DeliverOne(m: Registry, u: UserId, ev: Event): (r: seq<Emission>)
    ensures u in m ==> r == [Emission(Socket(m[u]), ev)]
    ensures u !in m ==> r == []
  {
    if u in m then [Emission(Socket(m[u]), ev)] else []
  }

  /** The `members.forEach(...)` fan-out: one directed send per member, in
      member order. */
  function Deliveries(m: Registry, members: seq<UserId>, ev: Event): seq<Emission>
    decreases |members|
  {
    if members == [] then []
    else Deliveries(m, members[..|members| - 1], ev) + DeliverOne(m, members[|members| - 1], ev)
  }

  /** A fan-out reaches exactly the members that have a registry entry: every
      emission carries the event to the socket of an online member, and every
      online member's socket gets one. */
  lemma {:induction false} DeliveriesReachOnlineMembers(m: Registry, members: seq<UserId>, ev: Event)
    ensures forall e :: e in Deliveries(m, members, ev) ==>
      e.event == ev && e.target.Socket? && exists u :: u in members && u in m && m[u] == e.target.id
    ensures forall u :: u in members && u in m ==> Emission(Socket(m[u]), ev) in Deliveries(m, members, ev)
  {
    if members != [] {
      var init := members[..|members| - 1];
      var last := members[|members| - 1];
      DeliveriesReachOnlineMembers(m, init, ev);
      assert members == init + [last];
      forall e | e in Deliveries(m, members, ev)
        ensures e.event == ev && e.target.Socket? && exists u :: u in members && u in m && m[u] == e.target.id
      {
        if e in Deliveries(m, init, ev) {
          var u :| u in init && u in m && m[u] == e.target.id;
          assert u in members;
        } else {
          assert last in members;
        }
      }
    }
  }

  /** No member that is offline is sent anything. */
  lemma DeliveriesSkipOffline(m: Registry, members: seq<UserId>, ev: Event)
    requires forall u :: u in members ==> u !in m
    ensures Deliveries(m, members, ev) == []
  {
    DeliveriesReachOnlineMembers(m, members, ev);
  }

  /** The server object: the user-to-socket map and the outbox of emits. */
  class Hub {
    var userSocketMap: Registry
    var outbox: seq<Emission>

    constructor ()
      ensures userSocketMap == map[] && outbox == []
    {
      userSocketMap := map[];
      outbox := [];
    }

    /** `getRecipientSocketId`: a plain read of the map. */
    function GetRecipientSocketId(u: UserId): (r: Option<SocketId>)
      reads this
      ensures r.Some? <==> u in userSocketMap
      ensures r.Some? ==> r.value == userSocketMap[u]
    {
      if u in userSocketMap then Some(userSocketMap[u]) else None
    }

    /** The connection handler: register, then broadcast the roster, which is
        exactly the key set of the map after the update. */
    method Connect(userId: UserId, socketId: SocketId)
      modifies this
      ensures userSocketMap == Registered(old(userSocketMap), userId, socketId)
      ensures outbox == old(outbox) + [Emission(Everyone, GetOnlineUsers(userSocketMap.Keys))]
    {
      if userId != UndefinedUser {
        userSocketMap := userSocketMap[userId := socketId];
      }
      outbox := outbox + [Emission(Everyone, GetOnlineUsers(userSocketMap.Keys))];
    }

    /** The disconnect handler: delete by user id, then broadcast the roster. */
    method Disconnect(userId: UserId)
      modifies this
      ensures userSocketMap == Unregistered(old(userSocketMap), userId)
      ensures outbox == old(outbox) + [Emission(Everyone, GetOnlineUsers(userSocketMap.Keys))]
    {
      userSocketMap := userSocketMap - {userId};
      outbox := outbox + [Emission(Everyone, GetOnlineUsers(userSocketMap.Keys))];
    }

    /** `io.emit(event)`. */
    method Broadcast(ev: Event)
      modifies this`outbox
      ensures outbox == old(outbox) + [Emission(Everyone, ev)]
    {
      outbox := outbox + [Emission(Everyone, ev)];
    }

    /** Look the user up and, if online, `io.to(socket).emit(event)`. */
    method SendTo(u: UserId, ev: Event) returns (delivered: bool)
      modifies this`outbox
      ensures delivered <==> u in userSocketMap
      ensures outbox == old(outbox) + DeliverOne(userSocketMap, u, ev)
    {
      delivered := u in userSocketMap;
      if delivered {
        outbox := outbox + [Emission(Socket(userSocketMap[u]), ev)];
      }
    }

    /** `members.forEach(m => { if online, emit to m })`. */
    method FanOut(members: seq<UserId>, ev: Event)
      modifies this`outbox
      ensures outbox == old(outbox) + Deliveries(userSocketMap, members, ev)
    {
      var i := 0;
      while i < |members|
        invariant 0 <= i <= |members|
        invariant outbox == old(outbox) + Deliveries(userSocketMap, members[..i], ev)
      {
        assert members[..i + 1][..i] == members[..i];
        var _ := SendTo(members[i], ev);
        i := i + 1;
      }
      assert members[..i] == members;
    }
  }

  /** `voiceCallRequest` from the connected user: when the recipient is
      online, signal it and store one new initiated call; otherwise nothing. */
  method OnVoiceCallRequest(hub: Hub, store: CallStore, userId: UserId, recipientId: UserId, now: Time)
    modifies hub`outbox, store
    ensures recipientId in hub.userSocketMap ==>
      hub.outbox == old(hub.outbox) + [Emission(Socket(hub.userSocketMap[recipientId]), VoiceCallRequest(userId))]
      && store.calls == old(store.calls) + [NewCall(userId, recipientId, now)]
    ensures recipientId !in hub.userSocketMap ==>
      hub.outbox == old(hub.outbox) && store.calls == old(store.calls)
  {
    var online := hub.SendTo(recipientId, VoiceCallRequest(userId));
    if online {
      store.Create(userId, recipientId, now);
    }
  }

  /** `voiceCallAccepted`: when the caller is online, signal it and accept
      the first initiated call from the caller to the connected user. */
  method OnVoiceCallAccepted(hub: Hub, store: CallStore, userId: UserId, callerId: UserId, now: Time)
    modifies hub`outbox, store
    ensures callerId in hub.userSocketMap ==>
      hub.outbox == old(hub.outbox) + [Emission(Socket(hub.userSocketMap[callerId]), VoiceCallAccepted(userId))]
      && store.calls == UpdateFirst(old(store.calls), Directed(callerId, userId, Initiated), Accept(now))
    ensures callerId !in hub.userSocketMap ==>
      hub.outbox == old(hub.outbox) && store.calls == old(store.calls)
  {
    var online := hub.SendTo(callerId, VoiceCallAccepted(userId));
    if online {
      store.UpdateOne(Directed(callerId, userId, Initiated), Accept(now));
    }
  }

  /** `voiceCallRejected`: as accept, moving the call to rejected. */
  method OnVoiceCallRejected(hub: Hub, store: CallStore, userId: UserId, callerId: UserId, now: Time)
    modifies hub`outbox, store
    ensures callerId in hub.userSocketMap ==>
      hub.outbox == old(hub.outbox) + [Emission(Socket(hub.userSocketMap[callerId]), VoiceCallRejected(userId))]
      && store.calls == UpdateFirst(old(store.calls), Directed(callerId, userId, Initiated), Reject(now))
    ensures callerId !in hub.userSocketMap ==>
      hub.outbox == old(hub.outbox) && store.calls == old(store.calls)
  {
    var online := hub.SendTo(callerId, VoiceCallRejected(userId));
    if online {
      store.UpdateOne(Directed(callerId, userId, Initiated), Reject(now));
    }
  }

  /** `voiceCallEnded`: when the peer is online, signal it and end the first
      accepted call between the two users, in either direction. */
  method OnVoiceCallEnded(hub: Hub, store: CallStore, userId: UserId, peerId: UserId, now: Time)
    modifies hub`outbox, store
    ensures peerId in hub.userSocketMap ==>
      hub.outbox == old(hub.outbox) + [Emission(Socket(hub.userSocketMap[peerId]), VoiceCallEnded(userId))]
      && store.calls == UpdateFirst(old(store.calls), EitherWay(userId, peerId, Accepted), End(now))
    ensures peerId !in hub.userSocketMap ==>
      hub.outbox == old(hub.outbox) && store.calls == old(store.calls)
  {
    var online := hub.SendTo(peerId, VoiceCallEnded(userId));
    if online {
      store.UpdateOne(EitherWay(userId, peerId, Accepted), End(now));
    }
  }
}
