/** The REST versions of the four voice-call signals: both users must exist,
    the party to be signalled must be online, and then the route does what
    the matching socket handler does. */
module CallRoutes {
  import opened Base
  import opened Calls
  import opened Socket
  import opened Users

  /** `POST /voiceCallRequest`: 404 when either user is unknown or the
      recipient is offline (and nothing is stored); otherwise signal the
      recipient, store a new initiated call and answer 200. */
  method RequestRoute(hub: Hub, store: CallStore, directory: UserStore, callerId: UserId, recipientId: UserId, now: Time)
    returns (code: Code)
    modifies hub`outbox, store
    ensures code == Ok <==> callerId in directory.users && recipientId in directory.users && recipientId in hub.userSocketMap
    ensures code != Ok ==> code == NotFound && hub.outbox == old(hub.outbox) && store.calls == old(store.calls)
    ensures code == Ok ==>
      hub.outbox == old(hub.outbox) + [Emission(Socket(hub.userSocketMap[recipientId]), VoiceCallRequest(callerId))]
      && store.calls == old(store.calls) + [NewCall(callerId, recipientId, now)]
  {
    if callerId !in directory.users || recipientId !in directory.users {
      return NotFound;
    }
    if recipientId !in hub.userSocketMap {
      return NotFound;
    }
    OnVoiceCallRequest(hub, store, callerId, recipientId, now);
    code := Ok;
  }

  /** `POST /voiceCallAccepted`: with both users known and the caller
      online, signal the caller and accept the first initiated call from
      caller to recipient; 404 otherwise. */
  method AcceptedRoute(hub: Hub, store: CallStore, directory: UserStore, callerId: UserId, recipientId: UserId, now: Time)
    returns (code: Code)
    modifies hub`outbox, store
    ensures code == Ok <==> callerId in directory.users && recipientId in directory.users && callerId in hub.userSocketMap
    ensures code != Ok ==> code == NotFound && hub.outbox == old(hub.outbox) && store.calls == old(store.calls)
    ensures code == Ok ==>
      hub.outbox == old(hub.outbox) + [Emission(Socket(hub.userSocketMap[callerId]), VoiceCallAccepted(recipientId))]
      && store.calls == UpdateFirst(old(store.calls), Directed(callerId, recipientId, Initiated), Accept(now))
  {
    if callerId !in directory.users || recipientId !in directory.users {
      return NotFound;
    }
    if callerId !in hub.userSocketMap {
      return NotFound;
    }
    OnVoiceCallAccepted(hub, store, recipientId, callerId, now);
    code := Ok;
  }

  /** `POST /voiceCallEnded`: with both users known and the peer online,
      signal the peer and end the first accepted call between the two, in
      either direction; 404 otherwise. */
  method EndedRoute(hub: Hub, store: CallStore, directory: UserStore, userId: UserId, peerId: UserId, now: Time)
    returns (code: Code)
    modifies hub`outbox, store
    ensures code == Ok <==> userId in directory.users && peerId in directory.users && peerId in hub.userSocketMap
    ensures code != Ok ==> code == NotFound && hub.outbox == old(hub.outbox) && store.calls == old(store.calls)
    ensures code == Ok ==>
      hub.outbox == old(hub.outbox) + [Emission(Socket(hub.userSocketMap[peerId]), VoiceCallEnded(userId))]
      && store.calls == UpdateFirst(old(store.calls), EitherWay(userId, peerId, Accepted), End(now))
  {
    if userId !in directory.users || peerId !in directory.users {
      return NotFound;
    }
    if peerId !in hub.userSocketMap {
      return NotFound;
    }
    OnVoiceCallEnded(hub, store, userId, peerId, now);
    code := Ok;
  }

  /** `POST /voiceCallRejected`: with both users known and the caller
      online, signal the caller and reject the first initiated call from
      caller to recipient; 404 otherwise. */
  method RejectedRoute(hub: Hub, store: CallStore, directory: UserStore, callerId: UserId, recipientId: UserId, now: Time)
    returns (code: Code)
    modifies hub`outbox, store
    ensures code == Ok <==> callerId in directory.users && recipientId in directory.users && callerId in hub.userSocketMap
    ensures code != Ok ==> code == NotFound && hub.outbox == old(hub.outbox) && store.calls == old(store.calls)
    ensures code == Ok ==>
      hub.outbox == old(hub.outbox) + [Emission(Socket(hub.userSocketMap[callerId]), VoiceCallRejected(recipientId))]
      && store.calls == UpdateFirst(old(store.calls), Directed(callerId, recipientId, Initiated), Reject(now))
  {
    if callerId !in directory.users || recipientId !in directory.users {
      return NotFound;
    }
    if callerId !in hub.userSocketMap {
      return NotFound;
    }
    OnVoiceCallRejected(hub, store, recipientId, callerId, now);
    code := Ok;
  }
}
