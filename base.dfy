/** Shared vocabulary of the social backend: identifiers, response codes,
    the events that go out over the socket server, and notification records.
    Every identifier (user, socket, document) is an opaque string compared
    only for equality. */
module Base {

  type UserId = string
  type SocketId = string
  /** The identifier of any stored document (room, call, post, reply, ...). */
  type RecordId = string
  /** An opaque clock reading, passed in wherever the source calls `new Date()`. */
  type Time = int

  datatype Option<T> = None | Some(value: T)

  /** The HTTP status a handler answers with. */
  datatype Code =
    | Ok            // 200
    | Created       // 201
    | BadRequest    // 400
    | Unauthorized  // 401
    | Forbidden     // 403
    | NotFound      // 404
    | ServerError   // 500

  datatype NotificationKind =
    | Follow | Unfollow | LikePost | UnlikePost | ReplyToPost | ReplyToReply
    | LikeStory | ReplyToStory

  /** A stored notification; `subject` is the post or story it is about, if any. */
  datatype Notification = Notification(
    sender: UserId,
    receiver: UserId,
    kind: NotificationKind,
    subject: Option<RecordId>)

  /** The payloads the server emits. */
  datatype Event =
    | GetOnlineUsers(users: set<UserId>)
    | VoiceCallRequest(callerId: UserId)
    | VoiceCallAccepted(recipientId: UserId)
    | VoiceCallRejected(recipientId: UserId)
    | VoiceCallEnded(userId: UserId)
    | RoomCreated(roomId: RecordId, name: string, createdBy: UserId, members: seq<UserId>)
    | UserJoinedRoom(roomId: RecordId, userId: UserId)
    | UserLeftRoom(roomId: RecordId, userId: UserId)
    | NewRoomMessage(messageId: RecordId, roomId: RecordId, sender: UserId, text: string)
    | ScreenShareStarted(roomId: RecordId, userId: UserId)
    | ScreenShareStopped(roomId: RecordId, userId: UserId)
    | NewCommunityMessage(messageId: RecordId, communityId: RecordId, sender: UserId, text: string)
    | NewNotification(notification: Notification)
    | NewReply(userId: UserId, text: string)

  /** `io.emit` goes to every connection, `io.to(socket).emit` to one. */
  datatype Target = Everyone | Socket(id: SocketId)

  /** One entry of the server's outbox. */
  datatype Emission = Emission(target: Target, event: Event)

  /** JavaScript's `a || b` on strings: the empty string is falsy. */
  function OrElse(a: string, b: string): (r: string)
    ensures r == a || r == b
    ensures a != "" ==> r == a
    ensures a == "" ==> r == b
  {
    if a != "" then a else b
  }

  /** The image replacement of the reel and story update handlers: a list of
      names in the body replaces the images, and uploaded files, when there
      are any, replace them again. */
  function ReplacedImages(images: seq<string>, bodyImages: Option<seq<string>>, files: seq<string>): (r: seq<string>)
    ensures |files| > 0 ==> r == files
    ensures |files| == 0 && bodyImages.Some? ==> r == bodyImages.value
    ensures |files| == 0 && bodyImages.None? ==> r == images
  {
    var afterBody := if bodyImages.Some? then bodyImages.value else images;
    if |files| > 0 then files else afterBody
  }
}
