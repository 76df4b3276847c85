/** Posts: owner-only update and delete, the post like toggle with its
    counter, and the reply thread (new replies go to the front). */
module Posts {
  import opened Base
  import opened Lists
  import opened Likes
  import opened Threads
  import opened Socket
  import opened Notifications

  /** The stored fields the handlers read or write. The update handler also
      writes a `category`, which the post schema does not declare (it has
      `catagory`), so that write has no effect and the model carries no
      category. */
  datatype Post = Post(
    user: UserId,
    name: string,
    description: seq<string>,
    images: seq<string>,
    replies: seq<Reply>,
    numOfLikes: int)

  /** `updatepostbyid`'s field updates: name and description only when
      given (a description string is stored as a one-element list), images
      only when files were uploaded; owner, replies and counter stay. */
  function EditedPost(p: Post, name: string, description: string, images: seq<string>): (r: Post)
    ensures r.user == p.user && r.replies == p.replies && r.numOfLikes == p.numOfLikes
    ensures r.name == (if name != "" then name else p.name)
    ensures r.description == (if description != "" then [description] else p.description)
    ensures r.images == (if |images| > 0 then images else p.images)
  {
    p.(name := OrElse(name, p.name),
       description := if description != "" then [description] else p.description,
       images := if |images| > 0 then images else p.images)
  }

  /** Each post's counter equals the number of like records about it. */
  ghost predicate CountedIn(posts: map<RecordId, Post>, likes: seq<Like>) {
    forall id :: id in posts ==> posts[id].numOfLikes == CountFor(likes, id)
  }

  /** The like toggle keeps every counter equal to its like records: the
      counter of the liked post moves with its count, and a like about a
      missing post touches no counter of an existing one. */
  lemma LikeKeepsCounted(posts: map<RecordId, Post>, likes: seq<Like>, userId: UserId, postId: RecordId)
    requires CountedIn(posts, likes)
    ensures var likes' := Toggle(likes, Like(userId, postId));
      postId !in posts ==> CountedIn(posts, likes')
    ensures postId in posts ==>
      var likes' := Toggle(likes, Like(userId, postId));
      var p := posts[postId];
      var n := p.numOfLikes + (if Like(userId, postId) in likes then -1 else 1);
      CountedIn(posts[postId := p.(numOfLikes := n)], likes') && n == CountFor(likes', postId)
  {
    var key := Like(userId, postId);
    forall id
      ensures CountFor(Toggle(likes, key), id) == CountFor(likes, id) + (if id != postId then 0 else if key in likes then -1 else 1)
    {
      CountForToggle(likes, key, id);
    }
  }

  /** The post and post-like collections. */
  class PostStore {
    var posts: map<RecordId, Post>
    var likes: seq<Like>

    constructor (initial: map<RecordId, Post>)
      ensures posts == initial && likes == []
    {
      posts := initial;
      likes := [];
    }

    /** `updatepostbyid`: 404 when missing, 403 unless the requester owns
        the post, checked before any change; otherwise `EditedPost`. */
    method UpdatePostById(postId: RecordId, userId: UserId, name: string, description: string, images: seq<string>)
      returns (code: Code)
      modifies this`posts
      ensures code == NotFound <==> postId !in old(posts)
      ensures code == Forbidden <==> postId in old(posts) && old(posts)[postId].user != userId
      ensures code != Ok ==> posts == old(posts)
      ensures code == Ok ==> posts == old(posts)[postId := EditedPost(old(posts)[postId], name, description, images)]
      ensures code in {Ok, NotFound, Forbidden}
      ensures CountedIn(old(posts), old(likes)) ==> CountedIn(posts, likes)
    {
      if postId !in posts {
        return NotFound;
      }
      if posts[postId].user != userId {
        return Forbidden;
      }
      posts := posts[postId := EditedPost(posts[postId], name, description, images)];
      code := Ok;
    }

    /** `deletepostbyid`: 404 when missing, 403 unless the requester owns
        the post; otherwise the post goes (its like records stay). */
    method DeletePostById(postId: RecordId, userId: UserId) returns (code: Code)
      modifies this`posts
      ensures code == NotFound <==> postId !in old(posts)
      ensures code == Forbidden <==> postId in old(posts) && old(posts)[postId].user != userId
      ensures code != Ok ==> posts == old(posts)
      ensures code == Ok ==> posts == old(posts) - {postId}
      ensures code in {Ok, NotFound, Forbidden}
      ensures CountedIn(old(posts), old(likes)) ==> CountedIn(posts, likes)
    {
      if postId !in posts {
        return NotFound;
      }
      if posts[postId].user != userId {
        return Forbidden;
      }
      posts := posts - {postId};
      code := Ok;
    }

    /** `likeProduct`: the (user, post) like record is deleted when it
        exists and created otherwise, before the post is looked up, so a
        missing post answers 404 with the like store already changed. For an
        existing post the counter moves by one, the answer is max(0,
        counter), and a like or unlike notification is stored and pushed
        to the owner when online. */
    method LikeProduct(hub: Hub, log: NotificationLog, postId: RecordId, userId: UserId)
      returns (code: Code, numOfLikes: int)
      modifies this, hub`outbox, log
      ensures likes == Toggle(old(likes), Like(userId, postId))
      ensures code == NotFound <==> postId !in old(posts)
      ensures code == NotFound ==> posts == old(posts) && hub.outbox == old(hub.outbox) && log.items == old(log.items)
      ensures code != NotFound ==>
        var liked := Like(userId, postId) !in old(likes);
        var p := old(posts)[postId];
        var n := p.numOfLikes + (if liked then 1 else -1);
        var note := Notification(userId, p.user, if liked then LikePost else UnlikePost, Some(postId));
        code == Ok
        && posts == old(posts)[postId := p.(numOfLikes := n)]
        && numOfLikes == Max(0, n)
        && log.items == old(log.items) + [note]
        && hub.outbox == old(hub.outbox) + DeliverOne(hub.userSocketMap, p.user, NewNotification(note))
      ensures CountedIn(old(posts), old(likes)) ==> CountedIn(posts, likes)
      ensures CountedIn(old(posts), old(likes)) && code == Ok ==> numOfLikes == CountFor(likes, postId)
    {
      var key := Like(userId, postId);
      var existing := key in likes;
      ghost var posts0, likes0 := posts, likes;
      likes := Toggle(likes, key);
      if postId !in posts {
        if CountedIn(posts0, likes0) {
          LikeKeepsCounted(posts0, likes0, userId, postId);
        }
        return NotFound, 0;
      }
      var p := posts[postId];
      var n := p.numOfLikes + (if existing then -1 else 1);
      posts := posts[postId := p.(numOfLikes := n)];
      numOfLikes := Max(0, n);
      var note := Notification(userId, p.user, if existing then UnlikePost else LikePost, Some(postId));
      log.Create(note);
      var _ := hub.SendTo(p.user, NewNotification(note));
      code := Ok;
      if CountedIn(posts0, likes0) {
        LikeKeepsCounted(posts0, likes0, userId, postId);
        assert p.numOfLikes == CountFor(likes0, postId);
      }
    }

    /** `replyToPost`: 400 without text, 404 for an unknown post; otherwise
        the new reply becomes the first of the post's replies, and a
        notification is stored and pushed to the owner when online. */
    method ReplyToPost(hub: Hub, log: NotificationLog, postId: RecordId, userId: UserId, text: string, replyId: RecordId)
      returns (code: Code, replies: seq<Reply>)
      modifies this`posts, hub`outbox, log
      ensures code == BadRequest <==> text == ""
      ensures code == NotFound <==> text != "" && postId !in old(posts)
      ensures code != Ok ==> posts == old(posts) && hub.outbox == old(hub.outbox) && log.items == old(log.items)
      ensures code == Ok ==>
        var p := old(posts)[postId];
        var note := Notification(userId, p.user, NotificationKind.ReplyToPost, Some(postId));
        replies == [TopLevelReply(replyId, userId, text)] + p.replies
        && posts == old(posts)[postId := p.(replies := replies)]
        && log.items == old(log.items) + [note]
        && hub.outbox == old(hub.outbox) + DeliverOne(hub.userSocketMap, p.user, NewNotification(note))
      ensures code in {Ok, BadRequest, NotFound}
    {
      if text == "" {
        return BadRequest, [];
      }
      if postId !in posts {
        return NotFound, [];
      }
      var p := posts[postId];
      replies := [TopLevelReply(replyId, userId, text)] + p.replies;
      posts := posts[postId := p.(replies := replies)];
      var note := Notification(userId, p.user, NotificationKind.ReplyToPost, Some(postId));
      log.Create(note);
      var _ := hub.SendTo(p.user, NewNotification(note));
      code := Ok;
    }

    /** `replyToReply`: 400 without text or post id, 404 for an unknown post
        or parent reply; otherwise the new reply goes to the front of the
        parent's nested replies, the parent's author is notified, and the
        answer is the projected thread. */
    method ReplyToReply(hub: Hub, log: NotificationLog, postId: RecordId, replyId: RecordId, userId: UserId, text: string)
      returns (code: Code, thread: seq<ReplyView>)
      modifies this`posts, hub`outbox, log
      ensures code == BadRequest <==> text == "" || postId == ""
      ensures code == NotFound <==>
        text != "" && postId != "" && (postId !in old(posts) || FindReply(old(posts)[postId].replies, replyId) == -1)
      ensures code != Ok ==> posts == old(posts) && hub.outbox == old(hub.outbox) && log.items == old(log.items)
      ensures code == Ok ==>
        var p := old(posts)[postId];
        var i := FindReply(p.replies, replyId);
        var parent := p.replies[i];
        var note := Notification(userId, parent.userId, NotificationKind.ReplyToReply, Some(postId));
        posts == old(posts)[postId := p.(replies := p.replies[i := parent.(replies := [NestedReply(userId, text)] + parent.replies)])]
        && thread == GetAllReplies(posts[postId].replies)
        && log.items == old(log.items) + [note]
        && hub.outbox == old(hub.outbox) + DeliverOne(hub.userSocketMap, parent.userId, NewNotification(note))
      ensures code in {Ok, BadRequest, NotFound}
    {
      if text == "" || postId == "" {
        return BadRequest, [];
      }
      if postId !in posts {
        return NotFound, [];
      }
      var p := posts[postId];
      var i := FindReply(p.replies, replyId);
      if i == -1 {
        return NotFound, [];
      }
      var parent := p.replies[i];
      var replies := p.replies[i := parent.(replies := [NestedReply(userId, text)] + parent.replies)];
      posts := posts[postId := p.(replies := replies)];
      var note := Notification(userId, parent.userId, NotificationKind.ReplyToReply, Some(postId));
      log.Create(note);
      var _ := hub.SendTo(parent.userId, NewNotification(note));
      thread := GetAllReplies(replies);
      code := Ok;
    }

    /** `likeOrUnlikeReply`: an unknown post or reply (and a reply without a
        likes list) fails with 500 and changes nothing; otherwise the user
        is toggled in that reply's likes and the projected thread is the
        answer. */
    method LikeOrUnlikeReply(postId: RecordId, replyId: RecordId, userId: UserId)
      returns (code: Code, thread: seq<ReplyView>)
      modifies this`posts
      ensures code == ServerError <==>
        postId !in old(posts)
        || FindReply(old(posts)[postId].replies, replyId) == -1
        || old(posts)[postId].replies[FindReply(old(posts)[postId].replies, replyId)].likes.None?
      ensures code == ServerError ==> posts == old(posts)
      ensures code != ServerError ==>
        var p := old(posts)[postId];
        code == Ok
        && posts == old(posts)[postId := p.(replies := ToggleReplyLike(p.replies, FindReply(p.replies, replyId), userId))]
        && thread == GetAllReplies(posts[postId].replies)
    {
      if postId !in posts {
        return ServerError, [];
      }
      var p := posts[postId];
      var i := FindReply(p.replies, replyId);
      if i == -1 || p.replies[i].likes.None? {
        return ServerError, [];
      }
      var replies := ToggleReplyLike(p.replies, i, userId);
      posts := posts[postId := p.(replies := replies)];
      thread := GetAllReplies(replies);
      code := Ok;
    }
  }

  /** Liking a post and then unliking it restores the like store, and the
      counter comes back to where it was. */
  lemma LikeThenUnlikeRestores(likes: seq<Like>, userId: UserId, postId: RecordId)
    requires Like(userId, postId) !in likes
    ensures Toggle(Toggle(likes, Like(userId, postId)), Like(userId, postId)) == likes
    ensures CountFor(Toggle(likes, Like(userId, postId)), postId) == CountFor(likes, postId) + 1
  {
    ToggleTwiceAbsent(likes, Like(userId, postId));
    CountForToggle(likes, Like(userId, postId), postId);
  }

  /** A reply added to a post heads its thread, and the projected thread
      shows it first with no likes. */
  lemma NewReplyHeadsThread(replies: seq<Reply>, replyId: RecordId, userId: UserId, text: string)
    ensures var t := GetAllReplies([TopLevelReply(replyId, userId, text)] + replies);
      |t| == |replies| + 1 && t[0].id == Some(replyId) && t[0].totalLikes == 0 && t[0].replies == []
  {
    GetAllRepliesAt([TopLevelReply(replyId, userId, text)] + replies, 0);
  }
}
