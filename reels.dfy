/** Reels: owner-only update, delete, the reel like toggle with its counter,
    and the reply thread (new replies go to the end). */
module Reels {
  import opened Base
  import opened Lists
  import opened Likes
  import opened Threads

  datatype Reel = Reel(user: UserId, images: seq<string>, replies: seq<Reply>, numOfLikes: int)

  /** Each reel's counter equals the number of like records about it. */
  ghost predicate CountedIn(reels: map<RecordId, Reel>, likes: seq<Like>) {
    forall id :: id in reels ==> reels[id].numOfLikes == CountFor(likes, id)
  }

  /** The like toggle keeps every counter equal to its like records. */
  lemma LikeKeepsCounted(reels: map<RecordId, Reel>, likes: seq<Like>, userId: UserId, reelId: RecordId)
    requires CountedIn(reels, likes)
    ensures var likes' := Toggle(likes, Like(userId, reelId));
      reelId !in reels ==> CountedIn(reels, likes')
    ensures reelId in reels ==>
      var likes' := Toggle(likes, Like(userId, reelId));
      var r := reels[reelId];
      var n := r.numOfLikes + (if Like(userId, reelId) in likes then -1 else 1);
      CountedIn(reels[reelId := r.(numOfLikes := n)], likes') && n == CountFor(likes', reelId)
  {
    var key := Like(userId, reelId);
    forall id
      ensures CountFor(Toggle(likes, key), id) == CountFor(likes, id) + (if id != reelId then 0 else if key in likes then -1 else 1)
    {
      CountForToggle(likes, key, id);
    }
  }

  /** `deleteReelById` as written: the reel is deleted by id first, and the
      owner check only chooses the answer, so a non-owner gets 403 with the
      reel already gone. */
  function DeleteAsWritten(reels: map<RecordId, Reel>, reelId: RecordId, userId: UserId): (r: (Code, map<RecordId, Reel>))
    ensures reelId !in reels ==> r == (NotFound, reels)
    ensures reelId in reels ==> r.1 == reels - {reelId}
    ensures reelId in reels ==> (r.0 == Forbidden <==> reels[reelId].user != userId)
    ensures reelId in reels ==> (r.0 == Ok <==> reels[reelId].user == userId)
  {
    if reelId !in reels then (NotFound, reels)
    else if reels[reelId].user != userId then (Forbidden, reels - {reelId})
    else (Ok, reels - {reelId})
  }

  /** The delete the 403 answer intends: the owner check comes before the
      deletion, so only the owner can delete. */
  function DeleteGuarded(reels: map<RecordId, Reel>, reelId: RecordId, userId: UserId): (r: (Code, map<RecordId, Reel>))
    ensures r.0 != Ok ==> r.1 == reels
    ensures r.0 == Ok <==> reelId in reels && reels[reelId].user == userId
    ensures r.0 == Ok ==> r.1 == reels - {reelId}
    ensures r.0 == NotFound <==> reelId !in reels
  {
    if reelId !in reels then (NotFound, reels)
    else if reels[reelId].user != userId then (Forbidden, reels)
    else (Ok, reels - {reelId})
  }

  /** A non-owner's delete answers 403 in both versions, but as written the
      reel is gone; with the check first it stays. */
  lemma NonOwnerDeleteRemovesReel(reels: map<RecordId, Reel>, reelId: RecordId, userId: UserId)
    requires reelId in reels && reels[reelId].user != userId
    ensures DeleteAsWritten(reels, reelId, userId).0 == Forbidden
    ensures reelId !in DeleteAsWritten(reels, reelId, userId).1
    ensures DeleteGuarded(reels, reelId, userId) == (Forbidden, reels)
    ensures reelId in DeleteGuarded(reels, reelId, userId).1
  {
  }

  /** The reel and reel-like collections. */
  class ReelStore {
    var reels: map<RecordId, Reel>
    var likes: seq<Like>

    constructor (initial: map<RecordId, Reel>)
      ensures reels == initial && likes == []
    {
      reels := initial;
      likes := [];
    }

    /** `updateReelById`: 404 when missing, 401 unless the requester owns
        the reel, both before any change; otherwise the images are replaced
        as `ReplacedImages` says. */
    method UpdateReelById(reelId: RecordId, userId: UserId, bodyImages: Option<seq<string>>, files: seq<string>)
      returns (code: Code)
      modifies this`reels
      ensures code == NotFound <==> reelId !in old(reels)
      ensures code == Unauthorized <==> reelId in old(reels) && old(reels)[reelId].user != userId
      ensures code != Ok ==> reels == old(reels)
      ensures code == Ok ==>
        reels == old(reels)[reelId := old(reels)[reelId].(images := ReplacedImages(old(reels)[reelId].images, bodyImages, files))]
      ensures code in {Ok, NotFound, Unauthorized}
      ensures CountedIn(old(reels), likes) ==> CountedIn(reels, likes)
    {
      if reelId !in reels {
        return NotFound;
      }
      var r := reels[reelId];
      if r.user != userId {
        return Unauthorized;
      }
      reels := reels[reelId := r.(images := ReplacedImages(r.images, bodyImages, files))];
      code := Ok;
    }

    /** `deleteReelById` as the handler is written. */
    method DeleteReelById(reelId: RecordId, userId: UserId) returns (code: Code)
      modifies this`reels
      ensures (code, reels) == DeleteAsWritten(old(reels), reelId, userId)
      ensures code == Forbidden ==> reelId in old(reels) && reelId !in reels
    {
      if reelId !in reels {
        return NotFound;
      }
      var deleted := reels[reelId];
      reels := reels - {reelId};
      if deleted.user != userId {
        return Forbidden;
      }
      code := Ok;
    }

    /** The owner-checked delete. */
    method DeleteReelByIdGuarded(reelId: RecordId, userId: UserId) returns (code: Code)
      modifies this`reels
      ensures (code, reels) == DeleteGuarded(old(reels), reelId, userId)
      ensures code != Ok ==> reels == old(reels)
      ensures CountedIn(old(reels), likes) ==> CountedIn(reels, likes)
    {
      if reelId !in reels {
        return NotFound;
      }
      if reels[reelId].user != userId {
        return Forbidden;
      }
      reels := reels - {reelId};
      code := Ok;
    }

    /** `likeReel`: the (user, reel) like record is deleted when it exists
        and created otherwise, before the reel is looked up, so a missing
        reel answers 404 with the like store already changed. For an
        existing reel the counter moves by one; the answer is max(0,
        counter) after an unlike and max(1, counter) after a like. */
    method LikeReel(reelId: RecordId, userId: UserId) returns (code: Code, numOfLikes: int)
      modifies this
      ensures likes == Toggle(old(likes), Like(userId, reelId))
      ensures code == NotFound <==> reelId !in old(reels)
      ensures code == NotFound ==> reels == old(reels)
      ensures code != NotFound ==>
        var liked := Like(userId, reelId) !in old(likes);
        var r := old(reels)[reelId];
        var n := r.numOfLikes + (if liked then 1 else -1);
        code == Ok
        && reels == old(reels)[reelId := r.(numOfLikes := n)]
        && numOfLikes == (if liked then Max(1, n) else Max(0, n))
      ensures CountedIn(old(reels), old(likes)) ==> CountedIn(reels, likes)
      ensures CountedIn(old(reels), old(likes)) && code == Ok ==> numOfLikes == CountFor(likes, reelId)
    {
      var key := Like(userId, reelId);
      var existing := key in likes;
      ghost var reels0, likes0 := reels, likes;
      likes := Toggle(likes, key);
      if reelId !in reels {
        if CountedIn(reels0, likes0) {
          LikeKeepsCounted(reels0, likes0, userId, reelId);
        }
        return NotFound, 0;
      }
      var r := reels[reelId];
      var n := r.numOfLikes + (if existing then -1 else 1);
      reels := reels[reelId := r.(numOfLikes := n)];
      numOfLikes := if existing then Max(0, n) else Max(1, n);
      if CountedIn(reels0, likes0) {
        LikeKeepsCounted(reels0, likes0, userId, reelId);
        assert r.numOfLikes == CountFor(likes0, reelId);
      }
      code := Ok;
    }

    /** `replyToreel`: 400 without text, 404 for an unknown reel; otherwise
        the reply is appended to the reel's replies and is the answer. */
    method ReplyToReel(reelId: RecordId, userId: UserId, text: string, replyId: RecordId)
      returns (code: Code, reply: Reply)
      modifies this`reels
      ensures code == BadRequest <==> text == ""
      ensures code == NotFound <==> text != "" && reelId !in old(reels)
      ensures code != Ok ==> reels == old(reels)
      ensures code == Ok ==>
        reply == TopLevelReply(replyId, userId, text)
        && reels == old(reels)[reelId := old(reels)[reelId].(replies := old(reels)[reelId].replies + [reply])]
      ensures code in {Ok, BadRequest, NotFound}
      ensures CountedIn(old(reels), likes) ==> CountedIn(reels, likes)
    {
      reply := TopLevelReply(replyId, userId, text);
      if text == "" {
        return BadRequest, reply;
      }
      if reelId !in reels {
        return NotFound, reply;
      }
      var r := reels[reelId];
      reels := reels[reelId := r.(replies := r.replies + [reply])];
      code := Ok;
    }

    /** `replyToReply`: 400 without text or reel id, 404 for an unknown reel
        or parent reply; otherwise the reply is appended to the parent's
        nested replies. */
    method ReplyToReply(reelId: RecordId, replyId: RecordId, userId: UserId, text: string) returns (code: Code)
      modifies this`reels
      ensures code == BadRequest <==> text == "" || reelId == ""
      ensures code == NotFound <==>
        text != "" && reelId != "" && (reelId !in old(reels) || FindReply(old(reels)[reelId].replies, replyId) == -1)
      ensures code != Ok ==> reels == old(reels)
      ensures code == Ok ==>
        var r := old(reels)[reelId];
        var i := FindReply(r.replies, replyId);
        var parent := r.replies[i];
        reels == old(reels)[reelId := r.(replies := r.replies[i := parent.(replies := parent.replies + [NestedReply(userId, text)])])]
      ensures code in {Ok, BadRequest, NotFound}
    {
      if text == "" || reelId == "" {
        return BadRequest;
      }
      if reelId !in reels {
        return NotFound;
      }
      var r := reels[reelId];
      var i := FindReply(r.replies, replyId);
      if i == -1 {
        return NotFound;
      }
      var parent := r.replies[i];
      reels := reels[reelId := r.(replies := r.replies[i := parent.(replies := parent.replies + [NestedReply(userId, text)])])];
      code := Ok;
    }

    /** `likeOrUnlikeReply`: an unknown reel or reply (and a reply without a
        likes list) fails with 500 and changes nothing; otherwise the user
        is toggled in the reply's likes and the answer is the new length. */
    method LikeOrUnlikeReply(reelId: RecordId, replyId: RecordId, userId: UserId) returns (code: Code, totalLikes: nat)
      modifies this`reels
      ensures code == ServerError <==>
        reelId !in old(reels)
        || FindReply(old(reels)[reelId].replies, replyId) == -1
        || old(reels)[reelId].replies[FindReply(old(reels)[reelId].replies, replyId)].likes.None?
      ensures code == ServerError ==> reels == old(reels)
      ensures code != ServerError ==>
        var r := old(reels)[reelId];
        var i := FindReply(r.replies, replyId);
        code == Ok
        && reels == old(reels)[reelId := r.(replies := ToggleReplyLike(r.replies, i, userId))]
        && totalLikes == |reels[reelId].replies[i].likes.value|
    {
      if reelId !in reels {
        return ServerError, 0;
      }
      var r := reels[reelId];
      var i := FindReply(r.replies, replyId);
      if i == -1 || r.replies[i].likes.None? {
        return ServerError, 0;
      }
      var replies := ToggleReplyLike(r.replies, i, userId);
      reels := reels[reelId := r.(replies := replies)];
      totalLikes := |replies[i].likes.value|;
      code := Ok;
    }
  }
}
