/** Reply threads of posts and reels: top-level replies are sub-documents
    with an id and a likes list; replies to a reply are plain objects nested
    under it, with neither. `getAllReplies` projects a thread for the
    response, adding a like count to every reply. */
module Threads {
  import opened Base
  import opened Lists

  datatype Reply = Reply(
    id: Option<RecordId>,
    userId: UserId,
    text: string,
    likes: Option<seq<UserId>>,
    replies: seq<Reply>)

  /** A reply pushed onto a post's or reel's own replies: the sub-document
      gets an id and the schema's empty likes and replies lists. */
  function TopLevelReply(id: RecordId, userId: UserId, text: string): (r: Reply)
    ensures r.id == Some(id) && r.userId == userId && r.text == text
    ensures r.likes == Some([]) && r.replies == []
  {
    Reply(Some(id), userId, text, Some([]), [])
  }

  /** A reply to a reply: a plain object with an empty replies list and no
      id or likes. */
  function NestedReply(userId: UserId, text: string): (r: Reply)
    ensures r.id.None? && r.likes.None? && r.replies == []
    ensures r.userId == userId && r.text == text
  {
    Reply(None, userId, text, None, [])
  }

  /** `replies.findIndex(r => r._id.toString() === replyId)`: the first
      top-level reply with that id, or -1. */
  function FindReply(rs: seq<Reply>, replyId: RecordId): (r: int)
    ensures -1 <= r < |rs|
    ensures r == -1 <==> forall i :: 0 <= i < |rs| ==> rs[i].id != Some(replyId)
    ensures 0 <= r ==> rs[r].id == Some(replyId) && forall j :: 0 <= j < r ==> rs[j].id != Some(replyId)
  {
    if rs == [] then -1
    else if rs[0].id == Some(replyId) then 0
    else
      var k := FindReply(rs[1..], replyId);
      if k == -1 then -1 else k + 1
  }

  /** The like toggle on one reply of a thread: `findIndex` + `splice` when
      the user is in the reply's likes, `push` otherwise. No other reply and
      no other field changes. */
  function ToggleReplyLike(rs: seq<Reply>, i: nat, u: UserId): (r: seq<Reply>)
    requires i < |rs| && rs[i].likes.Some?
    ensures |r| == |rs|
    ensures forall j :: 0 <= j < |rs| && j != i ==> r[j] == rs[j]
    ensures r[i].id == rs[i].id && r[i].userId == rs[i].userId && r[i].text == rs[i].text && r[i].replies == rs[i].replies
    ensures r[i].likes == Some(Toggle(rs[i].likes.value, u))
    ensures u in rs[i].likes.value ==> |r[i].likes.value| == |rs[i].likes.value| - 1
    ensures u !in rs[i].likes.value ==> r[i].likes.value == rs[i].likes.value + [u]
    ensures forall v :: v != u ==> multiset(r[i].likes.value)[v] == multiset(rs[i].likes.value)[v]
  {
    rs[i := rs[i].(likes := Some(Toggle(rs[i].likes.value, u)))]
  }

  /** Liking a reply and unliking it again restores the thread exactly. */
  lemma ToggleReplyLikeTwice(rs: seq<Reply>, i: nat, u: UserId)
    requires i < |rs| && rs[i].likes.Some? && u !in rs[i].likes.value
    ensures ToggleReplyLike(ToggleReplyLike(rs, i, u), i, u) == rs
  {
    ToggleTwiceAbsent(rs[i].likes.value, u);
    assert ToggleReplyLike(ToggleReplyLike(rs, i, u), i, u)[i] == rs[i];
  }

  /** One projected reply of `getAllReplies`. */
  datatype ReplyView = ReplyView(
    id: Option<RecordId>,
    userId: UserId,
    text: string,
    likes: Option<seq<UserId>>,
    totalLikes: nat,
    replies: seq<ReplyView>)

  /** `reply.likes ? reply.likes.length : 0`. */
  function TotalLikes(likes: Option<seq<UserId>>): (n: nat)
    ensures likes.None? ==> n == 0
    ensures likes.Some? ==> n == |likes.value|
  {
    if likes.Some? then |likes.value| else 0
  }

  /** `getAllReplies`: the same replies in the same order at every level,
      each with its like count. */
  function GetAllReplies(rs: seq<Reply>): (r: seq<ReplyView>)
    ensures |r| == |rs|
    ensures forall i :: 0 <= i < |rs| ==>
      r[i].id == rs[i].id && r[i].userId == rs[i].userId && r[i].text == rs[i].text
      && r[i].likes == rs[i].likes && r[i].totalLikes == TotalLikes(rs[i].likes)
      && |r[i].replies| == |rs[i].replies|
    decreases rs
  {
    if rs == [] then []
    else
      assert rs[0] in rs;
      [ReplyView(rs[0].id, rs[0].userId, rs[0].text, rs[0].likes, TotalLikes(rs[0].likes), GetAllReplies(rs[0].replies))]
      + GetAllReplies(rs[1..])
  }

  /** The inverse projection: drop every like count. */
  function Restore(vs: seq<ReplyView>): (r: seq<Reply>)
    ensures |r| == |vs|
    decreases vs
  {
    if vs == [] then []
    else
      assert vs[0] in vs;
      [Reply(vs[0].id, vs[0].userId, vs[0].text, vs[0].likes, Restore(vs[0].replies))] + Restore(vs[1..])
  }

  /** Every like count in a projection agrees with the likes it carries, at
      every nesting level. */
  ghost predicate CountsAgree(vs: seq<ReplyView>)
    decreases vs
  {
    forall i :: 0 <= i < |vs| ==>
      vs[i].totalLikes == TotalLikes(vs[i].likes) && CountsAgree(vs[i].replies)
  }

  /** `getAllReplies` loses nothing: dropping the counts gives the thread
      back, so count, order and content are kept at every level. */
  lemma {:induction false} GetAllRepliesRoundTrip(rs: seq<Reply>)
    ensures Restore(GetAllReplies(rs)) == rs
    decreases rs
  {
    if rs != [] {
      var r := rs[0];
      assert r in rs;
      GetAllRepliesRoundTrip(r.replies);
      GetAllRepliesRoundTrip(rs[1..]);
      GetAllRepliesCons(rs);
      RestoreCons(GetAllReplies(rs));
      assert rs == [r] + rs[1..];
    }
  }

  /** One unfolding of `GetAllReplies` on a non-empty thread. */
  lemma GetAllRepliesCons(rs: seq<Reply>)
    requires rs != []
    ensures GetAllReplies(rs)[0] == ReplyView(rs[0].id, rs[0].userId, rs[0].text, rs[0].likes, TotalLikes(rs[0].likes), GetAllReplies(rs[0].replies))
    ensures GetAllReplies(rs)[1..] == GetAllReplies(rs[1..])
  {
  }

  /** One unfolding of `Restore` on a non-empty projection. */
  lemma RestoreCons(vs: seq<ReplyView>)
    requires vs != []
    ensures Restore(vs) == [Reply(vs[0].id, vs[0].userId, vs[0].text, vs[0].likes, Restore(vs[0].replies))] + Restore(vs[1..])
  {
  }

  /** The counts `getAllReplies` adds are right at every level. */
  lemma {:induction false} GetAllRepliesCountsAgree(rs: seq<Reply>)
    ensures CountsAgree(GetAllReplies(rs))
    decreases rs
  {
    var vs := GetAllReplies(rs);
    forall i | 0 <= i < |vs|
      ensures vs[i].totalLikes == TotalLikes(vs[i].likes) && CountsAgree(vs[i].replies)
    {
      assert rs[i] in rs;
      GetAllRepliesCountsAgree(rs[i].replies);
      assert vs[i].replies == GetAllReplies(rs[i].replies) by {
        GetAllRepliesAt(rs, i);
      }
    }
  }

  /** The i-th projected reply carries the projection of the i-th reply's
      own replies. */
  lemma {:induction false} GetAllRepliesAt(rs: seq<Reply>, i: nat)
    requires i < |rs|
    ensures GetAllReplies(rs)[i].replies == GetAllReplies(rs[i].replies)
    decreases i
  {
    if i > 0 {
      GetAllRepliesAt(rs[1..], i - 1);
      assert GetAllReplies(rs)[i] == GetAllReplies(rs[1..])[i - 1];
    }
  }
}
