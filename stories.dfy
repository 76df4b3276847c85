/** Stories: at most one story per user (new images are merged into it),
    the listing that hides the requester's own story, seen marking, owner
    guards, the like toggle and replies. A story stores no like list: its
    `likes` is a virtual that loads the reel-like records whose `story`
    field holds the story's id. */
module Stories {
  import opened Base
  import opened Lists
  import opened Likes
  import opened Socket

  datatype StoryReply = StoryReply(userId: UserId, text: string)

  datatype Story = Story(user: UserId, images: seq<string>, seen: bool, replies: seq<StoryReply>)

  /** `Story.create({images, user})` with the schema defaults. */
  function NewStory(userId: UserId, images: seq<string>): (s: Story)
    ensures s.user == userId && s.images == images
    ensures !s.seen && s.replies == []
  {
    Story(userId, images, false, [])
  }

  /** No user owns two stories. */
  ghost predicate OneStoryPerUser(stories: map<RecordId, Story>) {
    forall a, b :: a in stories && b in stories && a != b ==> stories[a].user != stories[b].user
  }

  /** One listed story with its counts. */
  datatype StoryView = StoryView(story: Story, likesCount: nat, repliesCount: nat)

  /** `getAllStories`: with a requester, every story except the requester's
      own; without one, every story. `likesCount` is the length of the
      populated `likes` virtual, so it counts the reel-like records
      (`reelLikes`) naming the story's id, never the story-like records. */
  function ListStories(stories: map<RecordId, Story>, reelLikes: seq<Like>, requester: Option<UserId>): (r: map<RecordId, StoryView>)
    ensures forall id :: id in r <==> id in stories && (requester.None? || stories[id].user != requester.value)
    ensures forall id :: id in r ==>
      r[id].story == stories[id] && r[id].repliesCount == |stories[id].replies|
      && r[id].likesCount == CountFor(reelLikes, id)
  {
    map id | id in stories && (requester.None? || stories[id].user != requester.value) ::
      StoryView(stories[id], CountFor(reelLikes, id), |stories[id].replies|)
  }

  /** Whoever asks, a story is listed to everyone but its owner; with one
      story per user, the owner's listing is the anonymous listing minus
      exactly that story. */
  lemma OwnStoryHidden(stories: map<RecordId, Story>, reelLikes: seq<Like>, id: RecordId, other: UserId)
    requires id in stories && other != stories[id].user
    requires OneStoryPerUser(stories)
    ensures id !in ListStories(stories, reelLikes, Some(stories[id].user))
    ensures id in ListStories(stories, reelLikes, Some(other))
    ensures ListStories(stories, reelLikes, Some(stories[id].user)).Keys == ListStories(stories, reelLikes, None).Keys - {id}
  {
    var own := ListStories(stories, reelLikes, Some(stories[id].user));
    var all := ListStories(stories, reelLikes, None);
    assert own.Keys == all.Keys - {id} by {
      forall k ensures k in own.Keys <==> k in all.Keys - {id} {
        if k in stories && k != id {
          assert stories[k].user != stories[id].user;
        }
      }
    }
  }

  /** `Like.findOne({user, story})` then `deleteOne` or `save`: starting from
      at most one record per user and story, the toggle keeps it so, and
      afterwards the user likes the story exactly when it did not before. */
  lemma StoryLikeToggleKeepsOnePerUser(likes: seq<Like>, l: Like)
    requires NoDup(likes)
    ensures NoDup(Toggle(likes, l))
    ensures l in Toggle(likes, l) <==> l !in likes
  {
    if l in likes {
      RemoveFirstNoDup(likes, l);
    } else {
      assert Toggle(likes, l) == AddIfAbsent(likes, l);
    }
  }

  /** The like answer as written: the first like of a story that no
      reel-like record names is answered 0, while the story-like store has
      gained a record for it. */
  lemma StoryLikeAnswerIgnoresToggle(likes: seq<Like>, reelLikes: seq<Like>, storyId: RecordId, userId: UserId)
    requires Like(userId, storyId) !in likes && CountFor(likes, storyId) == 0
    requires CountFor(reelLikes, storyId) == 0
    ensures CountFor(Toggle(likes, Like(userId, storyId)), storyId) == 1
    ensures CountFor(reelLikes, storyId) == 0
  {
    CountForToggle(likes, Like(userId, storyId), storyId);
  }

  /** The story and story-like collections. */
  class StoryStore {
    var stories: map<RecordId, Story>
    var likes: seq<Like>

    constructor ()
      ensures stories == map[] && likes == []
    {
      stories := map[];
      likes := [];
    }

    /** `createStory`: when the user has a story, the uploaded images are
        appended to it (200); otherwise a story with exactly those images is
        created under the fresh id `newId` (201). Either way the user then
        has one story. */
    method CreateStory(newId: RecordId, userId: UserId, pictures: seq<string>) returns (code: Code)
      requires newId !in stories
      modifies this`stories
      ensures code == Ok <==> exists id :: id in old(stories) && old(stories)[id].user == userId
      ensures code == Ok ==> exists id ::
        id in old(stories) && old(stories)[id].user == userId
        && stories == old(stories)[id := old(stories)[id].(images := old(stories)[id].images + pictures)]
      ensures code != Ok ==> code == Created && stories == old(stories)[newId := NewStory(userId, pictures)]
      ensures OneStoryPerUser(old(stories)) ==> OneStoryPerUser(stories)
    {
      if id :| id in stories && stories[id].user == userId {
        var s := stories[id];
        stories := stories[id := s.(images := s.images + pictures)];
        code := Ok;
      } else {
        stories := stories[newId := NewStory(userId, pictures)];
        code := Created;
      }
    }

    /** `markStoryAsSeen`: sets seen only on the requester's own story;
        any other id answers 404 with no change. */
    method MarkStoryAsSeen(id: RecordId, userId: UserId) returns (code: Code)
      modifies this`stories
      ensures code == Ok <==> id in old(stories) && old(stories)[id].user == userId
      ensures code != Ok ==> code == NotFound && stories == old(stories)
      ensures code == Ok ==> stories == old(stories)[id := old(stories)[id].(seen := true)]
      ensures OneStoryPerUser(old(stories)) ==> OneStoryPerUser(stories)
    {
      if id !in stories || stories[id].user != userId {
        return NotFound;
      }
      stories := stories[id := stories[id].(seen := true)];
      code := Ok;
    }

    /** `updateStoryById`: 404 when missing, 401 unless the requester owns
        the story, both before any change; otherwise the images are
        replaced as `ReplacedImages` says. */
    method UpdateStoryById(id: RecordId, userId: UserId, bodyImages: Option<seq<string>>, files: seq<string>)
      returns (code: Code)
      modifies this`stories
      ensures code == NotFound <==> id !in old(stories)
      ensures code == Unauthorized <==> id in old(stories) && old(stories)[id].user != userId
      ensures code != Ok ==> stories == old(stories)
      ensures code == Ok ==>
        stories == old(stories)[id := old(stories)[id].(images := ReplacedImages(old(stories)[id].images, bodyImages, files))]
      ensures code in {Ok, NotFound, Unauthorized}
      ensures OneStoryPerUser(old(stories)) ==> OneStoryPerUser(stories)
    {
      if id !in stories {
        return NotFound;
      }
      var s := stories[id];
      if s.user != userId {
        return Unauthorized;
      }
      stories := stories[id := s.(images := ReplacedImages(s.images, bodyImages, files))];
      code := Ok;
    }

    /** `deleteStoryById`: 404 when missing, 403 unless the requester owns
        the story, both before the deletion. */
    method DeleteStoryById(id: RecordId, userId: UserId) returns (code: Code)
      modifies this`stories
      ensures code == NotFound <==> id !in old(stories)
      ensures code == Forbidden <==> id in old(stories) && old(stories)[id].user != userId
      ensures code != Ok ==> stories == old(stories)
      ensures code == Ok ==> stories == old(stories) - {id}
      ensures code in {Ok, NotFound, Forbidden}
      ensures OneStoryPerUser(old(stories)) ==> OneStoryPerUser(stories)
    {
      if id !in stories {
        return NotFound;
      }
      if stories[id].user != userId {
        return Forbidden;
      }
      stories := stories - {id};
      code := Ok;
    }

    /** `likeStory` as written: the user's story-like record is deleted when
        it exists and saved otherwise, before the story is read. The `$pull`
        and `$push` on `likes` name no stored field and change nothing, so a
        missing story fails (400) with the like store already changed, and
        the answer is the length of the populated virtual: the reel-like
        records naming the story, which the toggle never moves. The
        notification create lacks its required message and stores nothing,
        after the answer has been sent. */
    method LikeStory(reelLikes: seq<Like>, storyId: RecordId, userId: UserId) returns (code: Code, totalLikes: nat)
      modifies this`likes
      ensures likes == Toggle(old(likes), Like(userId, storyId))
      ensures code == BadRequest <==> storyId !in stories
      ensures code != BadRequest ==> code == Ok && totalLikes == CountFor(reelLikes, storyId)
      ensures NoDup(old(likes)) ==> NoDup(likes) && (Like(userId, storyId) in likes <==> Like(userId, storyId) !in old(likes))
    {
      if NoDup(likes) {
        StoryLikeToggleKeepsOnePerUser(likes, Like(userId, storyId));
      }
      likes := Toggle(likes, Like(userId, storyId));
      if storyId !in stories {
        return BadRequest, 0;
      }
      totalLikes := CountFor(reelLikes, storyId);
      code := Ok;
    }

    /** The like handler the answer intends: the same toggle and the same
        400 for a missing story, but the answer counts the story's own like
        records, so it rises by one on a like and falls by one on an
        unlike. */
    method LikeStoryCounted(storyId: RecordId, userId: UserId) returns (code: Code, totalLikes: nat)
      modifies this`likes
      ensures likes == Toggle(old(likes), Like(userId, storyId))
      ensures code == BadRequest <==> storyId !in stories
      ensures code != BadRequest ==>
        code == Ok && totalLikes == CountFor(likes, storyId)
        && totalLikes == CountFor(old(likes), storyId) + (if Like(userId, storyId) in old(likes) then -1 else 1)
    {
      CountForToggle(likes, Like(userId, storyId), storyId);
      likes := Toggle(likes, Like(userId, storyId));
      if storyId !in stories {
        return BadRequest, 0;
      }
      totalLikes := CountFor(likes, storyId);
      code := Ok;
    }

    /** `replyToStory`: 400 without text, 404 for an unknown story;
        otherwise the reply is appended and pushed to the owner as newReply
        when online. The notification create that follows lacks its
        required message and stores nothing, after the answer was sent. */
    method ReplyToStory(hub: Hub, storyId: RecordId, userId: UserId, text: string) returns (code: Code)
      modifies this`stories, hub`outbox
      ensures code == BadRequest <==> text == ""
      ensures code == NotFound <==> text != "" && storyId !in old(stories)
      ensures code != Ok ==> stories == old(stories) && hub.outbox == old(hub.outbox)
      ensures code == Ok ==>
        var s := old(stories)[storyId];
        stories == old(stories)[storyId := s.(replies := s.replies + [StoryReply(userId, text)])]
        && hub.outbox == old(hub.outbox) + DeliverOne(hub.userSocketMap, s.user, NewReply(userId, text))
      ensures code in {Ok, BadRequest, NotFound}
      ensures OneStoryPerUser(old(stories)) ==> OneStoryPerUser(stories)
    {
      if text == "" {
        return BadRequest;
      }
      if storyId !in stories {
        return NotFound;
      }
      var s := stories[storyId];
      stories := stories[storyId := s.(replies := s.replies + [StoryReply(userId, text)])];
      var _ := hub.SendTo(s.user, NewReply(userId, text));
      code := Ok;
    }
  }
}
