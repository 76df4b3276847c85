/** Communities: a persistent member list with join, leave, messages fanned
    out to online members, and creator-only update and delete; community
    messages that only their sender may edit or delete. */
module Communities {
  import opened Base
  import opened Lists
  import opened Socket

  datatype Community = Community(
    name: string,
    description: string,
    images: seq<string>,
    createdBy: UserId,
    members: seq<UserId>)

  datatype CommunityMessage = CommunityMessage(
    communityId: RecordId,
    sender: UserId,
    text: string,
    images: seq<string>,
    seen: bool)

  /** `new Community({..., createdBy: userId, members: [userId]})`. */
  function NewCommunity(name: string, description: string, images: seq<string>, creator: UserId): (c: Community)
    ensures c.createdBy == creator && c.members == [creator]
    ensures c.name == name && c.description == description && c.images == images
  {
    Community(name, description, images, creator, [creator])
  }

  /** The fields `updateCommunityById` writes: a new name or description
      only when one is given (non-empty), new images only when at least one
      was uploaded; creator and members stay. */
  function Edited(c: Community, name: string, description: string, images: seq<string>): (r: Community)
    ensures r.createdBy == c.createdBy && r.members == c.members
    ensures name != "" ==> r.name == name
    ensures name == "" ==> r.name == c.name
    ensures description != "" ==> r.description == description
    ensures description == "" ==> r.description == c.description
    ensures |images| > 0 ==> r.images == images
    ensures |images| == 0 ==> r.images == c.images
  {
    c.(name := OrElse(name, c.name),
       description := OrElse(description, c.description),
       images := if |images| > 0 then images else c.images)
  }

  /** The message after `editCommunityMessage`: an empty new text keeps the
      old one, and the pictures are replaced only by a non-empty upload. */
  function EditedMessage(m: CommunityMessage, text: string, images: seq<string>): (r: CommunityMessage)
    ensures r.communityId == m.communityId && r.sender == m.sender && r.seen == m.seen
    ensures r.text == (if text != "" then text else m.text)
    ensures r.images == (if |images| > 0 then images else m.images)
  {
    m.(text := OrElse(text, m.text), images := if |images| > 0 then images else m.images)
  }

  /** Joining a community one was not in and leaving it again gives back the
      member list exactly: the push appends, and the filter drops only that
      id and keeps the others in order. */
  lemma {:induction false} JoinThenLeaveRestores(members: seq<UserId>, u: UserId)
    requires u !in members
    ensures RemoveAll(AddIfAbsent(members, u), u) == members
  {
    RemoveAllAppend(members, [u], u);
    assert RemoveAll([u], u) == [];
  }

  /** Every member list is duplicate-free. */
  ghost predicate AllNoDup(communities: map<RecordId, Community>) {
    forall id :: id in communities ==> NoDup(communities[id].members)
  }

  lemma AllNoDupUpdate(communities: map<RecordId, Community>, id: RecordId, c: Community)
    requires AllNoDup(communities) && NoDup(c.members)
    ensures AllNoDup(communities[id := c])
  {
  }

  /** The community and community-message collections. */
  class CommunityStore {
    var communities: map<RecordId, Community>
    var messages: map<RecordId, CommunityMessage>

    constructor ()
      ensures communities == map[] && messages == map[]
    {
      communities := map[];
      messages := map[];
    }

    /** Member lists are duplicate-free: creation starts one with the
        creator, join pushes only absent ids, leave filters. */
    ghost predicate Valid()
      reads this
    {
      AllNoDup(communities)
    }

    /** `createCommunity`: the creator is the first and only member. `id` is
        the fresh document id. */
    method CreateCommunity(id: RecordId, name: string, description: string, images: seq<string>, userId: UserId)
      returns (code: Code, c: Community)
      requires id !in communities
      requires Valid()
      modifies this`communities
      ensures Valid()
      ensures code == Created && c == NewCommunity(name, description, images, userId)
      ensures communities == old(communities)[id := c]
    {
      c := NewCommunity(name, description, images, userId);
      AllNoDupUpdate(communities, id, c);
      communities := communities[id := c];
      code := Created;
    }

    /** `getAllCommunities`: every community with isJoined, true exactly
        when the requester is among its members. */
    function GetAllCommunities(userId: UserId): (r: map<RecordId, (Community, bool)>)
      reads this
      ensures r.Keys == communities.Keys
      ensures forall id :: id in r ==> r[id].0 == communities[id]
      ensures forall id :: id in r ==> (r[id].1 <==> userId in communities[id].members)
    {
      map id | id in communities :: (communities[id], userId in communities[id].members)
    }

    /** `joinCommunity`: 404 for an unknown community; otherwise push the
        user only when absent, after which the listing shows it as joined. */
    method JoinCommunity(communityId: RecordId, userId: UserId) returns (code: Code)
      requires Valid()
      modifies this`communities
      ensures Valid()
      ensures code == NotFound <==> communityId !in old(communities)
      ensures code == NotFound ==> communities == old(communities)
      ensures code != NotFound ==>
        code == Ok
        && communities == old(communities)[communityId :=
             old(communities)[communityId].(members := AddIfAbsent(old(communities)[communityId].members, userId))]
        && GetAllCommunities(userId)[communityId].1
    {
      if communityId !in communities {
        return NotFound;
      }
      var c := communities[communityId];
      if userId !in c.members {
        c := c.(members := c.members + [userId]);
        AllNoDupUpdate(communities, communityId, c);
        communities := communities[communityId := c];
      }
      code := Ok;
    }

    /** `leaveCommunity`: 404 for an unknown community, 400 for a
        non-member; otherwise every occurrence of the user is filtered out,
        after which the listing shows it as not joined. */
    method LeaveCommunity(communityId: RecordId, userId: UserId) returns (code: Code)
      requires Valid()
      modifies this`communities
      ensures Valid()
      ensures code == NotFound <==> communityId !in old(communities)
      ensures code == BadRequest <==> communityId in old(communities) && userId !in old(communities)[communityId].members
      ensures code != Ok ==> communities == old(communities)
      ensures code == Ok ==>
        communities == old(communities)[communityId :=
          old(communities)[communityId].(members := RemoveAll(old(communities)[communityId].members, userId))]
        && !GetAllCommunities(userId)[communityId].1
      ensures code in {Ok, NotFound, BadRequest}
    {
      if communityId !in communities {
        return NotFound;
      }
      var c := communities[communityId];
      if userId !in c.members {
        return BadRequest;
      }
      RemoveAllNoDup(c.members, userId);
      c := c.(members := RemoveAll(c.members, userId));
      AllNoDupUpdate(communities, communityId, c);
      communities := communities[communityId := c];
      code := Ok;
    }

    /** `sendCommunityMessage`: the message is saved unseen, then sent to
        every online member. An unknown community fails (500) after the
        message is already saved. `msgId` is the fresh document id. */
    method SendCommunityMessage(hub: Hub, msgId: RecordId, communityId: RecordId, senderId: UserId, text: string, images: seq<string>)
      returns (code: Code)
      requires msgId !in messages
      modifies this`messages, hub`outbox
      ensures messages == old(messages)[msgId := CommunityMessage(communityId, senderId, text, images, false)]
      ensures code == ServerError <==> communityId !in communities
      ensures code == ServerError ==> hub.outbox == old(hub.outbox)
      ensures code != ServerError ==>
        code == Created
        && hub.outbox == old(hub.outbox)
             + Deliveries(hub.userSocketMap, communities[communityId].members, NewCommunityMessage(msgId, communityId, senderId, text))
    {
      messages := messages[msgId := CommunityMessage(communityId, senderId, text, images, false)];
      if communityId !in communities {
        return ServerError;
      }
      hub.FanOut(communities[communityId].members, NewCommunityMessage(msgId, communityId, senderId, text));
      code := Created;
    }

    /** `updateCommunityById`: 404 when missing, 403 unless the requester
        created it; otherwise only the supplied fields change. */
    method UpdateCommunityById(communityId: RecordId, userId: UserId, name: string, description: string, images: seq<string>)
      returns (code: Code)
      requires Valid()
      modifies this`communities
      ensures Valid()
      ensures code == NotFound <==> communityId !in old(communities)
      ensures code == Forbidden <==> communityId in old(communities) && old(communities)[communityId].createdBy != userId
      ensures code != Ok ==> communities == old(communities)
      ensures code == Ok ==>
        communities == old(communities)[communityId := Edited(old(communities)[communityId], name, description, images)]
      ensures code in {Ok, NotFound, Forbidden}
    {
      if communityId !in communities {
        return NotFound;
      }
      var c := communities[communityId];
      if c.createdBy != userId {
        return Forbidden;
      }
      c := Edited(c, name, description, images);
      AllNoDupUpdate(communities, communityId, c);
      communities := communities[communityId := c];
      code := Ok;
    }

    /** `deleteCommunityById`: 404 when missing, 403 unless the requester
        created it; otherwise the community goes and its messages stay. */
    method DeleteCommunityById(communityId: RecordId, userId: UserId) returns (code: Code)
      requires Valid()
      modifies this`communities
      ensures Valid()
      ensures code == NotFound <==> communityId !in old(communities)
      ensures code == Forbidden <==> communityId in old(communities) && old(communities)[communityId].createdBy != userId
      ensures code != Ok ==> communities == old(communities)
      ensures code == Ok ==> communities == old(communities) - {communityId}
      ensures code in {Ok, NotFound, Forbidden}
    {
      if communityId !in communities {
        return NotFound;
      }
      if communities[communityId].createdBy != userId {
        return Forbidden;
      }
      communities := communities - {communityId};
      code := Ok;
    }

    /** `CommunityMessage.findOne({_id: messageId, communityId})`. */
    predicate MessageIn(communityId: RecordId, messageId: RecordId)
      reads this
    {
      messageId in messages && messages[messageId].communityId == communityId
    }

    /** `editCommunityMessage`: 404 unless the message exists in that
        community, 403 unless the requester sent it; otherwise text and
        pictures are edited as `EditedMessage` says. */
    method EditCommunityMessage(communityId: RecordId, messageId: RecordId, userId: UserId, text: string, images: seq<string>)
      returns (code: Code)
      modifies this`messages
      ensures code == NotFound <==> !old(MessageIn(communityId, messageId))
      ensures code == Forbidden <==> old(MessageIn(communityId, messageId)) && old(messages)[messageId].sender != userId
      ensures code != Ok ==> messages == old(messages)
      ensures code == Ok ==> messages == old(messages)[messageId := EditedMessage(old(messages)[messageId], text, images)]
      ensures code in {Ok, NotFound, Forbidden}
    {
      if !MessageIn(communityId, messageId) {
        return NotFound;
      }
      if messages[messageId].sender != userId {
        return Forbidden;
      }
      messages := messages[messageId := EditedMessage(messages[messageId], text, images)];
      code := Ok;
    }

    /** `deleteCommunityMessage`: the same 404 and 403 guards, then the
        message goes. */
    method DeleteCommunityMessage(communityId: RecordId, messageId: RecordId, userId: UserId) returns (code: Code)
      modifies this`messages
      ensures code == NotFound <==> !old(MessageIn(communityId, messageId))
      ensures code == Forbidden <==> old(MessageIn(communityId, messageId)) && old(messages)[messageId].sender != userId
      ensures code != Ok ==> messages == old(messages)
      ensures code == Ok ==> messages == old(messages) - {messageId}
      ensures code in {Ok, NotFound, Forbidden}
    {
      if !MessageIn(communityId, messageId) {
        return NotFound;
      }
      if messages[messageId].sender != userId {
        return Forbidden;
      }
      messages := messages - {messageId};
      code := Ok;
    }
  }
}
