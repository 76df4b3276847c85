/** The follow graph: each user document keeps both directions of the
    relation, `followers` and `following`, and the follow/unfollow toggle
    has to update the two documents together. */
module Users {
  import opened Base
  import opened Lists
  import opened Socket
  import opened Notifications

  /** The fields of a user document the follow graph touches. */
  datatype User = User(username: string, followers: seq<UserId>, following: seq<UserId>)

  type UserTable = map<UserId, User>

  /** a's `following` list names b. */
  predicate Follows(users: UserTable, a: UserId, b: UserId) {
    a in users && b in users[a].following
  }

  /** The two lists agree: a is among b's followers exactly when b is among
      a's following. */
  ghost predicate Symmetric(users: UserTable) {
    forall a, b :: a in users && b in users ==> (a in users[b].followers <==> b in users[a].following)
  }

  /** The pair of updates `followUnFollowUser` issues: `$pull` from both
      lists when `me` already follows `id`, `$push` onto both otherwise. */
  function FollowToggled(users: UserTable, me: UserId, id: UserId): (r: UserTable)
    requires me in users && id in users && me != id
    ensures r.Keys == users.Keys
    ensures Follows(r, me, id) <==> !Follows(users, me, id)
    ensures forall a, b :: (a != me || b != id) ==> (Follows(r, a, b) <==> Follows(users, a, b))
    ensures forall u :: u in users && u != id ==> r[u].followers == users[u].followers
    ensures forall u :: u in users ==> r[u].username == users[u].username
  {
    var target := users[id];
    var current := users[me];
    if id in current.following then
      users[id := target.(followers := RemoveAll(target.followers, me))]
           [me := current.(following := RemoveAll(current.following, id))]
    else
      users[id := target.(followers := target.followers + [me])]
           [me := current.(following := current.following + [id])]
  }

  /** The toggle keeps the two directions of the relation in agreement. */
  lemma FollowToggledKeepsSymmetry(users: UserTable, me: UserId, id: UserId)
    requires me in users && id in users && me != id
    requires Symmetric(users)
    ensures Symmetric(FollowToggled(users, me, id))
  {
    var r := FollowToggled(users, me, id);
    forall a, b | a in r && b in r
      ensures a in r[b].followers <==> b in r[a].following
    {
      if b == id {
        if a == me {
          assert (me in users[id].followers <==> id in users[me].following);
        } else {
          assert a in r[b].followers <==> a in users[b].followers;
        }
      }
    }
  }

  /** Following and then unfollowing (or the other way round) restores the
      relation for every pair of users. */
  lemma FollowToggledTwice(users: UserTable, me: UserId, id: UserId)
    requires me in users && id in users && me != id
    ensures forall a, b :: Follows(FollowToggled(FollowToggled(users, me, id), me, id), a, b) <==> Follows(users, a, b)
  {
  }

  /** When the lists start duplicate-free and in agreement, following and
      unfollowing gives both documents back exactly, not only the relation. */
  lemma FollowThenUnfollowRestores(users: UserTable, me: UserId, id: UserId)
    requires me in users && id in users && me != id
    requires Symmetric(users) && !Follows(users, me, id)
    ensures FollowToggled(FollowToggled(users, me, id), me, id) == users
  {
    var once := FollowToggled(users, me, id);
    assert me !in users[id].followers;
    assert RemoveAll(users[id].followers + [me], me) == users[id].followers by {
      RemoveAllAppend(users[id].followers, [me], me);
      assert RemoveAll([me], me) == [];
    }
    assert RemoveAll(users[me].following + [id], id) == users[me].following by {
      RemoveAllAppend(users[me].following, [id], id);
      assert RemoveAll([id], id) == [];
    }
  }

  /** The user documents. */
  class UserStore {
    var users: UserTable

    constructor (initial: UserTable)
      ensures users == initial
    {
      users := initial;
    }

    /** `followUnFollowUser`: 400 for oneself or a missing user; otherwise
        toggle both lists, answer with the follower count computed from the
        target's list before the update, record and push a follow or unfollow
        notification, and on unfollow delete the earlier follow notification. */
    method FollowUnFollowUser(hub: Hub, log: NotificationLog, id: UserId, me: UserId) returns (code: Code, followerCount: int)
      modifies this, hub`outbox, log
      ensures (id == me || id !in old(users) || me !in old(users)) ==>
        code == BadRequest && users == old(users) && hub.outbox == old(hub.outbox) && log.items == old(log.items)
      ensures id != me && id in old(users) && me in old(users) ==>
        var wasFollowing := Follows(old(users), me, id);
        var n := Notification(me, id, if wasFollowing then Unfollow else Follow, None);
        code == Ok
        && users == FollowToggled(old(users), me, id)
        && followerCount == |old(users)[id].followers| + (if wasFollowing then -1 else 1)
        && hub.outbox == old(hub.outbox) + DeliverOne(hub.userSocketMap, id, NewNotification(n))
        && log.items == (if wasFollowing then WithoutFirst(old(log.items) + [n], me, id, Follow) else old(log.items) + [n])
    {
      if id == me {
        return BadRequest, 0;
      }
      if id !in users || me !in users {
        return BadRequest, 0;
      }
      var isFollowing := id in users[me].following;
      followerCount := |users[id].followers|;
      users := FollowToggled(users, me, id);
      if isFollowing {
        followerCount := followerCount - 1;
        var n := Notification(me, id, Unfollow, None);
        log.Create(n);
        var _ := hub.SendTo(id, NewNotification(n));
        log.DeleteOne(me, id, Follow);
      } else {
        followerCount := followerCount + 1;
        var n := Notification(me, id, Follow, None);
        log.Create(n);
        var _ := hub.SendTo(id, NewNotification(n));
      }
      code := Ok;
    }

    /** `checkIfFollowing`: None (404) when the current user is missing,
        otherwise whether its `following` list names id. */
    function CheckIfFollowing(me: UserId, id: UserId): (r: Option<bool>)
      reads this
      ensures r.None? <==> me !in users
      ensures r.Some? ==> (r.value <==> Follows(users, me, id))
    {
      if me !in users then None else Some(id in users[me].following)
    }

    /** `getFollowers`: the follower list and its length; None when the user
        is missing. */
    function GetFollowers(u: UserId): (r: Option<(seq<UserId>, nat)>)
      reads this
      ensures r.None? <==> u !in users
      ensures r.Some? ==> r.value.0 == users[u].followers && r.value.1 == |r.value.0|
    {
      if u !in users then None else Some((users[u].followers, |users[u].followers|))
    }

    /** `getFollowing`: the following list and its length; None when the
        user is missing. */
    function GetFollowing(u: UserId): (r: Option<(seq<UserId>, nat)>)
      reads this
      ensures r.None? <==> u !in users
      ensures r.Some? ==> r.value.0 == users[u].following && r.value.1 == |r.value.0|
    {
      if u !in users then None else Some((users[u].following, |users[u].following|))
    }
  }

  /** Under the agreement invariant, the count the toggle answers with is
      the length of the target's follower list after the toggle, provided
      the list held `me` at most once. */
  lemma FollowerCountIsNewLength(users: UserTable, me: UserId, id: UserId)
    requires me in users && id in users && me != id
    requires Symmetric(users) && NoDup(users[id].followers)
    ensures |FollowToggled(users, me, id)[id].followers|
         == |users[id].followers| + (if Follows(users, me, id) then -1 else 1)
  {
    if Follows(users, me, id) {
      RemoveFirstIsRemoveAll(users[id].followers, me);
    }
  }
}
