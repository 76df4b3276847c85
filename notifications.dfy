/** The notification collection the social handlers write to. */
module Notifications {
  import opened Base

  /** The position of the first notification from sender to receiver of the
      given kind, at or after `from` (`Notification.deleteOne`'s filter). */
  function FindNotification(items: seq<Notification>, sender: UserId, receiver: UserId, kind: NotificationKind, from: nat): (r: Option<nat>)
    requires from <= |items|
    ensures r.Some? ==>
      from <= r.value < |items|
      && items[r.value].sender == sender && items[r.value].receiver == receiver && items[r.value].kind == kind
    ensures r.Some? ==> forall j :: from <= j < r.value ==>
      !(items[j].sender == sender && items[j].receiver == receiver && items[j].kind == kind)
    ensures r.None? ==> forall j :: from <= j < |items| ==>
      !(items[j].sender == sender && items[j].receiver == receiver && items[j].kind == kind)
    decreases |items| - from
  {
    if from == |items| then None
    else if items[from].sender == sender && items[from].receiver == receiver && items[from].kind == kind then Some(from)
    else FindNotification(items, sender, receiver, kind, from + 1)
  }

  /** The collection after `deleteOne({sender, receiver, type})`: the first
      matching notification is gone, everything else stays in order. */
  function WithoutFirst(items: seq<Notification>, sender: UserId, receiver: UserId, kind: NotificationKind): (r: seq<Notification>)
    ensures FindNotification(items, sender, receiver, kind, 0).None? ==> r == items
    ensures FindNotification(items, sender, receiver, kind, 0).Some? ==>
      var i := FindNotification(items, sender, receiver, kind, 0).value;
      |r| == |items| - 1 && r[..i] == items[..i] && r[i..] == items[i + 1..]
      && multiset(r) == multiset(items) - multiset{items[i]}
  {
    match FindNotification(items, sender, receiver, kind, 0)
    case None => items
    case Some(i) =>
      assert items == items[..i] + [items[i]] + items[i + 1..];
      items[..i] + items[i + 1..]
  }

  class NotificationLog {
    var items: seq<Notification>

    constructor ()
      ensures items == []
    {
      items := [];
    }

    /** `Notification.create`. */
    method Create(n: Notification)
      modifies this
      ensures items == old(items) + [n]
    {
      items := items + [n];
    }

    /** `Notification.deleteOne({sender, receiver, type})`: removes the first
        matching notification, if any. */
    method DeleteOne(sender: UserId, receiver: UserId, kind: NotificationKind)
      modifies this
      ensures items == WithoutFirst(old(items), sender, receiver, kind)
    {
      items := WithoutFirst(items, sender, receiver, kind);
    }
  }
}
