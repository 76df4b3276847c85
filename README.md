# Live social backend — a Dafny model of its coordination core

The backend is an Express + Socket.IO + Mongoose server for a social app:
voice-call signalling, rooms and communities with live fan-out, follows,
and likes and replies on posts, reels and stories. This project models its
core in Dafny:

- the socket server's user-to-socket registry, its roster broadcasts and its
  four voice-call handlers;
- the REST versions of the call signals, over a call store with Mongo's
  `updateOne` (the first matching record only);
- rooms and communities: member lists, join and leave, message and
  screen-share fan-out to online members, creator and sender guards;
- the follow/unfollow toggle and its reads;
- likes and replies on posts, reels and stories: like records with
  counters, reply threads and their `getAllReplies` projection, and the
  one-story-per-user rules.

A story has no stored like list. Its `likes` is a virtual
(`model/story.js`) that loads the reel-like records whose `story` field
holds the story's id. The story like handler's `$pull`/`$push` on `likes`
therefore names no stored field and changes nothing. Both its answer and
the listing's `likesCount` count reel-like records, which the story like
toggle never moves.

The database is in-memory state: each collection is a class with `map` or
`seq` fields, and each handler is a method that changes them. Every
`io.emit` and `io.to(socket).emit` appends an `Emission(target, event)` to
`Socket.Hub.outbox`. Every `Notification.create` that carries the required
`message` appends to `Notifications.NotificationLog.items`. The story
handlers' creates carry none: they fail validation after the answer was
sent, and store nothing. HTTP answers are a `Code` out-value
next to the returned payload. Fresh document ids and clock values are
method parameters.

A thrown exception inside a handler's `try` becomes the status its `catch`
answers with:

- `likeOrUnlikeReply` throws a not-found error, but its catch answers 500, so
  the model answers `ServerError`.
- A `null` story read in `likeStory` becomes 400.
- A `null` room in `sendRoomMessage` becomes 500.

Behaviours of the code that the model keeps:

- Nothing stops a second open call between the same two users.
- A socket call request to an offline user stores no record.
- The room leave event is sent even when the user was not a member.
- A room's creator can leave like any member.
- Member lists are lists, not sets; a join only avoids duplicates.
- `rejected` is written although the call schema's enum omits it.

Modules: `Base` (ids, codes, events), `Lists` (the array operations the
handlers use), `Calls`, `Socket`, `Notifications`, `Users`, `CallRoutes`,
`Rooms`, `Communities`, `Likes`, `Threads`, `Posts`, `Reels`, `Stories`.

## Model

| member | source | states |
|---|---|---|
| Socket.Registered | socket/socket.js:21-25 | a connection maps its user to the new socket (the last one wins), leaves every other entry as it was, and never registers the literal "undefined" |
| Socket.Unregistered | socket/socket.js:60-62 | disconnecting removes the user's entry whatever socket it names; all other entries unchanged |
| Socket.DisconnectForgetsLatestSocket | socket/socket.js:25-62 | after two connections of a user and one disconnect the user is gone, so a newer socket is forgotten too |
| Socket.Hub.GetRecipientSocketId | socket/socket.js:17-19 | present exactly when the user is registered, and then the mapped socket |
| Socket.Hub.Connect | socket/socket.js:21-26 | registry becomes `Registered`; one broadcast of the roster, which is exactly the new key set |
| Socket.Hub.Disconnect | socket/socket.js:60-64 | registry becomes `Unregistered`; one broadcast of the new key set |
| Socket.DeliverOne | socket/socket.js:17-19 | a directed send is one emission to the user's socket when online, none otherwise |
| Socket.Hub.SendTo | socket/socket.js:29-31 | reports whether the user was online and appends `DeliverOne` |
| Socket.Hub.FanOut | controller/RoomController.js:60-65 | the member loop appends exactly `Deliveries(registry, members, event)` (loop invariant) |
| Socket.DeliveriesReachOnlineMembers | controller/RoomController.js:60-65 | every fan-out emission carries the event to an online member's socket, and every online member gets one |
| Socket.DeliveriesSkipOffline | controller/communityController.js:101-106 | a fan-out over offline members sends nothing |
| Socket.OnVoiceCallRequest | socket/socket.js:28-34 | recipient online: one emission to it and one new initiated record; offline: no change at all |
| Socket.OnVoiceCallAccepted | socket/socket.js:36-42 | caller online: signal it and accept the first initiated record from caller to this user; offline: no change |
| Socket.OnVoiceCallRejected | socket/socket.js:44-50 | as accept, moving that record to rejected with its time |
| Socket.OnVoiceCallEnded | socket/socket.js:52-58 | peer online: signal it and end the first accepted record of the pair in either direction; offline: no change |
| Calls.NewCall | model/call.model.js:7-8 | a new record is initiated, from caller to recipient, with no end or reject time |
| Calls.Apply | socket/socket.js:40-56 | each `$set` sets its status and its time field and keeps the parties and the other times |
| Calls.FirstMatchFrom | routes/callRoutes.js:47-50 | the result matches the filter and no earlier record does; none means no record matches |
| Calls.UpdateFirst | routes/callRoutes.js:47-50 | `updateOne`: only a matching record changes, at most one, the first match, and it becomes `Apply` of it |
| Calls.HandlerUpdatesFollowLifecycle | routes/callRoutes.js:44-114 | every update the handlers issue moves records only along initiated→accepted/rejected and accepted→ended; rejected and ended records never change |
| Calls.AcceptIsDirected | routes/callRoutes.js:47-48 | the accept filter never touches a call placed in the other direction |
| Calls.RepeatedRequestsStack | routes/callRoutes.js:19-23 | each request adds exactly one initiated record for the pair, so two requests give two |
| Calls.UpdateNeverOpensCalls | routes/callRoutes.js:44-114 | no update raises the number of initiated records of any pair |
| Calls.CountPointwise | routes/callRoutes.js:47-50 | a store that differs only by records that are not initiated has no more initiated records |
| Calls.CallStore.Create | routes/callRoutes.js:22 | `Call.create` appends exactly one new initiated record |
| Calls.CallStore.UpdateOne | routes/callRoutes.js:47-50 | `Call.updateOne` leaves the collection as `UpdateFirst` says |
| Socket.Hub.Broadcast | controller/RoomController.js:22 | `io.emit` appends one emission addressed to every connection |
| Notifications.NotificationLog.Create | controller/usercontroller.js:198-203 | `Notification.create` appends exactly that notification |
| CallRoutes.RequestRoute | routes/callRoutes.js:7-30 | 404 with no change when either user is unknown or the recipient is offline; otherwise signal it, append one initiated record, 200 |
| CallRoutes.AcceptedRoute | routes/callRoutes.js:32-58 | 404 with no change when a user is unknown or the caller offline; otherwise signal the caller and accept the first initiated (caller, recipient) record |
| CallRoutes.EndedRoute | routes/callRoutes.js:60-92 | 404 with no change when a user is unknown or the peer offline; otherwise end the first accepted record of the pair in either direction |
| CallRoutes.RejectedRoute | routes/callRoutes.js:96-122 | 404 with no change when a user is unknown or the caller offline; otherwise reject the first initiated (caller, recipient) record |
| Notifications.FindNotification | controller/usercontroller.js:189 | the first notification matching sender, receiver and kind (none earlier matches), or none when none matches |
| Notifications.WithoutFirst | controller/usercontroller.js:189 | `deleteOne`: no match leaves the list; a match removes exactly the first matching notification, everything before and after it kept in order |
| Notifications.NotificationLog.DeleteOne | controller/usercontroller.js:189 | the log becomes `WithoutFirst` of the old log |
| Users.FollowToggled | controller/usercontroller.js:168-195 | the toggle flips "me follows id" and no other pair; only the target's followers change among follower lists |
| Users.FollowToggledKeepsSymmetry | controller/usercontroller.js:173-194 | if followers and following agree before the toggle, they agree after it |
| Users.FollowToggledTwice | controller/usercontroller.js:157-215 | two toggles restore the follow relation for every pair |
| Users.FollowThenUnfollowRestores | controller/usercontroller.js:173-194 | from agreeing lists, follow then unfollow gives both documents back exactly |
| Users.FollowerCountIsNewLength | controller/usercontroller.js:170-195 | with agreeing, duplicate-free lists, the reported count equals the target's new follower list length |
| Users.UserStore.FollowUnFollowUser | controller/usercontroller.js:157-215 | 400 with no change for oneself or a missing user; otherwise `FollowToggled`, count = old length ±1, one notification stored and pushed if online, and on unfollow the earlier follow notification is deleted |
| Users.UserStore.CheckIfFollowing | controller/usercontroller.js:216-240 | 404 for a missing user; otherwise true exactly when the following list names the id |
| Users.UserStore.GetFollowers | controller/usercontroller.js:251-273 | the followers list and a count equal to its length; none for a missing user |
| Users.UserStore.GetFollowing | controller/usercontroller.js:276-300 | the following list and a count equal to its length; none for a missing user |
| Lists.RemoveAt | controller/postController.js:435 | `splice(i, 1)`: one shorter, and putting the element back at i gives the list |
| Lists.RemoveFirst | controller/RoomController.js:88-92 | `indexOf` then `splice`: only the first occurrence goes |
| Lists.RemoveAll | controller/communityController.js:261 | `filter`/`$pull`: every occurrence goes, every other element stays with its multiplicity |
| Lists.AddIfAbsent | controller/RoomController.js:54-57 | guarded push: a list already holding the element is returned unchanged, otherwise the element is appended; duplicate-freedom kept |
| Lists.Toggle | controller/postController.js:430-443 | present: the first occurrence is spliced out with the rest in order, one occurrence fewer; absent: appended; no other element's count changes |
| Lists.ToggleTwiceAbsent | controller/postController.js:430-443 | like then unlike restores the list exactly |
| Lists.ToggleTwiceRestoresContents | controller/postController.js:430-443 | unlike then like restores the list's contents, possibly reordered |
| Lists.RemoveFirstIsRemoveAll | controller/RoomController.js:88-92 | on a duplicate-free list, splicing the first occurrence equals filtering all |
| Lists.RemoveFirstNoDup | controller/RoomController.js:88-92 | the splice keeps a duplicate-free list so and removes the user |
| Lists.RemoveAllNoDup | controller/communityController.js:261 | the filter keeps a duplicate-free list so |
| Lists.RemoveAllAppend | controller/communityController.js:261 | the filter keeps the relative order of the other members |
| Rooms.NewRoom | controller/RoomController.js:13-19 | the creator is `createdBy` and the only member |
| Rooms.JoinReachesJoiner | controller/RoomController.js:54-65 | an online joiner is sent its own join event, and a repeated join changes the list no further |
| Rooms.LeaveSkipsLeaver | controller/RoomController.js:88-100 | on a duplicate-free list the leaver's socket is sent no leave event |
| Rooms.CreatorMayLeave | controller/RoomController.js:88-92 | the creator's leave empties a new room while `createdBy` stays |
| Rooms.LeaveKeepsNoDup | controller/RoomController.js:88-92 | splicing a user out keeps every member list duplicate-free, leaves the user in none of the room's slots, and changes nothing when the user was absent |
| Rooms.RoomStore.CreateRoom | controller/RoomController.js:8-29 | stores the new room under the fresh id and broadcasts roomCreated to everyone |
| Rooms.RoomStore.JoinRoom | controller/RoomController.js:42-72 | 404 with no change for an unknown room; otherwise guarded push and join event to every online member, even when nothing changed |
| Rooms.RoomStore.LeaveRoom | controller/RoomController.js:76-107 | 404 with no change for an unknown room; otherwise first occurrence spliced out, the user no longer a member, leave event to the remaining online members |
| Rooms.RoomStore.SendRoomMessage | controller/RoomController.js:111-144 | the message is saved whatever happens; unknown room 500 with no emission; otherwise fan-out to online members with no membership check |
| Rooms.RoomStore.StartScreenShare | controller/RoomController.js:147-166 | no stored change; 500 for an unknown room; otherwise event to the online members |
| Rooms.RoomStore.StopScreenShare | controller/RoomController.js:169-188 | as start, with the stop event |
| Rooms.RoomStore.GetAllParticipants | controller/RoomController.js:192-207 | the full stored member list, not filtered by presence; 404 for an unknown room |
| Communities.NewCommunity | controller/communityController.js:17-23 | the creator is `createdBy` and the only member |
| Communities.Edited | controller/communityController.js:153-157 | a new name or description only when non-empty, new images only when some were uploaded, creator and members kept |
| Communities.EditedMessage | controller/communityController.js:293-294 | an empty new text keeps the old text; pictures replaced only by a non-empty upload |
| Communities.JoinThenLeaveRestores | controller/communityController.js:57-269 | joining and then leaving restores the member list exactly |
| Communities.CommunityStore.CreateCommunity | controller/communityController.js:7-31 | stores the new community with the creator as only member |
| Communities.CommunityStore.GetAllCommunities | controller/communityController.js:34-55 | every community, with isJoined true exactly when the requester is a member |
| Communities.CommunityStore.JoinCommunity | controller/communityController.js:57-78 | 404 with no change for an unknown community; otherwise guarded push, after which isJoined holds |
| Communities.CommunityStore.LeaveCommunity | controller/communityController.js:246-269 | 404 unknown, 400 non-member, both with no change; otherwise every occurrence filtered out, after which isJoined is false |
| Communities.CommunityStore.SendCommunityMessage | controller/communityController.js:80-112 | saved unseen whatever happens; unknown community 500; otherwise fan-out to online members |
| Communities.CommunityStore.UpdateCommunityById | controller/communityController.js:131-165 | 404 missing, 403 not the creator, both with no change; otherwise `Edited` |
| Communities.CommunityStore.DeleteCommunityById | controller/communityController.js:167-189 | 404 missing, 403 not the creator, both with no change; otherwise removed |
| Communities.CommunityStore.EditCommunityMessage | controller/communityController.js:271-302 | 404 unless the message is in that community, 403 unless the requester sent it, both with no change; otherwise `EditedMessage` |
| Communities.CommunityStore.DeleteCommunityMessage | controller/communityController.js:306-327 | the same guards; otherwise the message is removed |
| Likes.CountFor | controller/postController.js:223-256 | the number of like records about a subject, at most the store's size |
| Likes.CountForAppend | controller/postController.js:253-254 | counts add over concatenation |
| Likes.CountForToggle | controller/postController.js:223-256 | creating or deleting a like moves its subject's count by exactly one and no other count |
| Likes.Max | controller/postController.js:236 | `Math.max`: the larger of the two |
| Threads.TopLevelReply | controller/postController.js:303-306 | a reply pushed on a post or reel gets an id and empty likes and replies |
| Threads.NestedReply | controller/postController.js:359-362 | a nested reply has no id and no likes list |
| Threads.FindReply | controller/postController.js:422-425 | the first reply with that id, or -1 when none has it |
| Threads.ToggleReplyLike | controller/postController.js:427-443 | only the targeted reply's likes change, to `Toggle` of the old likes (first occurrence spliced out, or the user appended); every other reply and field stays |
| Threads.ToggleReplyLikeTwice | controller/postController.js:430-443 | like then unlike of a reply restores the whole thread |
| Threads.TotalLikes | controller/postController.js:462 | the likes length, or 0 without a likes list |
| Threads.GetAllReplies | controller/postController.js:459-476 | same length and, per reply, the same fields plus a like count |
| Threads.GetAllRepliesRoundTrip | controller/postController.js:459-476 | dropping the counts gives the thread back, so count, order and content are kept at every level |
| Threads.GetAllRepliesCountsAgree | controller/postController.js:462-469 | every added count is right, at every nesting level |
| Threads.GetAllRepliesAt | controller/postController.js:470 | the i-th projected reply carries the projection of the i-th reply's own replies |
| Posts.EditedPost | controller/postController.js:126-145 | name and description only when given, images only when uploaded, owner, replies and counter kept |
| Posts.LikeKeepsCounted | controller/postController.js:223-262 | the like toggle keeps every post counter equal to its number of like records |
| Posts.LikeThenUnlikeRestores | controller/postController.js:223-256 | like then unlike restores the like store, and the like raised the count by one |
| Posts.NewReplyHeadsThread | controller/postController.js:303-306 | a new reply is first in the projected thread, with no likes |
| Posts.PostStore.UpdatePostById | controller/postController.js:119-180 | 404 missing, 403 not the owner, both before any change; otherwise `EditedPost`; counters stay consistent |
| Posts.PostStore.DeletePostById | controller/postController.js:182-213 | 404 missing, 403 not the owner, both with no change; otherwise the post goes |
| Posts.PostStore.LikeProduct | controller/postController.js:216-282 | like record toggled first (also for a missing post, then 404); counter ±1, answer max(0, counter), which is the like count while counters are consistent; notification stored and pushed if online |
| Posts.PostStore.ReplyToPost | controller/postController.js:285-334 | 400 without text, 404 unknown post, both with no change; otherwise the reply goes first, owner notified |
| Posts.PostStore.ReplyToReply | controller/postController.js:337-390 | 400 without text or post id, 404 unknown post or parent; otherwise the reply goes first among the parent's replies, its author notified, the projected thread answered |
| Posts.PostStore.LikeOrUnlikeReply | controller/postController.js:410-456 | 500 with no change for an unknown post or reply or a reply without likes; otherwise `ToggleReplyLike` and the projected thread |
| Reels.LikeKeepsCounted | controller/reelController.js:257-291 | the reel like toggle keeps every counter equal to its number of like records |
| Reels.DeleteAsWritten | controller/reelController.js:205-241 | as written: 404 when missing; otherwise the reel is gone, with 403 for a non-owner and 200 for the owner |
| Reels.DeleteGuarded | controller/reelController.js:209-216 | corrected: only the owner's delete changes anything; 404 missing, 403 non-owner |
| Reels.NonOwnerDeleteRemovesReel | controller/reelController.js:209-216 | a non-owner gets 403 from both, but as written the reel is gone and guarded it stays |
| Reels.ReelStore.UpdateReelById | controller/reelController.js:134-202 | 404 missing, 401 not the owner, both before any change; otherwise images replaced as `ReplacedImages` says |
| Reels.ReelStore.DeleteReelById | controller/reelController.js:205-241 | the store and answer are `DeleteAsWritten`; a 403 leaves the reel deleted |
| Reels.ReelStore.DeleteReelByIdGuarded | controller/reelController.js:205-241 | the store and answer are `DeleteGuarded`; counters stay consistent |
| Reels.ReelStore.LikeReel | controller/reelController.js:244-307 | like record toggled first (404 after it for a missing reel); counter ±1; answer max(0, n) after unlike and max(1, n) after like, which is the like count while counters are consistent |
| Reels.ReelStore.ReplyToReel | controller/reelController.js:312-342 | 400 without text, 404 unknown reel, both with no change; otherwise the reply is appended and answered |
| Reels.ReelStore.ReplyToReply | controller/reelController.js:344-378 | 400 without text or reel id, 404 unknown reel or parent; otherwise appended to the parent's replies |
| Reels.ReelStore.LikeOrUnlikeReply | controller/reelController.js:380-425 | 500 with no change for an unknown reel or reply; otherwise toggle, answer the new likes length |
| Base.OrElse | controller/communityController.js:153-154 | `a \|\| b` on strings: a unless it is empty |
| Base.ReplacedImages | controller/storyController.js:178-223 | uploaded files replace the images; otherwise body images do when given; otherwise they stay |
| Stories.NewStory | controller/storyController.js:30-33 | a new story has the user, exactly the uploaded images, unseen, no replies |
| Stories.ListStories | controller/storyController.js:42-97 | with a requester, exactly the stories of other owners; without one, all; `likesCount` counts the reel-like records naming the story, `repliesCount` the replies |
| Stories.OwnStoryHidden | controller/storyController.js:83-85 | a story is hidden from its owner and listed to anyone else; the owner's listing is the full listing minus it |
| Stories.StoryLikeToggleKeepsOnePerUser | controller/storyController.js:305-340 | find-then-delete-or-save keeps at most one like record per user and story, and afterwards the user likes the story exactly when it did not before |
| Stories.StoryLikeAnswerIgnoresToggle | controller/storyController.js:320-349 | the first like of a story no reel-like record names leaves one story-like record, while the answer counts zero |
| Stories.StoryStore.CreateStory | controller/storyController.js:13-40 | an existing story of the user gets the images appended (200); otherwise a new story with exactly them (201); one story per user kept |
| Stories.StoryStore.MarkStoryAsSeen | controller/storyController.js:135-155 | seen set only on the requester's own story; otherwise 404 with no change |
| Stories.StoryStore.UpdateStoryById | controller/storyController.js:161-232 | 404 missing, 401 not the owner, both before any change; otherwise `ReplacedImages` |
| Stories.StoryStore.DeleteStoryById | controller/storyController.js:235-282 | 404 missing, 403 not the owner, both before any change; otherwise the story goes |
| Stories.StoryStore.LikeStory | controller/storyController.js:299-364 | the user's story-like record is deleted when present and saved otherwise; stories never change; a missing story gives 400 after the toggle; the answer counts the reel-like records naming the story; at most one record per user and story kept; no notification stored |
| Stories.StoryStore.LikeStoryCounted | controller/storyController.js:299-364 | the same toggle and 400, but the answer is the story's own like count, one more after a like and one fewer after an unlike |
| Stories.StoryStore.ReplyToStory | controller/storyController.js:403-443 | 400 without text, 404 unknown story, both with no change; otherwise reply appended and newReply sent to the owner if online; no notification stored |

## Left out

- Transport: server setup, CORS, Express routing outside the call routes, and response bodies. Events carry ids and text, not the user names and pictures the source adds.
- The current user's profile fields (username, pictures) in replies and notification messages. They are display data and not part of the model.
- File uploads and `fs.unlinkSync` image deletion. File and URL handling is abstracted: images are opaque strings, and the base-URL prefixing is not modelled.
- Sorting (`getAllStories` orders by seen and creation time) and the user projection of `populate`. A listing is a map, not an ordered list.
- Mongoose strict-schema effects:
  - The room schema declares `roomName`/`participants`, but the controller's `name`/`members` are modelled.
  - The call schema has no `rejectedAt`, but `rejectedAt` is modelled as written.
  - The post update's `category` write is dropped because the schema spells it `catagory`.
- Schema validators: the required and unique community name, the name length limits. A failing save is not modelled.
- `deleteStoryById`'s `$pull` from the user's `stories`: the user schema declares no `stories` field, so the pull changes nothing and is not modelled.
- Socket connections without a `userId` query value at all (the JavaScript `undefined`, which is stored under the key "undefined"): ids are strings here.
- Asynchronous interleaving between a handler's reads and writes. Each handler is one atomic step.
- Clocks and fresh ids are parameters. Creating a room, community, message or story requires the new id to be unused.
- Mongoose strict-schema effects on stories: `Stories.StoryStore.LikeStory` follows the stored story, which has no `likes` field, so the `$pull`/`$push` leave it unchanged. `Stories.ListStories` and `LikeStory` count the reel-like records that the `likes` virtual loads; the reel-like collection is a parameter (`reelLikes`), which the caller reads from `Reels.ReelStore.likes`.
- `Socket.Hub.Connect` and `Socket.Hub.Disconnect` broadcast the roster as a set of user ids. The source sends `Object.keys(userSocketMap)`, an array in insertion order, and that order is not modelled.
- `Threads.GetAllReplies` keeps each reply's `userId` at every level. In the source, nested replies live in an unpopulated Mixed array, so `reply.userId._id` may come out undefined for them. That loss, and the user name the projection adds, are not modelled.
- Authentication, the notification controller and the routes other than the call routes: thin wrappers over libraries and queries.

## Findings

| source | as written | input that shows it | evidently intended | confidence | as-written member | corrected member |
|---|---|---|---|---|---|---|
| controller/reelController.js:209-216 | `findByIdAndDelete` runs before the ownership check, which only chooses the answer | an existing reel owned by A; B sends the delete; B is answered 403 and the reel is gone | check ownership first; a non-owner gets 403 and the reel stays | high; not executed | Reels.ReelStore.DeleteReelById | Reels.ReelStore.DeleteReelByIdGuarded |
| controller/storyController.js:320-349 | `totalLikes` is the length of the populated `likes` virtual, which loads reel-like records naming the story, while the toggle writes story-like records | a story no reel-like record names; its first like is saved and answered `totalLikes: 0` (`Stories.StoryLikeAnswerIgnoresToggle`) | the answer counts the story's own like records: 1 after that first like | medium; not executed | Stories.StoryStore.LikeStory | Stories.StoryStore.LikeStoryCounted |
