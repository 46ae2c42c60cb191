# Social backend core in Dafny

A verified model of the in-memory logic of a social-media backend in which
users follow "celebrity" accounts, celebrities publish posts, and followers
like and comment on them. Three pieces are modelled:

- **Presence and fan-out** (`presence.dfy`, module `Presence`): the
  process-wide `connectedUsers` table of the websocket layer, its `join` and
  `disconnect` handlers, and `notifyFollowers` / `notifyUserById`. The class
  `Registry` holds the table (its keys in enumeration order plus the
  key-to-socket map), an `initialized` flag standing for the `io` server, and
  an outbox recording every emission. The pure value `Table` with `Joined` and
  `Disconnected` specifies the handlers; `Deliveries` specifies the fan-out.
- **Follow graph** (`users.dfy`, module `Users`): `followUser`,
  `unfollowUser` and `getAllUsers`. Users are records in a map; `AddEdge` and
  `RemoveEdge` specify the list edits; the class `UserStore` runs the handlers
  with their validation.
- **Post mutations and the mixed feed** (`posts.dfy`, module `Posts`;
  `feed.dfy`, module `Feed`): like toggling, adding and deleting comments,
  updating and deleting posts (class `PostStore`), and the composition of
  `getMixedCelebrityFeed` (function `MixedFeed`).

Shared pieces: `common.dfy` (ids, `Option`, the HTTP statuses), `lists.dfy`
(`Without`, the `filter(id => id !== x)` both controllers use) and `text.dfy`
(`Trim`, JavaScript's `String.prototype.trim`).

Database queries are passed in as values: a user map, the post collection as
a sequence listed in the order the queries sort it (newest first), and the
current time in milliseconds. Generated ids (the new comment's id) are
parameters too.

Three facts about the presence code shape the model:

- The table holds exactly one socket id per user. A later `join` overwrites
  the earlier entry, and `disconnect` deletes the first entry that holds the
  closing socket and stops.
- Notifying before `initSocket` has created the server sends nothing and
  raises nothing.
- `broadcastToAllClients` calls `forEach` on a plain object, so it throws
  whenever it runs (see Left out).

## Model

| member | source | states |
|---|---|---|
| `Lists.Without` | controller/user.js:71-77 | filtering drops every occurrence of the id and keeps the multiplicity of every other id |
| `Lists.WithoutAbsent` | controller/user.js:71-77 | filtering out an id that is not in the list leaves the list unchanged |
| `Lists.WithoutAppend` | controller/user.js:71-77 | filtering distributes over concatenation, so the remaining ids keep their order |
| `Lists.WithoutAppendedAbsent` | controller/post.js:190-194 | appending an absent id and filtering it out restores the list |
| `Lists.WithoutIdempotent` | controller/user.js:71-77 | filtering twice is the same as filtering once |
| `Text.TrimStart` | controller/post.js:227 | strips exactly the leading white space: a suffix of the input that starts with a non-space |
| `Text.TrimEnd` | controller/post.js:227 | strips exactly the trailing white space: a prefix of the input that ends with a non-space |
| `Text.Trim` | controller/post.js:215 | exactly the leading and the trailing white space is removed, and nothing else; the result has no white space at either end and is empty exactly when the input is all white space |
| `Presence.Joined` | socket/socket.js:17-19 | `join` leaves the user mapped to the new socket, overwriting any earlier one; every other entry is unchanged; a new key goes last in enumeration order |
| `Presence.FirstHolder` | socket/socket.js:23-24 | finds the first key in enumeration order whose socket is the closing one; none when no key holds it |
| `Presence.Disconnected` | socket/socket.js:22-29 | `disconnect` deletes only an entry that held the closing socket; every remaining entry keeps its socket |
| `Presence.DisconnectUnknownSocket` | socket/socket.js:23-29 | a socket that no entry holds leaves the table unchanged |
| `Presence.DisconnectRemovesOne` | socket/socket.js:25-27 | a held socket's disconnect deletes exactly one entry, then stops |
| `Presence.DisconnectFirstNewcomer` | socket/socket.js:22-29 | when the first key added after `t` holds the closing socket, disconnect deletes exactly that key |
| `Presence.JoinThenDisconnect` | socket/socket.js:17-29 | a new user joining on an unused socket and then disconnecting restores the table exactly |
| `Presence.RejoinSurvivesOldDisconnect` | socket/socket.js:17-29 | after a user re-joins on a new socket, closing the old socket keeps the user's entry on the new socket |
| `Presence.SharedSocketDisconnect` | socket/socket.js:17-29 | one socket joined under two user ids: its disconnect deletes only the first user's entry, and the second stays mapped to the closed socket |
| `Presence.Delivery` | socket/socket.js:44-49 | a lookup followed by an emit sends at most one emission, to the user's own socket, and only when the entry is truthy |
| `Presence.Deliveries` | socket/socket.js:34-41 | a fan-out sends at most one emission per listed recipient; every emission goes to a socket in the table and carries the event and payload |
| `Presence.DeliveriesAppend` | socket/socket.js:34-41 | a fan-out to two lists is the first list's fan-out followed by the second's, so a recipient listed twice is sent to twice, in list order |
| `Presence.DeliveriesSingle` | socket/socket.js:35-39 | a fan-out to one recipient is that recipient's single lookup and emit |
| `Presence.DeliveriesSnoc` | socket/socket.js:35-39 | each `forEach` step adds the delivery of the next follower |
| `Presence.DeliveriesToNoOne` | socket/socket.js:36-37 | when no recipient has a truthy entry, nothing is sent |
| `Presence.Registry.constructor` | socket/socket.js:3-4 | the module starts with no server, an empty table and nothing sent |
| `Presence.Registry.InitSocket` | socket/socket.js:6-12 | `initSocket` creates the server; the table is untouched |
| `Presence.Registry.Join` | socket/socket.js:17-19 | the table after `join` is `Joined` of the table before |
| `Presence.Registry.Disconnect` | socket/socket.js:22-29 | the loop deletes the entry `Disconnected` describes and reports which user, if any, was deleted |
| `Presence.Registry.NotifyFollowers` | socket/socket.js:34-41 | the outbox grows by the "new-post" fan-out to the followers, or by nothing before `initSocket`; the table is not modified |
| `Presence.Registry.NotifyUserById` | socket/socket.js:44-49 | the outbox grows by at most one "user-event" emission to the user's socket, or by nothing before `initSocket`; the table is not modified |
| `Users.AllUsersExcept` | controller/user.js:6 | lists exactly the documents whose id is not the requester's, each as many times as it is stored, and everyone when the requester is not in the collection |
| `Users.AddEdge` | controller/user.js:29-31 | the target is appended to the end of the current user's following list, and the current user to the end of the target's followers; nothing else changes |
| `Users.RemoveEdge` | controller/user.js:71-77 | the target is filtered out of the following list and the current user out of the followers list; nothing else changes |
| `Users.FollowThenUnfollow` | controller/user.js:29-31 | follow and then unfollow, starting with no edge, restores both lists exactly |
| `Users.UnfollowWithoutEdge` | controller/user.js:71-77 | unfollowing a celebrity one does not follow leaves both lists unchanged |
| `Users.UnfollowIdempotent` | controller/user.js:71-77 | unfollowing twice is the same as unfollowing once |
| `Users.FollowAddsOnce` | controller/user.js:29-31 | a first follow puts exactly one occurrence of the target in the following list and one more of the follower in the followers list, and keeps the earlier elements in place |
| `Users.UserStore.FollowUser` | controller/user.js:13-41 | 400 for a self-follow or a missing or non-celebrity target; 500 for a missing requester document; otherwise 200, the edge is added unless it already exists, and a repeated follow changes nothing |
| `Users.UserStore.UnfollowUser` | controller/user.js:54-87 | the same 400 and 500 cases with no change; otherwise 200 and the edge is removed from both lists |
| `Posts.ToggledLikes` | controller/post.js:190-194 | the user's like flips; every other id keeps its multiplicity; a new like goes at the end; an unlike filters the user out and keeps the other likes in order |
| `Posts.ToggleTwice` | controller/post.js:190-194 | toggling twice, starting with no like from the user, restores the like list exactly |
| `Posts.FindIndex` | controller/post.js:263 | the first position satisfying the predicate, or none when no position does |
| `Posts.FindIndexAppend` | controller/post.js:263 | searching a list with one more element at the end finds the old answer, or else the new element |
| `Posts.FirstMatching` | controller/post.js:242 | the returned comment is the first one, in list order, by that user with that text; nothing is returned only when no such comment exists |
| `Posts.FoundAfterAppend` | controller/post.js:231-242 | after the push, the lookup always finds a comment, but it is an earlier duplicate when one exists |
| `Posts.RemoveAt` | controller/post.js:275 | the splice removes exactly the element at the index and keeps the others in order |
| `Posts.AddThenDeleteComment` | controller/post.js:231-275 | a comment with a fresh id is found at the end after it is added, and deleting it restores the comment list |
| `Posts.NewCaption` | controller/post.js:83 | a missing or empty caption keeps the old one; any other caption replaces it |
| `Posts.PostStore.ToggleLike` | controller/post.js:179-207 | 404 with no change for a missing post; otherwise 200 and the like list is toggled for the user |
| `Posts.PostStore.AddComment` | controller/post.js:209-250 | 400 for missing or blank text, checked before the lookup; 404 for a missing post; in both cases nothing changes; otherwise 201, one comment with the trimmed text is appended, and the first matching comment is returned |
| `Posts.PostStore.DeleteComment` | controller/post.js:252-294 | 404 for a missing post or comment; 403 unless the requester wrote the comment or owns the post; in those cases nothing changes; otherwise the first comment with the id is spliced out |
| `Posts.PostStore.UpdatePost` | controller/post.js:74-105 | 404 for a missing post and 403 for a non-owner, both with no change; otherwise the caption rule applies and the image is replaced only when a file came with the request |
| `Posts.PostStore.DeletePost` | controller/post.js:107-132 | 404 for a missing post and 403 for a non-owner, both with no change; otherwise the post is removed |
| `Feed.Filter` | controller/post.js:144-157 | a query keeps exactly the posts that meet its condition |
| `Feed.FilterUniqueIds` | controller/post.js:144-157 | when post ids are distinct in the collection, a query never returns one twice |
| `Feed.FilterNewestFirst` | controller/post.js:147 | a query over a newest-first collection returns its posts newest first |
| `Feed.Ids` | controller/post.js:149 | the id list has one id per post, position by position |
| `Feed.Limit` | controller/post.js:157 | `.limit(50)` keeps a prefix of length at most fifty, or the whole list when it is shorter |
| `Feed.FollowedRecent` | controller/post.js:142-147 | the first query returns exactly the posts by followed users created at or after the cutoff (inclusive) |
| `Feed.OtherCelebrityPosts` | controller/post.js:151-156 | the second query returns exactly the celebrity posts whose id is not among the excluded ids |
| `Feed.MixedFeed` | controller/post.js:134-166 | 404 for a missing requester; otherwise the recent followed posts come first, then the first fifty (or all, if fewer) newest-first celebrity posts not among them |
| `Feed.MixedFeedUniqueIds` | controller/post.js:142-159 | when post ids are distinct, no post appears twice in the mixed feed |
| `Feed.MixedFeedPartsNewestFirst` | controller/post.js:144-157 | over a newest-first collection, each of the feed's two parts is newest first |

## Left out

- Socket.IO server construction, its CORS options, the connection log lines and the real `emit` transport (socket/socket.js:6-15): a foreign library. Emission is an append to the outbox.
- `broadcastToAllClients` (socket/socket.js:50-54): it calls `forEach` on a plain object and so throws a TypeError whenever it runs, and nothing calls it. There is no behaviour to model.
- Property enumeration order: the model uses insertion order for the keys of `connectedUsers`. JavaScript lists integer-like keys first, in numeric order. The document ids the clients send are 24-digit hexadecimal strings, so they are not integer-like. Keys such as `__proto__`, which an object would inherit, are not modelled either.
- Mongoose persistence: `findById`, `find` with `$ne`, `$in`, `$nin` and `role`, `populate`, `select`, `save` and `deleteOne`. Query results are parameters or explicit filters over the collection. The `select` projection of `getAllUsers` is not modelled: whole documents are returned.
- Failures after `populate` (for example, a comment whose author document was deleted, so `c.user._id` throws) are not modelled. The post handlers' 500 replies for exceptions are not modelled either.
- The two separate saves in follow and unfollow (controller/user.js:33-34, 79-80) are not atomic. Interleavings of concurrent requests are not modelled; the model is sequential.
- The notifications the post handlers send after a change (controller/post.js:94-98, 120-125, 198-199, 236-240, 280-285) are not modelled. The follower lists they use come from a database query. The fan-out they call is modelled by `Presence.Registry.NotifyFollowers`.
- `createPost`, `getCelebrityPosts`, `getFeed`, `getPostsByCelebrityId` and `getFollowedCelebrities`: each is a single query with no in-memory logic.
- File deletion with `fs.unlinkSync` (controller/post.js:86, 116), multer storage and upload file names (routes/post.js:10-20): file-system I/O. The uploaded file's name is a parameter.
- Authentication (controller/auth.js, middleware/auth.js): bcrypt and JWT wrappers. The requester's id is a parameter.
- Route tables and server start-up (routes/, index.js). routes/Notifications.js imports a controller that is not part of this model.
- `Date.now()` and `new Date()`: the current time is an integer number of milliseconds passed as a parameter.
- `Posts.PostStore.AddComment`: text that is present but not a string (so `trim` throws) is not modelled; the text is `Option<string>`.
- `Users.UserStore.FollowUser` and `Users.UserStore.UnfollowUser`: ids are taken to be well-formed document ids. An id that is not a valid ObjectId makes `findById` throw a cast error, so the code answers 500 (controller/user.js:22-23, 38-39, 63-64, 83-85). The model answers 400 for such a target, as it does for any missing user.
- `Posts.PostStore.UpdatePost`: the caption is `Option<string>`. A truthy caption that is not a string (controller/post.js:77, 83) is cast or rejected by Mongoose on save, and the model does not capture that.
