# SocialConnect: follow graph, notifications and client state

SocialConnect is a small social network written as a Next.js application.
Users follow each other, write posts, like and comment on them, and receive
notifications. This project is a Dafny model of the application's core logic:

- **The relational store and its route handlers.**
  - `Store.Store` is a class whose tables are the users, the follow pairs,
    the posts, the like pairs and the notifications.
  - Each mutating route handler is a method that returns an HTTP-like
    outcome and changes the tables in place:
    follow, unfollow, the four notification writers, mark-all-read, the
    create-notification endpoint, creating a post and the admin's post delete.
  - The read-only routes are functions over the table values:
    the unread count, the two "newest 50" notification listings, the post
    and user listings, discover and the admin user list.
- **The listing arithmetic shared by those routes.**
  - Page and limit clamping, and `skip = page * limit`.
  - Fetching one extra row to decide `hasMore`.
  - The `likedByMe`, `isFollowing` and `followerCount` lookups.
  - The ORM's `findMany` becomes filter, a stable sort and a skip/take window
    over sequences (`Query`).
- **The client's state machines and pure helpers.**
  - The live unread counters (`Counters`).
  - The feed with its de-duplicating merge, optimistic likes and optimistic
    comments (`Feed`).
  - The local list updates of the notifications, discover, admin and profile
    pages.
  - The post dialog's validation.
  - The whitelist-based profile update.
  - The name, initials and time-ago helpers.

Inputs the model cannot compute are parameters:
- the caller's identity, as `Option<UserId>`;
- the clock, `now`;
- whether a database write, a storage upload or a client-side network call
  succeeded, a `bool` flag or an `Option` answer;
- the public URL the storage hands back.

Methods with these parameters state an outcome for every value the parameters
can take. Database reads have no such parameter: they are computed from the
store and always succeed (see "## Left out").

Every operation has a partner. Each one is proved against one of these:
- a specification function;
- an inverse (follow/unfollow, like/unlike, click twice);
- an invariant it keeps (the store's unique indexes, the non-negative counter);
- an independent characterisation (the server-side unread count that the
  client's event replay tracks).

## Model

| member | source | states |
|---|---|---|
| Common.Trim | app/api/posts/route.ts:74 | `s.trim()`: the result is no longer than the input and neither starts nor ends with whitespace |
| Common.TrimIsSlice | app/api/posts/route.ts:74 | the trimmed text is the contiguous slice of the input after its leading whitespace, and only whitespace lies before and after it |
| Common.TrimEmptyIff | app/api/posts/route.ts:74 | trimming leaves the empty string exactly when every character is whitespace |
| Common.Utf16Length | app/api/posts/route.ts:77 | `s.length` counts UTF-16 code units: at least one and at most two per character |
| Common.Utf16LengthBmp | app/api/posts/route.ts:77 | on the Basic Multilingual Plane the length is the number of characters |
| Common.Utf16LengthAstral | app/api/posts/route.ts:77 | characters outside the Basic Multilingual Plane count two units each |
| Common.ContainsIff | app/discover/page.tsx:124-127 | the scan standing for `s.includes(sub)` succeeds iff `sub` occurs at some position of `s` |
| Common.LastSegment | components/post/createPostDialog.tsx:67 | `s.split(sep).pop()`: a suffix of `s` that contains no separator and is preceded by one unless it is the whole string |
| Common.JoinedPath | context/userContext.tsx:161-163 | a path `prefix + middle + "." + ext` starts with `prefix` and its last dot-segment is `ext` |
| Common.ReplaceWhere | app/admin/page.tsx:152 | the list keeps its length; exactly the rows the predicate picks (here: the response's id) become the new row, the others stay in place |
| Common.Filter | app/discover/page.tsx:120 | `xs.filter(p)`: only elements satisfying `p`, every such element kept, none invented |
| Common.FilterIsSubsequence | app/discover/page.tsx:120 | a filter result keeps the order of the input: it is a subsequence |
| Common.CountIsFilterLength | app/notifications/page.tsx:220 | counting with a condition equals the length of the filtered sequence |
| Common.CountUpdate | app/notifications/page.tsx:142-146 | replacing one element changes a count exactly by the difference of the two elements' contributions |
| Common.NatToString | app/notifications/page.tsx:250 | a non-negative number prints as a non-empty string of decimal digits |
| Common.NatToStringValue | app/notifications/page.tsx:250 | the printed digits denote the number itself (last digit plus ten times the rest) and have no leading zero |
| Query.OrderBySorted | app/api/notifications/route.ts:35-37 | `orderBy` yields a sequence sorted by any total preorder, and it is a permutation of the rows |
| Query.TopWindow | app/api/notifications/route.ts:35-38 | `orderBy` then `take: n` is sorted, holds rows of the input only, and every row left out ranks no earlier than every row kept |
| Query.Window | app/api/posts/route.ts:23-24 | a `skip`/`take` window is the contiguous run of the listing from position `skip`, so it keeps the listing's order |
| Query.PageParam | app/api/posts/route.ts:13 | `Math.max(0, page ?? 0)`: the requested page when it is non-negative, else 0 |
| Query.LimitParam | app/api/posts/route.ts:14 | `Math.min(50, limit ?? default)`: never above 50, and the request itself when it is at most 50 |
| Query.NonNegativeWindowIff | app/api/posts/route.ts:13-24 | the route's `skip: page * limit` and `take: limit + 1` are both non-negative exactly when the limit is non-negative, or is -1 on the first page |
| Query.SkipOf | app/api/posts/route.ts:15 | the skip handed to the ORM is `page * limit` |
| Query.OverFetch | app/api/posts/route.ts:24-31 | taking `limit + 1` rows and popping the extra one yields exactly the first `limit` rows after the skipped ones, and `hasMore` iff rows remain after them; with `limit = -1` nothing is taken and `hasMore` is true |
| Domain.ParseNotificationType | app/api/notifications/create/route.ts:17 | the database accepts exactly the four notification types |
| Domain.ParseCategory | app/api/posts/route.ts:85 | the database accepts exactly the three post categories |
| Domain.RoleOf | app/api/admin/users/route.ts:14-17 | the role lookup finds a row iff a user with that id exists, and returns that user's role |
| Domain.AdminGate | app/api/admin/users/route.ts:11-17 | access iff the caller exists and has a user row with role ADMIN; 401 without a caller, 403 otherwise; the posts delete route uses the same gate |
| Domain.FollowersOf | lib/notifications.ts:67-70 | the follower query returns exactly the follow pairs of the table that point at the user: none other, and every one of them |
| Domain.FollowersOfCount | lib/notifications.ts:67-70 | the follower list and the follower count agree |
| NotificationWriter.FollowRow | lib/notifications.ts:3-12 | the FOLLOW row goes to the followed user, from the follower, with no post, the fixed message and unread |
| NotificationWriter.LikeRows | lib/notifications.ts:18-39 | no row iff the liker is the author; otherwise exactly one unread LIKE row to the author with the post id and "liked your post" |
| NotificationWriter.CommentRows | lib/notifications.ts:41-62 | no row iff the commenter is the author; otherwise exactly one unread COMMENT row to the author with the post id and "commented on your post" |
| NotificationWriter.PostRowsFor | lib/notifications.ts:72-78 | `followers.map(...)`: one POST row per follow pair, in order, each from the author with the post id and "shared a new post" |
| NotificationWriter.FanOutRows | lib/notifications.ts:64-84 | the fan-out's rows number exactly the author's followers, and the i-th row goes to the i-th follower |
| NotificationWriter.FanOutEmptyIff | lib/notifications.ts:80-84 | the fan-out writes nothing exactly when the author has no followers |
| NotificationWriter.FanOutRecipientsFollow | lib/notifications.ts:67-78 | every fan-out recipient follows the author |
| NotificationWriter.FanOutNoSelfNotification | lib/notifications.ts:67-78 | since nobody follows themselves, the fan-out never notifies the author |
| NotificationWriter.FanOutDistinctRecipients | lib/notifications.ts:67-78 | with unique follow pairs, no follower receives two rows |
| NotificationWriter.FollowRowHasNoSelfCheck | lib/notifications.ts:3-12 | the follow writer has no self check: a self follow would notify its own sender |
| FollowRoutes.FollowGuard | app/api/users/follow/route.ts:9-44 | the follow route's checks in order: 401 without a caller, 400 "User ID is required", 400 "Cannot follow yourself", 404 for an absent or inactive target, 400 "Already following"; none of them fails iff the pair may be inserted |
| FollowRoutes.UnfollowGuard | app/api/users/unfollow/route.ts:9-31 | 401 without a caller, 400 without a user id, 400 "Not following this user" when the pair is absent; no check of the target user itself |
| FollowRoutes.Link | app/api/users/follow/route.ts:47-52 | the insert adds the pair and keeps every other pair |
| FollowRoutes.Unlink | app/api/users/unfollow/route.ts:34-41 | the delete removes the pair, keeps every other pair in order and adds nothing |
| FollowRoutes.LinkKeepsInvariants | app/api/users/follow/route.ts:19-52 | inserting a new non-self pair keeps the follow table free of duplicates and self follows |
| FollowRoutes.UnlinkRemovesOne | app/api/users/unfollow/route.ts:34-41 | with unique pairs, a delete removes exactly one row when the pair exists and none otherwise |
| FollowRoutes.UnlinkKeepsInvariants | app/api/users/unfollow/route.ts:34-41 | a delete keeps the table free of duplicates and self follows |
| FollowRoutes.UnlinkAfterLink | app/api/users/follow/route.ts:47-52 | following and then unfollowing the same target restores the follow table exactly |
| Inbox.UnreadCount | app/api/notifications/unread-count/route.ts:13-18 | the unread count never exceeds the number of the caller's notifications |
| Inbox.UnreadCountAppend | app/api/notifications/unread-count/route.ts:13-18 | the count over two runs of rows is the sum of their counts |
| Inbox.UnreadCountZero | app/api/notifications/unread-count/route.ts:13-18 | with no unread row for the caller the count is 0 |
| Inbox.MarkAllReadRows | app/api/notifications/mark-all-read/route.ts:13-21 | afterwards every row of the caller is read; only `isRead` can change, and rows of other recipients or already read are untouched |
| Inbox.MarkAllReadClearsUnread | app/api/notifications/mark-all-read/route.ts:13-21 | after mark-all-read the caller's unread count is 0 |
| Inbox.MarkAllReadKeepsOthers | app/api/notifications/mark-all-read/route.ts:14-20 | mark-all-read leaves every other user's unread count as it was |
| Inbox.MarkAllReadIdempotent | app/api/notifications/mark-all-read/route.ts:13-21 | marking all read twice is the same as once |
| Inbox.NewerFirstIsOrder | app/api/notifications/route.ts:35-37 | "newest first" is a total preorder |
| Inbox.Newest | app/api/notifications/route.ts:13-39 | the listing holds min(50, n) of the caller's n rows, only the caller's, newest first, drawn from the caller's rows, and no row left out is newer than a row listed |
| Inbox.NotificationsGet | app/api/notifications/route.ts:9-41 | 401 exactly when anonymous; otherwise the caller's newest 50 |
| Inbox.NotificationsList | app/api/notifications/list/route.ts:7-15 | an anonymous caller gets the empty list; otherwise the caller's newest 50 |
| Inbox.UnreadCountGet | app/api/notifications/unread-count/route.ts:9-20 | 401 exactly when anonymous; otherwise the caller's unread count |
| Inbox.ListingsAgree | app/api/notifications/list/route.ts:7-15 | both listings return the same rows for a caller, and the list route answers the other route's 401 with an empty list |
| Inbox.TypeName | app/api/notifications/create/route.ts:17 | the name of each notification type parses back to that type |
| Inbox.CreateEndpointMessageAgainstWriters | app/api/notifications/create/route.ts:19-26 | FOLLOW, LIKE and COMMENT get the writers' messages; POST and every other type get "new activity", unlike the fan-out's "shared a new post" |
| Counters.ReplayNonNegative | context/NotificationContext.tsx:64-89 | from a non-negative start the counter stays non-negative over any sequence of events |
| Counters.ReplayInsertsOnly | hooks/useRealTimeNotifications.ts:26-28 | n insert events add exactly n |
| Counters.StepTracksChange | context/NotificationContext.tsx:63-90 | one insert of an unread row or one read flip changes the server's unread count exactly as the client's step does |
| Counters.ReplayTracksServer | context/NotificationContext.tsx:38-90 | starting from the fetched count, replaying the realtime events of any valid change sequence yields the server's unread count afterwards |
| Counters.NotificationProvider.constructor | context/NotificationContext.tsx:27-28 | the counter starts at 0 with no new-notification flag |
| Counters.NotificationProvider.FetchUnreadCount | context/NotificationContext.tsx:38-48 | a successful fetch replaces the counter by the server's count; a failed one keeps it |
| Counters.NotificationProvider.OnInsert | context/NotificationContext.tsx:63-65 | an INSERT adds 1 and raises the flag |
| Counters.NotificationProvider.OnUpdate | context/NotificationContext.tsx:87-91 | an UPDATE that flips a row to read sets the counter to max(0, count - 1); every other UPDATE leaves it |
| Counters.NotificationProvider.ClearNewNotification | context/NotificationContext.tsx:100-102 | clears the flag and keeps the counter |
| Counters.RealtimeCounter.constructor | hooks/useRealTimeNotifications.ts:10 | the hook's counter starts at 0, with no server fetch |
| Counters.RealtimeCounter.OnInsert | hooks/useRealTimeNotifications.ts:26-28 | an INSERT adds 1 |
| Counters.RealtimeCounter.OnUpdate | hooks/useRealTimeNotifications.ts:38-42 | a read flip sets the counter to max(0, count - 1); other UPDATEs change nothing |
| Counters.RealtimeCounter.Run | hooks/useRealTimeNotifications.ts:10-42 | handling a sequence of events one by one gives the replayed count, which stays non-negative |
| Store.Store.CreateFollowNotification | lib/notifications.ts:3-16 | appends exactly the FOLLOW row, touching no existing row; a failed write appends nothing and raises nothing |
| Store.Store.CreateLikeNotification | lib/notifications.ts:18-39 | appends the like rows (none for the author's own like); a failed write changes nothing |
| Store.Store.CreateCommentNotification | lib/notifications.ts:41-62 | appends the comment rows (none for the author's own comment); a failed write changes nothing |
| Store.Store.CreatePostNotification | lib/notifications.ts:64-88 | appends one POST row per follower of the author; nothing with no followers or a failed `createMany` |
| Store.Store.FollowUser | app/api/users/follow/route.ts:7-72 | a failed check answers its status and changes nothing; a failed insert, or a caller without a user row (the follower's foreign key), answers 500 and changes nothing; a successful insert adds exactly the pair, then either appends the FOLLOW row with 200 or keeps the pair and answers 500 when the notification insert fails |
| Store.Store.UnfollowUser | app/api/users/unfollow/route.ts:7-50 | a failed check answers its status and changes nothing; otherwise exactly that pair is removed, no notification is written, and 200 is answered |
| Store.Store.MarkAllRead | app/api/notifications/mark-all-read/route.ts:7-30 | 401 without a caller and 500 on a failed write, both without change; otherwise the notifications become `MarkAllReadRows` of the old ones and nothing else changes |
| Store.Store.CreateNotification | app/api/notifications/create/route.ts:7-35 | 401 without a caller; the sender is always the caller and the message comes from the type; the post id is stored as given, none when absent; exactly one row is appended iff the type is valid and the referenced rows exist; no self check; every failure is the same 500 with no change |
| Store.Store.CreatePost | app/api/posts/route.ts:62-110 | 401, then the content checks, all before any insert; on 201 the trimmed post is appended with the default category and no image unless given, the response has likedByMe false, and the fan-out rows follow |
| Store.Store.InsertPost | app/api/posts/route.ts:81-92 | the new row gets the next id, the given text, image, category, zero counts and is active; it is appended and the fan-out rows follow it when the notifier succeeds; the store invariant is kept |
| Store.Store.AddPost | app/api/posts/route.ts:81-91 | `prisma.post.create` alone: the row under the next free id is appended with zero counts and active, the ids stay unique, and no other table changes |
| Store.Store.AdminDeletePost | app/api/admin/posts/route.ts:10-26 | the admin gate's 401 or 403 with no change; an admin removes exactly the post with that id when the delete succeeds; a missing id or a failed delete answers 500 "Failed to delete post" with no change |
| PostsApi.View | app/api/posts/route.ts:43-53 | a serialized post carries the row's id, content, author and counters and the given likedByMe |
| PostsApi.NewestPostFirstIsOrder | app/api/posts/route.ts:22 | "newest first" is a total preorder |
| PostsApi.ActiveNewestFirstFacts | app/api/posts/route.ts:20-22 | the listing is a permutation of the active posts, all active, newest first |
| PostsApi.LikedIds | app/api/posts/route.ts:34-41 | a page post is liked iff the caller has a like row for it; nothing is liked for an anonymous caller |
| PostsApi.PostsGet | app/api/posts/route.ts:10-59 | the page is the window at `page * limit` of the active posts newest first, each with likedByMe from the like table, and hasMore iff rows remain; `limit = -1` on the first page gives an empty page with hasMore true; a negative skip or take is answered with the 500 |
| PostsApi.Serialize | app/api/posts/route.ts:33-53 | one view per fetched row, in order, carrying the row's fields and `likedByMe` exactly when the caller has a like row for it |
| PostsApi.PostsPageFacts | app/api/posts/route.ts:20-52 | every post of a page is active, the page is newest first, and an anonymous caller sees no post as liked |
| PostsApi.NewPostGuard | app/api/posts/route.ts:74-79 | content is accepted iff it is present, non-blank after trimming and at most 280 UTF-16 code units BEFORE trimming; the two refusals in that order |
| PostsApi.PaddedContentRefused | app/api/posts/route.ts:77 | a one-letter post padded with 280 spaces is refused as too long, though it trims to one character |
| UsersApi.BuildWhere | app/api/users/route.ts:23-35 | the where-object built field by field from the search term and the caller matches a user iff the user is active, contains the term in username, first or last name ignoring case (when the term is not empty), and is not the caller |
| UsersApi.FindUsers | app/api/users/route.ts:23-40 | `findMany` with the built where-object and newest-first ordering returns exactly the listing of active, matching users other than the caller, newest first |
| UsersApi.WhereSelectsListing | app/api/users/route.ts:38-40 | querying with a where that matches exactly the listed users yields the specified listing |
| UsersApi.Card | app/api/users/route.ts:77-87 | a user card carries the id, the follower count and the isFollowing flag |
| UsersApi.FollowerCountMap | app/api/users/route.ts:58-65 | the groupBy map gives each listed user its follower count |
| UsersApi.FollowingSet | app/api/users/route.ts:67-75 | a listed user is marked iff the caller follows them; nobody is marked for an anonymous caller |
| UsersApi.Cards | app/api/users/route.ts:77-87 | one card per row, with followerCount from the follow table (0 by default) and isFollowing iff the caller follows the user |
| UsersApi.UsersGet | app/api/users/route.ts:13-94 | the page is the window at `page * limit` of the listing with its cards and hasMore from the extra row; `limit = -1` on the first page gives an empty page with hasMore true; a negative skip or take is answered with the 500 |
| UsersApi.NewestUserFirstIsOrder | app/api/users/route.ts:40 | "newest first" is a total preorder |
| UsersApi.UsersPageFacts | app/api/users/route.ts:24-42 | every listed user is active, matches the search, is not the caller, and the page is newest first |
| UsersApi.VerifiedThenNewestIsOrder | app/api/users/discover/route.ts:39-42 | "verified first, then newest" is a total preorder |
| UsersApi.DiscoverCard | app/api/users/discover/route.ts:29-37 | the post count includes only active posts; the follower and following counts include every follow pair |
| UsersApi.FollowingIds | app/api/users/discover/route.ts:47-52 | followingIds holds exactly the users the caller follows, not only the listed ones |
| UsersApi.Discover | app/api/users/discover/route.ts:7-57 | 401 exactly when anonymous; otherwise at most 50 cards of the candidates and the caller's complete following list |
| UsersApi.DiscoverOrder | app/api/users/discover/route.ts:14-43 | the candidates exclude the caller and inactive users, number min(50, eligible), put verified users first and are newest first within each group, and nobody left out ranks above anybody listed |
| UsersApi.AdminCard | app/api/admin/users/route.ts:20-38 | the admin row carries role and active flag, a post count over all posts with no active filter, and both follow counts |
| UsersApi.AdminUsers | app/api/admin/users/route.ts:10-46 | the gate's error exactly when it refuses; otherwise every user, inactive ones included, newest first, with counts |
| UsersApi.AdminUsersFacts | app/api/admin/users/route.ts:20-21 | the admin listing is a permutation of the user table, newest first |
| UsersApi.PostCountsCompare | app/api/users/discover/route.ts:33-35 | the discover post count never exceeds the admin post count |
| Feed.Merge | components/feeds/PostFeed.tsx:73-78 | the merge keeps `prev` as a prefix and appends, in order, only incoming posts whose ids were not in `prev`, and loses no incoming post |
| Feed.MergeIdempotent | components/feeds/PostFeed.tsx:73-78 | merging the same page twice is the same as once |
| Feed.Flip | components/feeds/PostFeed.tsx:109-119 | the optimistic like negates likedByMe and moves likeCount by +1 or -1 accordingly, and changes nothing else |
| Feed.FlipInvolution | components/feeds/PostFeed.tsx:136-146 | flipping twice restores the post exactly |
| Feed.ToggleLikes | components/feeds/PostFeed.tsx:109-119 | only posts with the target id are flipped |
| Feed.ToggleTwiceRestores | components/feeds/PostFeed.tsx:109-146 | the failure revert after the optimistic toggle restores the whole list |
| Feed.ServerLike | components/feeds/PostFeed.tsx:126-132 | the server's reply overwrites the target's likedByMe and likeCount and nothing else |
| Feed.ServerLikeOverridesFlip | components/feeds/PostFeed.tsx:109-132 | after the server reply the optimistic flip leaves no trace |
| Feed.BumpComments | components/feeds/PostFeed.tsx:198-202 | only the target's comment count goes up by one |
| Feed.DropComment | components/feeds/PostFeed.tsx:234-240 | only the target's comment count becomes max(0, count - 1) |
| Feed.ReplaceTemp | components/feeds/PostFeed.tsx:219-226 | the temporary comment is replaced by the server's and the server's comment is appended only when its id is still absent |
| Feed.RemoveTemp | components/feeds/PostFeed.tsx:230-233 | the failure path removes the temporary comment and keeps the others in order |
| Feed.FailedCommentRestoresList | components/feeds/PostFeed.tsx:195-233 | appending the temporary comment and then removing it restores the list |
| Feed.FailedCommentRestoresCount | components/feeds/PostFeed.tsx:198-240 | bumping and then dropping a comment count restores the posts |
| Feed.PostFeed.constructor | components/feeds/PostFeed.tsx:48-60 | an empty feed at page 0 with more to load and empty comment panels |
| Feed.PostFeed.FetchPosts | components/feeds/PostFeed.tsx:63-87 | no request while loading or without more; on success the merge, hasMore from the response and page + 1; on failure no change |
| Feed.PostFeed.ToggleLike | components/feeds/PostFeed.tsx:108-148 | a server reply sets the posts to its values; a failure leaves the posts exactly as before the click |
| Feed.PostFeed.OpenComments | components/feeds/PostFeed.tsx:151-168 | marks the panel open; lists already loaded are not refetched; otherwise the fetched list or the empty list on failure |
| Feed.PostFeed.CloseComments | components/feeds/PostFeed.tsx:171-173 | only marks the panel closed |
| Feed.PostFeed.AddComment | components/feeds/PostFeed.tsx:176-242 | a blank draft changes nothing; otherwise the panel opens, the draft clears, and the list and count end as the success or failure path leaves them |
| Feed.PostFeed.PostComment | components/feeds/PostFeed.tsx:181-241 | with the temporary comment posted: the panel is open, the input empty, the comment list and the counts those of the reply or the revert |
| Feed.PostFeed.ShowTemp | components/feeds/PostFeed.tsx:192-202 | before the request: the panel is open, the temp comment is appended to the post's list, its input is cleared and its count is one higher; nothing else changes |
| Feed.PostFeed.SettleComment | components/feeds/PostFeed.tsx:216-240 | after the request: on success the temp comment is replaced by (or followed by) the server's; on failure it is removed and the count taken back down, floored at 0; panel and inputs are untouched |
| Names.OrElse | app/notifications/page.tsx:180 | `a \|\| b`: `a` when it is a non-empty string, else `b` |
| Names.DisplayName | app/notifications/page.tsx:176-181 | "first last" when both names are non-empty, else username, first name, last name or "Unknown User"; never empty |
| Names.Initials | app/notifications/page.tsx:183-191 | one or two characters, none lowercase: both initials upper-cased, else the username's first two characters upper-cased, else "U" |
| Names.FirstNameAloneGivesU | app/discover/page.tsx:138-146 | a user with only a first name is shown by that name but gets the initials "U" |
| NotificationsPage.WithRead | app/notifications/page.tsx:118-124 | copies the read flag onto the rows with the given id and changes nothing else |
| NotificationsPage.AllRead | app/notifications/page.tsx:160-163 | every row becomes read and nothing else changes |
| NotificationsPage.WithReadIsOneUpdate | app/notifications/page.tsx:142-146 | with unique ids, marking one row is a single-position update |
| NotificationsPage.MarkOneLowersUnread | app/notifications/page.tsx:141-146 | marking an unread row read lowers the local unread count by exactly one; marking a read row changes nothing |
| NotificationsPage.UpdateOfUnlistedRow | app/notifications/page.tsx:118-124 | an UPDATE for a row not in the list leaves the list unchanged |
| NotificationsPage.AllReadClearsUnread | app/notifications/page.tsx:160-163 | after marking all read the local unread count is 0 |
| NotificationsPage.InboxPage.constructor | app/notifications/page.tsx:54-56 | an empty list, loading |
| NotificationsPage.InboxPage.Fetch | app/notifications/page.tsx:67-83 | a successful fetch replaces the list and a failed one keeps it; loading ends |
| NotificationsPage.InboxPage.OnUpdate | app/notifications/page.tsx:117-125 | the realtime UPDATE copies the read flag onto the matching row only |
| NotificationsPage.InboxPage.MarkAsRead | app/notifications/page.tsx:134-151 | marks the matching row read only when the response is ok |
| NotificationsPage.InboxPage.MarkAllAsRead | app/notifications/page.tsx:153-174 | on success every row is read and the unread count is 0, with the success toast; on failure nothing changes and the error toast shows; the busy flag ends cleared |
| NotificationsPage.Badge | app/notifications/page.tsx:248-250 | no badge iff the count is 0; "99+" above 99, otherwise the number; one to three characters |
| NotificationsPage.TimeAgo | app/notifications/page.tsx:208-217 | the bucket is chosen by the floor of elapsed seconds against 60, 3600, 86400 and 604800, and each bucket's number is the floor of the elapsed time in its unit, within its range |
| NotificationsPage.AgoLabel | app/notifications/page.tsx:213-217 | a label for every bucket but the last, which falls back to a locale date |
| NotificationsPage.TimeAgoMonotone | app/notifications/page.tsx:211-216 | an older notification never lands in a finer bucket than a newer one |
| DiscoverPage.ToClient | app/discover/page.tsx:52 | the page keeps each user's id and counts as the server sent them |
| DiscoverPage.LoadedFollowing | app/discover/page.tsx:53 | `new Set(followingIds)` has exactly the listed ids |
| DiscoverPage.LoadedFollowingMatchesTable | app/discover/page.tsx:53 | after loading, the page's following set is exactly the users the caller follows in the follow table |
| DiscoverPage.FilteredUsers | app/discover/page.tsx:120-129 | the visible users are a subsequence of the users: exactly those whose username, first name, last name or bio contains the term, ignoring case; a null field never matches |
| DiscoverPage.EmptySearchShowsAll | app/discover/page.tsx:121 | an empty search shows every user |
| DiscoverPage.Toggle | app/discover/page.tsx:80-88 | the clicked id's membership flips and no other id changes |
| DiscoverPage.AdjustFollowers | app/discover/page.tsx:90-103 | only the target's follower count moves, by the delta |
| DiscoverPage.AdjustFollowersInverse | app/discover/page.tsx:90-103 | adjusting by a delta and then by its negation restores the list |
| DiscoverPage.ClickDelta | app/discover/page.tsx:68-71 | -1 iff the user is currently followed, else +1 |
| DiscoverPage.ClickTwiceRestores | app/discover/page.tsx:68-103 | two successful clicks on the same user restore the set and the counts |
| DiscoverPage.DiscoverView.constructor | app/discover/page.tsx:36-40 | nothing loaded, nothing pending |
| DiscoverPage.DiscoverView.Fetch | app/discover/page.tsx:46-63 | a successful fetch sets the users and the following set; a failed one keeps them; loading ends |
| DiscoverPage.DiscoverView.HandleFollow | app/discover/page.tsx:65-118 | the endpoint is unfollow iff the user is followed; on success membership flips and only that user's count moves by -1 or +1; on failure nothing changes and the server's message or "Action failed" shows; the pending mark is cleared |
| AdminPage.Filtered | app/admin/page.tsx:106-117 | a subsequence of the users: exactly those of the chosen role whose username, email or "first last" contains the query, ignoring case |
| AdminPage.UnfilteredShowsAll | app/admin/page.tsx:108-109 | with all roles and an empty query every user shows |
| AdminPage.SpaceQueryMatchesEveryone | app/admin/page.tsx:114 | a query of one space matches every user, because the full name always contains the separating space |
| AdminPage.NextSelection | app/admin/page.tsx:120-124 | no selection picks the first visible user; a selection still visible stays; one no longer visible becomes the first visible user or none |
| AdminPage.SelectionIsVisible | app/admin/page.tsx:120-122 | after the effect a selection is visible, and there is no selection only when nothing is visible |
| AdminPage.ReplaceUnlisted | app/admin/page.tsx:152 | a response for an unlisted id leaves the list as it was |
| AdminPage.WithoutUser | app/admin/page.tsx:170 | exactly the rows of that id are removed, the rest keep their order |
| AdminPage.WithoutPost | app/admin/page.tsx:208 | exactly that post is removed from a list, the rest keep their order |
| AdminPage.WithoutPostEverywhere | app/admin/page.tsx:205-211 | every loaded list loses that post and no key is added or dropped |
| AdminPage.DecrementPostCount | app/admin/page.tsx:213 | a row with counts gets posts = max(0, (posts ?? 1) - 1), never negative; a row without counts is untouched |
| AdminPage.DecrementAll | app/admin/page.tsx:213 | the adjustment is applied to every row |
| AdminPage.DecrementHitsNonAuthors | app/admin/page.tsx:213 | the adjustment also lowers the count of a user who did not write the deleted post |
| AdminPage.InitialOf | app/admin/page.tsx:222 | one non-lowercase character: the first letter of the first name, else of the username, else of the email, upper-cased, else "U" |
| AdminPage.PatchOf | app/admin/page.tsx:138-148 | the PATCH body carries exactly the editable fields of the selected user |
| AdminPage.Dashboard.constructor | app/admin/page.tsx:70-81 | nothing loaded, nothing selected, no dialog open |
| AdminPage.Dashboard.Reselect | app/admin/page.tsx:120-124 | the selection becomes `NextSelection` of the filtered list, and nothing else changes |
| AdminPage.Dashboard.HandleUpdateUser | app/admin/page.tsx:131-160 | nothing without a selection; otherwise the patch is sent, and on success the returned row replaces its id, becomes the selection and closes the dialog; on failure nothing changes |
| AdminPage.Dashboard.HandleDeleteUser | app/admin/page.tsx:166-178 | on success the user leaves the list, is deselected if selected and the dialog closes; on failure nothing changes |
| AdminPage.Dashboard.LoadPostsForUser | app/admin/page.tsx:180-194 | one request iff the user's posts are neither loaded nor loading; a success caches the posts, and loading ends either way |
| AdminPage.Dashboard.HandleDeletePost | app/admin/page.tsx:200-220 | on success the post leaves every loaded list and every counted user's post count goes down; on failure nothing changes |
| AdminPage.StripPost | app/admin/page.tsx:205-211 | the key-by-key loop over a copy of the map computes `WithoutPostEverywhere` |
| AdminPage.PostGoneEverywhere | app/admin/page.tsx:205-211 | after the deletion no loaded list shows the post |
| CreatePostDialog.FileError | components/post/createPostDialog.tsx:52-59 | a file is accepted iff its type starts with "image/" and it is at most 5 MB; the two messages in that order |
| CreatePostDialog.SizeLimitInclusive | components/post/createPostDialog.tsx:43-56 | exactly 5 * 1024 * 1024 bytes is accepted and one byte more refused |
| CreatePostDialog.TextError | components/post/createPostDialog.tsx:90-97 | content is accepted iff the trimmed text is non-empty and at most 280 UTF-16 code units; the two messages in that order |
| CreatePostDialog.CategoryName | components/post/createPostDialog.tsx:107-112 | the category's name parses back to that category on the server |
| CreatePostDialog.DialogPayloadPassesServer | components/post/createPostDialog.tsx:90-108 | content the dialog accepts is sent trimmed, and the server's content checks accept it |
| CreatePostDialog.AstralTextRefused | components/post/createPostDialog.tsx:94 | 141 emoji are 282 UTF-16 code units, so the dialog refuses them, and so does the route at app/api/posts/route.ts:77 |
| CreatePostDialog.UploadPath | components/post/createPostDialog.tsx:67-68 | the image path lies under the author's folder and keeps the file name's last dot-segment |
| CreatePostDialog.UndottedNameIsItsOwnExtension | components/post/createPostDialog.tsx:67 | a file name without a dot is its own "extension" |
| CreatePostDialog.RefusalMessage | components/post/createPostDialog.tsx:126-131 | the server's message when it has one, otherwise a non-empty fallback with the status |
| CreatePostDialog.Dialog.constructor | components/post/createPostDialog.tsx:35-40 | empty content, no file, no preview, category GENERAL, no error |
| CreatePostDialog.Dialog.HandleFileChange | components/post/createPostDialog.tsx:45-63 | no file clears file and preview; a refused file sets the error and keeps the file; an accepted one is kept with its preview |
| CreatePostDialog.Dialog.Submit | components/post/createPostDialog.tsx:87-145 | a text error is shown before any upload or request; otherwise the payload is the trimmed text, the image URL, the category and the author; success resets content, file, preview and category; a failed upload or a refusal shows its message and keeps the form; past the text checks submitting ends false |
| CreatePostDialog.Dialog.Send | components/post/createPostDialog.tsx:99-144 | the payload is sent iff there is no file or its upload succeeded; it carries the given text, the uploaded URL (only with a file), the category and the author; a failed upload shows its message and keeps the form; submitting ends false |
| CreatePostDialog.Dialog.Settle | components/post/createPostDialog.tsx:126-143 | an accepted post resets content, file, preview and category and leaves the error as it was; a refusal shows the server's message or the status fallback and keeps the form; submitting ends false |
| Profiles.EditableColumns | context/userContext.tsx:134-141 | the updates hold only keys among the seven profile columns, each present iff given, with its value, null values kept |
| Profiles.IdentityNeverWritten | context/userContext.tsx:134-143 | id, email and created_at are never written |
| Profiles.Merge | context/userContext.tsx:127-129 | the given fields overwrite and every other field of the previous profile is kept |
| Profiles.AvatarPath | context/userContext.tsx:161-163 | the avatar path is "avatars/" + id + "_" + ..., ending in the file name's last dot-segment |
| Profiles.BuildUpdates | context/userContext.tsx:134-141 | the seven field-by-field assignments build exactly `EditableColumns` |
| Profiles.UserContext.constructor | context/userContext.tsx:54-55 | no profile yet, loading |
| Profiles.UserContext.SetProfileLocal | context/userContext.tsx:127-129 | the profile becomes the merge of the previous one with the patch |
| Profiles.UserContext.UpdateProfile | context/userContext.tsx:131-157 | false and no write without an auth user; otherwise the whitelisted updates are sent, and the profile is reloaded on success and kept on failure |
| Profiles.UserContext.UploadAvatar | context/userContext.tsx:159-180 | null without an auth user; otherwise the path is derived, and a non-empty public URL is written to the profile row and merged locally |
| ProfilePage.Project | app/profile/page.tsx:87-92 | followers and following are the joined user records of the relations, in order, or the empty list |
| ProfilePage.SaveColumns | app/profile/page.tsx:136-146 | the save writes only the seven profile columns, all seven when the form holds them, with the form's values |
| ProfilePage.ReplaceKeepsIds | app/profile/page.tsx:174-179 | an edit never changes any post's id |
| ProfilePage.WithoutOwnPost | app/profile/page.tsx:192-195 | exactly that post is removed, the rest keep their order |
| ProfilePage.DeleteRemovesOne | app/profile/page.tsx:192-195 | with unique ids a delete removes exactly one post |
| ProfilePage.WithAvatar | app/profile/page.tsx:129 | the form's avatar_url becomes the public URL and nothing else changes |
| ProfilePage.UploadPathFor | app/profile/page.tsx:113-115 | "avatars/" + id + "_" + ... with the file's last dot-segment, and "undefined" in place of a missing id |
| ProfilePage.ProfileScreen.constructor | app/profile/page.tsx:41-44 | nothing loaded, not editing |
| ProfilePage.ProfileScreen.Load | app/profile/page.tsx:51-97 | a failed profile read redirects and changes nothing; otherwise user and form become the row with its posts and projected relations |
| ProfilePage.ProfileScreen.HandleSave | app/profile/page.tsx:133-155 | nothing without a form or an auth user; otherwise the seven columns are sent, and on success the form becomes the user and editing ends |
| ProfilePage.ProfileScreen.HandleUpdatePost | app/profile/page.tsx:159-182 | nothing without a post being edited; otherwise it is sent, and on success it replaces the post with its id and editing ends |
| ProfilePage.ProfileScreen.HandleDeletePost | app/profile/page.tsx:185-197 | on success exactly that post leaves the user's list |
| ProfilePage.ProfileScreen.SetFormAvatar | app/profile/page.tsx:129 | only the form's avatar changes |
| ProfilePage.ProfileScreen.HandleAvatarUpload | app/profile/page.tsx:110-130 | nothing without a file; otherwise the path is derived, and a successful upload puts the public URL into the form |

## Left out

- Rendering, layout, skeletons and the UI-only files: Header, clientLayout, the auth page, the home page, the pathname provider and the loaders. They hold no logic.
- components/NotificationBell.tsx and components/SidePannel.tsx: the bell's badge is the same `Badge` rule, and the side panel's realtime handler only refetches.
- context/authContext.tsx, lib/middleware.ts and scripts/create-admin.mjs: session plumbing, process spawning and environment handling. The identity provider is the `Option<UserId>` caller parameter.
- app/api/users/create/route.ts and the admin per-user routes are not part of this model. The admin page's PATCH, DELETE and posts answers are parameters.
- The post routes for likes and comments are not part of this model, so the server's likeCount and commentCount maintenance is not modelled. Only the client's optimistic arithmetic is.
- Concurrency: the race between the follow route's existence check and its insert is not modelled. Neither is the interleaving of several in-flight optimistic updates or React's effect scheduling; each handler runs to completion with its answers given.
- Realtime channel subscription, unsubscription and reconnection are not modelled; the handlers are methods that receive the events.
- The ORM's joins (`include: { author }`, serialized author fields, avatar URLs) are not modelled; the model carries ids in their place. Cascading deletes below a deleted post are not modelled either.
- `Number()` parsing of query strings is not modelled: page and limit arrive already parsed as `Option<int>`, so the NaN cases are left out.
- PostsApi.PostsGet: the route hands the ORM `skip: page * limit` and `take: limit + 1`. A `limit` below -1 makes the take negative, which the ORM reads as counting back from the end of the ordering. A `limit` of -1 on a later page makes the skip negative. The model answers both with the catch path's 500; what the ORM returns or raises there is not modelled. `limit = -1` on the first page is modelled: an empty page with `hasMore` true.
- UsersApi.UsersGet: the same negative skip or take is answered with the route's 500; the ORM's behaviour there is not modelled. `limit = -1` on the first page is modelled like the posts route.
- Case folding, trimming and `includes` are ASCII only (`Common.Lower`, `Common.Trim`); Unicode whitespace and non-ASCII case folding are not modelled.
- Names.Initials: `[0]` takes a UTF-16 code unit, but the model takes a character. For a name that starts outside the Basic Multilingual Plane, the source takes half of a surrogate pair, which Dafny's `char` cannot hold.
- AdminPage.InitialOf: the same holds for its `[0]` and `slice(0, 2)`. Only the two 280 checks count UTF-16 units, through `Common.Utf16Length`.
- Request bodies arrive already parsed and typed (`Option<string>` and similar parameters). The source parses them inside its `try` blocks: a body that is not JSON, or a field of the wrong type (such as a numeric `content` reaching `.trim`), answers the catch path's 500. That path is not modelled; the model reaches only the 400 refusals for missing fields.
- NotificationsPage.AgoLabel: the locale date shown after a week (`toLocaleDateString`) is not modelled, so the label is `None` there. The HoursAgo and DaysAgo labels are stated only through `TimeAgo`'s numbers.
- Storage uploads and public URLs are parameters. `Date.now()` is the `now` parameter, and `URL.createObjectURL` is the `objectUrl` parameter.
- Store.Store.CreateNotification: the database's foreign-key refusal becomes the existence conditions on recipient, sender and post. Which message of the 500 reflects which failure is not distinguished, because the route answers them all alike.
- The follow table is a sequence with a no-duplicates invariant standing in for the database's unique index, so fan-out order follows the table order.
- Feed.PostFeed.AddComment: the `openMap` write at components/feeds/PostFeed.tsx:193 is modelled as always setting the panel open, which is the same end state as the conditional write.
- Feed.PostFeed.AddComment: the temporary comment's author fields are not modelled; its id comes from `now` and its content is the trimmed draft.
- Profiles: a property that is present but explicitly `undefined` is treated as absent, because `Columns` is a map.
- ProfilePage.ProfileScreen.HandleAvatarUpload: when the form is still null, spreading it gives just the avatar column; the model fills in empty post and relation lists in that case.
- ProfilePage.ProfileScreen.HandleUpdatePost: with a null user the page's updater would throw on `prev.posts`; the model keeps the user null instead.
- Profiles.UserContext.SetProfileLocal: the context's profile has no posts or relations, so only columns are merged.
- Database reads are assumed to succeed: the listing, count and lookup queries are functions of the store, so the 500 from a route's `catch` when a read fails is not modelled. This covers Inbox.UnreadCountGet, Inbox.NotificationsGet, PostsApi.PostsGet, UsersApi.UsersGet, UsersApi.Discover and UsersApi.AdminUsers. It also covers the existence lookups inside Store.Store.FollowUser, Store.Store.UnfollowUser and Store.Store.AdminDeletePost. Failed writes are modelled.
- Toasts: the mutation handlers return their toast text (the admin page's update and delete handlers, the discover page's follow button, the inbox's mark-all). The following toasts are not modelled:
  - the fetch-failure toasts: admin users and posts, discover users, notifications;
  - the profile page's toasts;
  - the user context's toasts;
  - the sign-in and sign-out toasts;
  - the realtime notification popup.
- Navigation, dialog visibility beyond the flags kept in the classes, and the pages' fetch calls are not modelled. Each fetch result is a parameter.
- The admin page's `fetchUsers` and `openEdit` only copy the server's list or the clicked row into state; they show up only as the `users` and `selected` fields.
