/** The relational store as one object whose tables the route handlers change
    in place: follow and unfollow (app/api/users/follow/route.ts,
    app/api/users/unfollow/route.ts), the notification writers
    (lib/notifications.ts), mark-all-read and the create endpoint
    (app/api/notifications/), creating a post (app/api/posts/route.ts) and the
    admin's post delete (app/api/admin/posts/route.ts). A failed database write
    is a `false` flag argument; `now` is the clock. */
module Store {
  import opened Common
  import opened Domain
  import opened NotificationWriter
  import opened FollowRoutes
  import opened Inbox
  import opened PostsApi

  class Store {
    var users: seq<User>
    var follows: seq<Follow>
    var posts: seq<Post>
    var likes: set<Like>
    var notifications: seq<Notification>
    /** The next post or notification id the store hands out. */
    var nextId: nat

    /** The database's unique indexes and the follow route's no-self rule. */
    ghost predicate Valid()
      reads this
    {
      && UniqueUserIds(users)
      && NoDuplicateFollows(follows) && NoSelfFollow(follows)
      && UniquePostIds(posts) && PostIdsBelow(posts, nextId)
      && UniqueNotificationIds(notifications) && NotificationIdsBelow(notifications, nextId)
    }

    constructor(initialUsers: seq<User>)
      requires UniqueUserIds(initialUsers)
      ensures Valid()
      ensures users == initialUsers && follows == [] && posts == [] && likes == {} && notifications == []
    {
      users := initialUsers;
      follows := [];
      posts := [];
      likes := {};
      notifications := [];
      nextId := 0;
    }

    /** No table changed. */
    twostate predicate Unchanged()
      reads this
    {
      && users == old(users) && follows == old(follows) && posts == old(posts) && likes == old(likes)
      && notifications == old(notifications) && nextId == old(nextId)
    }

    /** Only the notification table (and the id counter) may have changed. */
    twostate predicate SameGraph()
      reads this
    {
      users == old(users) && follows == old(follows) && posts == old(posts) && likes == old(likes)
    }

    /** Exactly `rows` were appended to the notification table; existing rows are untouched. */
    twostate predicate Appended(rows: seq<Notification>)
      reads this
    {
      notifications == old(notifications) + rows && nextId == old(nextId) + |rows|
    }

    /** `notification.create` / `createMany` of rows carrying the next free ids. */
    method AppendRows(rows: seq<Notification>)
      modifies this
      requires Valid()
      requires forall i :: 0 <= i < |rows| ==> rows[i].id == nextId + i
      ensures Valid() && SameGraph() && Appended(rows)
    {
      notifications := notifications + rows;
      nextId := nextId + |rows|;
    }

    // -------------------------------------------------------------------------
    // lib/notifications.ts: the writers swallow their own failures
    // -------------------------------------------------------------------------

    method CreateFollowNotification(followerId: UserId, followingId: UserId, writeOk: bool, now: int)
      modifies this
      requires Valid()
      ensures Valid() && SameGraph()
      ensures writeOk ==> Appended([FollowRow(old(nextId), followerId, followingId, now)])
      ensures !writeOk ==> Unchanged()
    {
      if writeOk {
        AppendRows([FollowRow(nextId, followerId, followingId, now)]);
      }
    }

    method CreateLikeNotification(userId: UserId, postId: PostId, postAuthorId: UserId, writeOk: bool, now: int)
      modifies this
      requires Valid()
      ensures Valid() && SameGraph()
      ensures writeOk ==> Appended(LikeRows(old(nextId), userId, postId, postAuthorId, now))
      ensures !writeOk || userId == postAuthorId ==> Unchanged()
    {
      if userId == postAuthorId {
        return;
      }
      if writeOk {
        AppendRows(LikeRows(nextId, userId, postId, postAuthorId, now));
      }
    }

    method CreateCommentNotification(commenterId: UserId, postId: PostId, postAuthorId: UserId, writeOk: bool, now: int)
      modifies this
      requires Valid()
      ensures Valid() && SameGraph()
      ensures writeOk ==> Appended(CommentRows(old(nextId), commenterId, postId, postAuthorId, now))
      ensures !writeOk || commenterId == postAuthorId ==> Unchanged()
    {
      if commenterId == postAuthorId {
        return;
      }
      if writeOk {
        AppendRows(CommentRows(nextId, commenterId, postId, postAuthorId, now));
      }
    }

    /** The POST fan-out: one row per follower of the author, or nothing. */
    method CreatePostNotification(authorId: UserId, postId: PostId, writeOk: bool, now: int)
      modifies this
      requires Valid()
      ensures Valid() && SameGraph()
      ensures writeOk ==> Appended(FanOutRows(old(follows), authorId, postId, old(nextId), now))
      ensures !writeOk || FollowerCount(old(follows), authorId) == 0 ==> Unchanged()
    {
      var rows := FanOutRows(follows, authorId, postId, nextId, now);
      if writeOk && |rows| > 0 {
        AppendRows(rows);
      }
    }

    // -------------------------------------------------------------------------
    // POST /api/users/follow and POST /api/users/unfollow
    // -------------------------------------------------------------------------

    method FollowUser(caller: Option<UserId>, userId: Option<UserId>, insertOk: bool, notifyOk: bool, now: int)
      returns (out: Outcome)
      modifies this
      requires Valid()
      ensures Valid()
      ensures FollowGuard(old(users), old(follows), caller, userId).Some? ==>
        out == FollowGuard(old(users), old(follows), caller, userId).value && Unchanged()
      ensures FollowGuard(old(users), old(follows), caller, userId).None?
              && (!insertOk || RoleOf(old(users), caller.value).None?) ==>
        out == Outcome(500, "Internal server error") && Unchanged()
      ensures FollowGuard(old(users), old(follows), caller, userId).None?
              && insertOk && RoleOf(old(users), caller.value).Some? ==>
        && SameTablesButFollows()
        && follows == Link(old(follows), Follow(caller.value, userId.value))
        && (notifyOk ==> out == Outcome(200, "Successfully followed user")
                         && Appended([FollowRow(old(nextId), caller.value, userId.value, now)]))
        && (!notifyOk ==> out == Outcome(500, "Internal server error")
                          && notifications == old(notifications) && nextId == old(nextId))
    {
      var guard := FollowGuard(users, follows, caller, userId);
      if guard.Some? {
        return guard.value;
      }
      // the follower's foreign key: a caller without a user row makes the insert throw
      if !insertOk || RoleOf(users, caller.value).None? {
        return Outcome(500, "Internal server error");
      }
      var pair := Follow(caller.value, userId.value);
      LinkKeepsInvariants(follows, pair);
      follows := Link(follows, pair);
      if !notifyOk {
        // the pair stays: the two inserts are not one transaction
        return Outcome(500, "Internal server error");
      }
      AppendRows([FollowRow(nextId, caller.value, userId.value, now)]);
      out := Outcome(200, "Successfully followed user");
    }

    /** Users, posts and likes are as before. */
    twostate predicate SameTablesButFollows()
      reads this
    {
      users == old(users) && posts == old(posts) && likes == old(likes)
    }

    method UnfollowUser(caller: Option<UserId>, userId: Option<UserId>, deleteOk: bool)
      returns (out: Outcome)
      modifies this
      requires Valid()
      ensures Valid()
      ensures UnfollowGuard(old(follows), caller, userId).Some? ==>
        out == UnfollowGuard(old(follows), caller, userId).value && Unchanged()
      ensures UnfollowGuard(old(follows), caller, userId).None? && !deleteOk ==>
        out == Outcome(500, "Internal server error") && Unchanged()
      ensures UnfollowGuard(old(follows), caller, userId).None? && deleteOk ==>
        && out == Outcome(200, "Successfully unfollowed user")
        && follows == Unlink(old(follows), Follow(caller.value, userId.value))
        && SameTablesButFollows() && notifications == old(notifications) && nextId == old(nextId)
    {
      var guard := UnfollowGuard(follows, caller, userId);
      if guard.Some? {
        return guard.value;
      }
      if !deleteOk {
        return Outcome(500, "Internal server error");
      }
      var pair := Follow(caller.value, userId.value);
      UnlinkKeepsInvariants(follows, pair);
      follows := Unlink(follows, pair);
      out := Outcome(200, "Successfully unfollowed user");
    }

    // -------------------------------------------------------------------------
    // app/api/notifications/
    // -------------------------------------------------------------------------

    /** PATCH /api/notifications/mark-all-read: `updateMany` flips the caller's
        unread rows one by one; a failed update changes nothing. */
    method MarkAllRead(caller: Option<UserId>, writeOk: bool) returns (out: Outcome)
      modifies this
      requires Valid()
      ensures Valid() && SameGraph() && nextId == old(nextId)
      ensures caller.None? ==> out == Outcome(401, "Unauthorized") && Unchanged()
      ensures caller.Some? && !writeOk ==> out == Outcome(500, "Internal server error") && Unchanged()
      ensures caller.Some? && writeOk ==>
        out == Outcome(200, "All notifications marked as read")
        && notifications == MarkAllReadRows(old(notifications), caller.value)
    {
      if caller.None? {
        return Outcome(401, "Unauthorized");
      }
      if !writeOk {
        return Outcome(500, "Internal server error");
      }
      var me := caller.value;
      var i := 0;
      while i < |notifications|
        invariant 0 <= i <= |notifications| == |old(notifications)|
        invariant SameGraph() && nextId == old(nextId)
        invariant forall k :: 0 <= k < i ==>
          notifications[k] == if IsUnreadFor(old(notifications)[k], me)
                              then old(notifications)[k].(isRead := true) else old(notifications)[k]
        invariant forall k :: i <= k < |notifications| ==> notifications[k] == old(notifications)[k]
      {
        if IsUnreadFor(notifications[i], me) {
          notifications := notifications[i := notifications[i].(isRead := true)];
        }
        i := i + 1;
      }
      out := Outcome(200, "All notifications marked as read");
    }

    /** POST /api/notifications/create: the sender is the caller whatever the
        body says; there is no self check. The insert fails (500) on an unknown
        type, a missing or unknown recipient, an unknown post, a caller without
        a user row, or a failed write. */
    method CreateNotification(caller: Option<UserId>, recipientId: Option<UserId>, kind: Option<string>,
                              postId: Option<PostId>, writeOk: bool, now: int)
      returns (reply: Reply<Notification>)
      modifies this
      requires Valid()
      ensures Valid() && SameGraph()
      ensures caller.None? ==> reply == Error(401, "Unauthorized") && Unchanged()
      ensures reply.Error? ==> Unchanged()
      ensures caller.Some? && reply.Error? ==> reply == Error(500, "Failed to create notification")
      ensures reply.Ok? <==>
        && caller.Some? && recipientId.Some? && kind.Some? && ParseNotificationType(kind.value).Some?
        && RoleOf(old(users), recipientId.value).Some? && RoleOf(old(users), caller.value).Some?
        && (postId.None? || exists i :: 0 <= i < |old(posts)| && old(posts)[i].id == postId.value)
        && writeOk
      ensures reply.Ok? ==>
        && reply.value == Notification(old(nextId), recipientId.value, caller.value,
                                       ParseNotificationType(kind.value).value,
                                       CreateEndpointMessage(kind.value), postId, false, now)
        && Appended([reply.value])
    {
      if caller.None? {
        return Error(401, "Unauthorized");
      }
      if recipientId.None? || kind.None? || ParseNotificationType(kind.value).None?
         || RoleOf(users, recipientId.value).None? || RoleOf(users, caller.value).None?
         || (postId.Some? && !(exists i :: 0 <= i < |posts| && posts[i].id == postId.value))
         || !writeOk
      {
        return Error(500, "Failed to create notification");
      }
      var n := Notification(nextId, recipientId.value, caller.value, ParseNotificationType(kind.value).value,
                            CreateEndpointMessage(kind.value), postId, false, now);
      AppendRows([n]);
      reply := Ok(n);
    }

    // -------------------------------------------------------------------------
    // POST /api/posts and DELETE /api/admin/posts/[id]
    // -------------------------------------------------------------------------

    /** POST /api/posts: 401, the content checks, then the insert of the
        trimmed content (category defaulting to GENERAL, no image defaulting to
        null), then the fan-out, whose failure the caller never sees. */
    method CreatePost(caller: Option<UserId>, content: Option<string>, imageUrl: Option<string>,
                      category: Option<string>, insertOk: bool, notifyOk: bool, now: int)
      returns (out: Outcome, created: Option<PostView>)
      modifies this
      requires Valid()
      ensures Valid()
      ensures caller.None? ==> out == Outcome(401, "Unauthorized") && created.None? && Unchanged()
      ensures caller.Some? && NewPostGuard(content).Some? ==>
        out == NewPostGuard(content).value && created.None? && Unchanged()
      ensures out.status != 201 ==> created.None? && Unchanged()
      ensures out.status == 201 <==>
        && caller.Some? && NewPostGuard(content).None?
        && ParseCategory(category.GetOr("GENERAL")).Some?
        && RoleOf(old(users), caller.value).Some? && insertOk
      ensures caller.Some? && NewPostGuard(content).None? && out.status != 201 ==>
        out == Outcome(500, "Failed to create post")
      ensures out.status == 201 ==>
        var post := Post(old(nextId), caller.value, Trim(content.value), imageUrl,
                         ParseCategory(category.GetOr("GENERAL")).value, 0, 0, true, now);
        && posts == old(posts) + [post]
        && users == old(users) && follows == old(follows) && likes == old(likes)
        && created == Some(View(post, false))
        && (notifyOk ==> notifications == old(notifications) + FanOutRows(old(follows), caller.value, old(nextId), old(nextId) + 1, now))
        && (!notifyOk ==> notifications == old(notifications))
    {
      created := None;
      if caller.None? {
        return Outcome(401, "Unauthorized"), None;
      }
      var guard := NewPostGuard(content);
      if guard.Some? {
        return guard.value, None;
      }
      var cat := ParseCategory(category.GetOr("GENERAL"));
      if cat.None? || RoleOf(users, caller.value).None? || !insertOk {
        return Outcome(500, "Failed to create post"), None;
      }
      var post := InsertPost(caller.value, Trim(content.value), imageUrl, cat.value, notifyOk, now);
      out := Outcome(201, "");
      created := Some(View(post, false));
    }

    /** `prisma.post.create` of an accepted post under the next id, then the
        fan-out to the author's followers. */
    method InsertPost(authorId: UserId, text: string, imageUrl: Option<string>, category: Category,
                      notifyOk: bool, now: int)
      returns (post: Post)
      modifies this
      requires Valid()
      ensures Valid()
      ensures post == Post(old(nextId), authorId, text, imageUrl, category, 0, 0, true, now)
      ensures posts == old(posts) + [post]
      ensures users == old(users) && follows == old(follows) && likes == old(likes)
      ensures notifyOk ==> notifications == old(notifications) + FanOutRows(old(follows), authorId, old(nextId), old(nextId) + 1, now)
      ensures !notifyOk ==> notifications == old(notifications)
    {
      post := AddPost(authorId, text, imageUrl, category, now);
      CreatePostNotification(authorId, post.id, notifyOk, now);
    }

    /** The `prisma.post.create` row alone, under the next free id. */
    method AddPost(authorId: UserId, text: string, imageUrl: Option<string>, category: Category, now: int)
      returns (post: Post)
      modifies this
      requires Valid()
      ensures Valid()
      ensures post == Post(old(nextId), authorId, text, imageUrl, category, 0, 0, true, now)
      ensures posts == old(posts) + [post] && nextId == old(nextId) + 1
      ensures users == old(users) && follows == old(follows) && likes == old(likes)
      ensures notifications == old(notifications)
    {
      post := Post(nextId, authorId, text, imageUrl, category, 0, 0, true, now);
      SnocFreshPost(posts, post, notifications, nextId);
      posts := posts + [post];
      nextId := nextId + 1;
    }

    /** DELETE /api/admin/posts/[id]: only an admin may delete; the row is
        removed outright; an id with no row, or a delete the database refuses
        (`deleteOk` false), makes the delete throw (500). */
    method AdminDeletePost(caller: Option<UserId>, id: PostId, deleteOk: bool) returns (out: Outcome)
      modifies this
      requires Valid()
      ensures Valid()
      ensures AdminGate(old(users), caller).Some? ==> out == AdminGate(old(users), caller).value
      ensures out.status != 200 ==> Unchanged()
      ensures AdminGate(old(users), caller).None? ==>
        if deleteOk && exists i :: 0 <= i < |old(posts)| && old(posts)[i].id == id then
          && out == Outcome(200, "Post deleted")
          && posts == Filter(old(posts), (p: Post) => p.id != id)
          && users == old(users) && follows == old(follows) && likes == old(likes)
          && notifications == old(notifications) && nextId == old(nextId)
        else out == Outcome(500, "Failed to delete post")
    {
      var gate := AdminGate(users, caller);
      if gate.Some? {
        return gate.value;
      }
      if !deleteOk || !(exists i :: 0 <= i < |posts| && posts[i].id == id) {
        return Outcome(500, "Failed to delete post");
      }
      FilterUniqueIds(posts, (p: Post) => p.id != id);
      posts := Filter(posts, (p: Post) => p.id != id);
      out := Outcome(200, "Post deleted");
    }
  }

  lemma {:induction false} FilterUniqueIds(ps: seq<Post>, keep: Post -> bool)
    requires UniquePostIds(ps)
    ensures UniquePostIds(Filter(ps, keep))
  {
    if ps != [] {
      var tail := ps[1..];
      TailUniqueIds(ps);
      FilterUniqueIds(tail, keep);
      var rest := Filter(tail, keep);
      forall i | 0 <= i < |rest| ensures rest[i].id != ps[0].id {
        assert rest[i] in tail;
      }
      if keep(ps[0]) {
        assert Filter(ps, keep) == [ps[0]] + rest;
        ConsUniqueIds(ps[0], rest);
      } else {
        assert Filter(ps, keep) == rest;
      }
    }
  }

  lemma TailUniqueIds(ps: seq<Post>)
    requires ps != [] && UniquePostIds(ps)
    ensures UniquePostIds(ps[1..])
    ensures forall q :: q in ps[1..] ==> q.id != ps[0].id
  {
    forall q | q in ps[1..] ensures q.id != ps[0].id {
      var j :| 0 <= j < |ps[1..]| && ps[1..][j] == q;
      assert ps[j + 1] == q;
    }
  }

  /** A post under the next free id keeps the ids unique, and every id stays
      below the advanced counter. */
  lemma SnocFreshPost(ps: seq<Post>, p: Post, ns: seq<Notification>, bound: nat)
    requires UniquePostIds(ps) && PostIdsBelow(ps, bound) && NotificationIdsBelow(ns, bound)
    requires p.id == bound
    ensures UniquePostIds(ps + [p]) && PostIdsBelow(ps + [p], bound + 1)
    ensures NotificationIdsBelow(ns, bound + 1)
  {
    var r := ps + [p];
    forall i, j | 0 <= i < j < |r| ensures r[i].id != r[j].id {
      assert r[i] == ps[i];
    }
  }

  lemma ConsUniqueIds(p: Post, rest: seq<Post>)
    requires UniquePostIds(rest)
    requires forall i :: 0 <= i < |rest| ==> rest[i].id != p.id
    ensures UniquePostIds([p] + rest)
  {
    var r := [p] + rest;
    forall i, j | 0 <= i < j < |r| ensures r[i].id != r[j].id {
      assert r[j] == rest[j - 1];
      if i > 0 {
        assert r[i] == rest[i - 1];
      }
    }
  }
}
