/** The rows that the notification writers of lib/notifications.ts insert:
    one FOLLOW row per follow, one LIKE / COMMENT row unless the actor is the
    post's author, and one POST row per follower of a new post's author. The
    insertion itself is done by the `Store` methods. */
module NotificationWriter {
  import opened Common
  import opened Domain

  const FOLLOW_MESSAGE := "started following you"
  const LIKE_MESSAGE := "liked your post"
  const COMMENT_MESSAGE := "commented on your post"
  /** The fan-out's wording; the create endpoint says "new activity" instead. */
  const POST_MESSAGE := "shared a new post"

  /** A freshly written row carries the fixed message of its type and is unread. */
  predicate FreshRow(n: Notification, id: NotificationId, recipient: UserId, sender: UserId,
                     kind: NotificationType, message: string, postId: Option<PostId>, now: int)
  {
    n == Notification(id, recipient, sender, kind, message, postId, false, now)
  }

  /** The FOLLOW row: recipient is the followed user, sender the follower,
      no post. There is no self check. */
  function FollowRow(id: NotificationId, followerId: UserId, followingId: UserId, now: int): (n: Notification)
    ensures FreshRow(n, id, followingId, followerId, FOLLOW, FOLLOW_MESSAGE, None, now)
  {
    Notification(id, followingId, followerId, FOLLOW, FOLLOW_MESSAGE, None, false, now)
  }

  /** The rows `createLikeNotification` inserts: none for a like by the
      post's own author, otherwise one LIKE row to the author. */
  function LikeRows(id: NotificationId, userId: UserId, postId: PostId, postAuthorId: UserId, now: int)
    : (r: seq<Notification>)
    ensures r == [] <==> userId == postAuthorId
    ensures r != [] ==> |r| == 1 && FreshRow(r[0], id, postAuthorId, userId, LIKE, LIKE_MESSAGE, Some(postId), now)
    ensures forall i :: 0 <= i < |r| ==> r[i].recipientId != r[i].senderId
  {
    if userId == postAuthorId then []
    else [Notification(id, postAuthorId, userId, LIKE, LIKE_MESSAGE, Some(postId), false, now)]
  }

  /** The rows `createCommentNotification` inserts: none for a comment by the
      post's own author, otherwise one COMMENT row to the author. */
  function CommentRows(id: NotificationId, commenterId: UserId, postId: PostId, postAuthorId: UserId, now: int)
    : (r: seq<Notification>)
    ensures r == [] <==> commenterId == postAuthorId
    ensures r != [] ==> |r| == 1 && FreshRow(r[0], id, postAuthorId, commenterId, COMMENT, COMMENT_MESSAGE, Some(postId), now)
    ensures forall i :: 0 <= i < |r| ==> r[i].recipientId != r[i].senderId
  {
    if commenterId == postAuthorId then []
    else [Notification(id, postAuthorId, commenterId, COMMENT, COMMENT_MESSAGE, Some(postId), false, now)]
  }

  /** `followers.map(...)`: one POST row per follow pair, ids from `firstId` on. */
  function PostRowsFor(followers: seq<Follow>, authorId: UserId, postId: PostId, firstId: NotificationId, now: int)
    : (r: seq<Notification>)
    ensures |r| == |followers|
    ensures forall i :: 0 <= i < |r| ==>
      FreshRow(r[i], firstId + i, followers[i].followerId, authorId, POST, POST_MESSAGE, Some(postId), now)
  {
    if followers == [] then []
    else
      [Notification(firstId, followers[0].followerId, authorId, POST, POST_MESSAGE, Some(postId), false, now)]
      + PostRowsFor(followers[1..], authorId, postId, firstId + 1, now)
  }

  /** The rows `createPostNotification` inserts: exactly one per follower of
      the author, in follow-table order. */
  function FanOutRows(fs: seq<Follow>, authorId: UserId, postId: PostId, firstId: NotificationId, now: int)
    : (r: seq<Notification>)
    ensures |r| == FollowerCount(fs, authorId) == |FollowersOf(fs, authorId)|
    ensures forall i :: 0 <= i < |r| ==>
      FreshRow(r[i], firstId + i, FollowersOf(fs, authorId)[i].followerId, authorId, POST, POST_MESSAGE, Some(postId), now)
  {
    FollowersOfCount(fs, authorId);
    PostRowsFor(FollowersOf(fs, authorId), authorId, postId, firstId, now)
  }

  /** With no followers, the fan-out writes nothing. */
  lemma FanOutEmptyIff(fs: seq<Follow>, authorId: UserId, postId: PostId, firstId: NotificationId, now: int)
    ensures FanOutRows(fs, authorId, postId, firstId, now) == [] <==> FollowerCount(fs, authorId) == 0
  {
  }

  /** Every fan-out row goes to somebody who follows the author. */
  lemma FanOutRecipientsFollow(fs: seq<Follow>, authorId: UserId, postId: PostId, firstId: NotificationId, now: int)
    ensures forall i :: 0 <= i < |FanOutRows(fs, authorId, postId, firstId, now)| ==>
      Follow(FanOutRows(fs, authorId, postId, firstId, now)[i].recipientId, authorId) in fs
  {
    var r := FanOutRows(fs, authorId, postId, firstId, now);
    var followers := FollowersOf(fs, authorId);
    forall i | 0 <= i < |r| ensures Follow(r[i].recipientId, authorId) in fs {
      assert followers[i].followingId == authorId;
      assert followers[i] == Follow(r[i].recipientId, authorId);
    }
  }

  /** Since nobody follows themselves, the fan-out never notifies the author. */
  lemma {:induction false} FanOutNoSelfNotification(fs: seq<Follow>, authorId: UserId, postId: PostId,
                                                   firstId: NotificationId, now: int)
    requires NoSelfFollow(fs)
    ensures forall n :: n in FanOutRows(fs, authorId, postId, firstId, now) ==> n.recipientId != n.senderId
  {
    var r := FanOutRows(fs, authorId, postId, firstId, now);
    FanOutRecipientsFollow(fs, authorId, postId, firstId, now);
    forall n | n in r ensures n.recipientId != n.senderId {
      var i :| 0 <= i < |r| && r[i] == n;
      var k :| 0 <= k < |fs| && fs[k] == Follow(n.recipientId, authorId);
    }
  }

  /** With unique follow pairs, no follower is notified twice. */
  lemma {:induction false} FanOutDistinctRecipients(fs: seq<Follow>, authorId: UserId, postId: PostId,
                                                   firstId: NotificationId, now: int)
    requires NoDuplicateFollows(fs)
    ensures var r := FanOutRows(fs, authorId, postId, firstId, now);
      forall i, j :: 0 <= i < j < |r| ==> r[i].recipientId != r[j].recipientId
  {
    var followers := FollowersOf(fs, authorId);
    FilterDistinct(fs, (f: Follow) => f.followingId == authorId);
    var r := FanOutRows(fs, authorId, postId, firstId, now);
    forall i, j | 0 <= i < j < |r| ensures r[i].recipientId != r[j].recipientId {
      assert followers[i] != followers[j];
      assert followers[i].followingId == followers[j].followingId;
    }
  }

  lemma {:induction false} FilterDistinct(fs: seq<Follow>, p: Follow -> bool)
    requires NoDuplicateFollows(fs)
    ensures NoDuplicateFollows(Filter(fs, p))
  {
    if fs != [] {
      assert NoDuplicateFollows(fs[1..]);
      FilterDistinct(fs[1..], p);
      var rest := Filter(fs[1..], p);
      assert fs[0] !in fs[1..];
      assert fs[0] !in rest;
      assert Filter(fs, p) == (if p(fs[0]) then [fs[0]] else []) + rest;
    }
  }

  /** The follow writer has no self check: a self follow would notify its sender. */
  lemma FollowRowHasNoSelfCheck(id: NotificationId, u: UserId, now: int)
    ensures FollowRow(id, u, u, now).recipientId == FollowRow(id, u, u, now).senderId
  {
  }
}
