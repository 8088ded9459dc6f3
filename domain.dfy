/** The rows of the relational store: users, follow pairs, posts, likes and
    notifications, with the uniqueness rules the database enforces. */
module Domain {
  import opened Common

  /** User ids come from the identity provider (strings); post and
      notification ids are handed out by the store. */
  type UserId = string
  type PostId = nat
  type NotificationId = nat

  datatype Role = USER | ADMIN

  datatype User = User(
    id: UserId,
    email: string,
    username: Option<string>,
    firstName: Option<string>,
    lastName: Option<string>,
    bio: Option<string>,
    role: Role,
    isActive: bool,
    isVerified: bool,
    createdAt: int)

  /** A row of the follow table: `followerId` follows `followingId`. */
  datatype Follow = Follow(followerId: UserId, followingId: UserId)

  datatype Category = GENERAL | ANNOUNCEMENT | QUESTION

  datatype Post = Post(
    id: PostId,
    authorId: UserId,
    content: string,
    imageUrl: Option<string>,
    category: Category,
    likeCount: nat,
    commentCount: nat,
    isActive: bool,
    createdAt: int)

  /** A row of the like table. */
  datatype Like = Like(userId: UserId, postId: PostId)

  datatype NotificationType = FOLLOW | LIKE | COMMENT | POST

  datatype Notification = Notification(
    id: NotificationId,
    recipientId: UserId,
    senderId: UserId,
    kind: NotificationType,
    message: string,
    postId: Option<PostId>,
    isRead: bool,
    createdAt: int)

  /** The enum values the database accepts for a notification's type. */
  function ParseNotificationType(s: string): (r: Option<NotificationType>)
    ensures r.Some? <==> s in {"FOLLOW", "LIKE", "COMMENT", "POST"}
  {
    if s == "FOLLOW" then Some(FOLLOW)
    else if s == "LIKE" then Some(LIKE)
    else if s == "COMMENT" then Some(COMMENT)
    else if s == "POST" then Some(POST)
    else None
  }

  /** The enum values the database accepts for a post's category. */
  function ParseCategory(s: string): (r: Option<Category>)
    ensures r.Some? <==> s in {"GENERAL", "ANNOUNCEMENT", "QUESTION"}
  {
    if s == "GENERAL" then Some(GENERAL)
    else if s == "ANNOUNCEMENT" then Some(ANNOUNCEMENT)
    else if s == "QUESTION" then Some(QUESTION)
    else None
  }

  /** What a route handler answers: a status code and the response's message. */
  datatype Outcome = Outcome(status: int, message: string)

  /** A read-only route's answer: the JSON body on 200, or an error status. */
  datatype Reply<T> = Ok(value: T) | Error(status: int, message: string)

  // ---------------------------------------------------------------------------
  // Table invariants (the database's unique indexes)
  // ---------------------------------------------------------------------------

  predicate NoDuplicateFollows(fs: seq<Follow>) {
    forall i, j :: 0 <= i < j < |fs| ==> fs[i] != fs[j]
  }

  predicate NoSelfFollow(fs: seq<Follow>) {
    forall i :: 0 <= i < |fs| ==> fs[i].followerId != fs[i].followingId
  }

  predicate UniqueUserIds(us: seq<User>) {
    forall i, j :: 0 <= i < j < |us| ==> us[i].id != us[j].id
  }

  predicate PostIdsBelow(ps: seq<Post>, bound: nat) {
    forall i :: 0 <= i < |ps| ==> ps[i].id < bound
  }

  predicate UniquePostIds(ps: seq<Post>) {
    forall i, j :: 0 <= i < j < |ps| ==> ps[i].id != ps[j].id
  }

  predicate NotificationIdsBelow(ns: seq<Notification>, bound: nat) {
    forall i :: 0 <= i < |ns| ==> ns[i].id < bound
  }

  predicate UniqueNotificationIds(ns: seq<Notification>) {
    forall i, j :: 0 <= i < j < |ns| ==> ns[i].id != ns[j].id
  }

  // ---------------------------------------------------------------------------
  // Lookups used by several routes
  // ---------------------------------------------------------------------------

  /** `findFirst({ where: { id, isActive: true } })` finds a row. */
  predicate HasActiveUser(us: seq<User>, id: UserId) {
    exists i :: 0 <= i < |us| && us[i].id == id && us[i].isActive
  }

  /** `findUnique({ where: { id }, select: { role: true } })`. */
  function RoleOf(us: seq<User>, id: UserId): (r: Option<Role>)
    ensures r.Some? <==> exists i :: 0 <= i < |us| && us[i].id == id
    ensures r.Some? ==> exists i :: 0 <= i < |us| && us[i].id == id && us[i].role == r.value
  {
    if us == [] then None
    else if us[0].id == id then Some(us[0].role)
    else
      var r := RoleOf(us[1..], id);
      assert forall i :: 1 <= i < |us| ==> us[i] == us[1..][i - 1];
      r
  }

  /** The admin routes' gate: the caller is signed in and has a user row whose
      role is ADMIN; otherwise 401, or 403 for anyone else. */
  function AdminGate(users: seq<User>, caller: Option<UserId>): (r: Option<Outcome>)
    ensures r.None? <==> caller.Some? && RoleOf(users, caller.value) == Some(ADMIN)
    ensures caller.None? ==> r == Some(Outcome(401, "Unauthorized"))
    ensures caller.Some? && r.Some? ==> r == Some(Outcome(403, "Forbidden"))
  {
    if caller.None? then Some(Outcome(401, "Unauthorized"))
    else if RoleOf(users, caller.value) != Some(ADMIN) then Some(Outcome(403, "Forbidden"))
    else None
  }

  /** The follow pairs whose `followingId` is `u`, in table order. */
  function FollowersOf(fs: seq<Follow>, u: UserId): (r: seq<Follow>)
    ensures forall i :: 0 <= i < |r| ==> r[i].followingId == u && r[i] in fs
    ensures forall f :: f in fs && f.followingId == u ==> f in r
  {
    Filter(fs, (f: Follow) => f.followingId == u)
  }

  /** `_count.followers`, and the `groupBy` count of the user listing. */
  function FollowerCount(fs: seq<Follow>, u: UserId): nat {
    Count(fs, (f: Follow) => f.followingId == u)
  }

  /** `_count.following`. */
  function FollowingCount(fs: seq<Follow>, u: UserId): nat {
    Count(fs, (f: Follow) => f.followerId == u)
  }

  /** The follower list and the follower count agree. */
  lemma FollowersOfCount(fs: seq<Follow>, u: UserId)
    ensures |FollowersOf(fs, u)| == FollowerCount(fs, u)
  {
    CountIsFilterLength(fs, (f: Follow) => f.followingId == u);
  }
}
