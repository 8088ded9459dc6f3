/** The three user listings: GET /api/users (app/api/users/route.ts), GET
    /api/users/discover (app/api/users/discover/route.ts) and the admin's GET
    /api/admin/users (app/api/admin/users/route.ts). */
module UsersApi {
  import opened Common
  import opened Domain
  import opened Query

  const DEFAULT_USER_LIMIT := 12
  const DISCOVER_LIMIT := 50

  // ---------------------------------------------------------------------------
  // GET /api/users
  // ---------------------------------------------------------------------------

  /** The route's `where` object: `isActive`, an optional `OR` of name
      searches, and an optional `id: { not }`. */
  datatype UserWhere = UserWhere(activeOnly: bool, search: Option<string>, excludeId: Option<UserId>)

  predicate NameMatches(u: User, q: string) {
    ContainsIgnoringCase(u.username, q) || ContainsIgnoringCase(u.firstName, q) || ContainsIgnoringCase(u.lastName, q)
  }

  /** A row satisfies the `where` object. */
  predicate Matches(w: UserWhere, u: User) {
    && (!w.activeOnly || u.isActive)
    && (w.search.None? || NameMatches(u, w.search.value))
    && (w.excludeId.None? || u.id != w.excludeId.value)
  }

  /** `(q ?? "").trim()`. */
  function SearchTerm(q: Option<string>): string {
    Trim(q.GetOr(""))
  }

  /** Which users the listing is about, stated directly: active ones, matching
      the search term when it is not empty, other than the caller. */
  predicate Listed(u: User, term: string, caller: Option<UserId>) {
    u.isActive && (term == [] || NameMatches(u, term)) && (caller.None? || u.id != caller.value)
  }

  /** The `where` object, built field by field from the trimmed search
      term and the caller. */
  method BuildWhere(term: string, caller: Option<UserId>) returns (w: UserWhere)
    ensures forall u :: Matches(w, u) <==> Listed(u, term, caller)
  {
    w := UserWhere(true, None, None);
    if term != [] {
      w := w.(search := Some(term));
    }
    if caller.Some? {
      w := w.(excludeId := Some(caller.value));
    }
  }

  /** `orderBy: { createdAt: "desc" }` on users. */
  function NewestUserFirst(): (User, User) -> bool {
    (a: User, b: User) => a.createdAt >= b.createdAt
  }

  /** The rows `findMany` would list before `skip`/`take`. */
  function UserListing(users: seq<User>, q: Option<string>, caller: Option<UserId>): seq<User> {
    OrderBy(Filter(users, (u: User) => Listed(u, SearchTerm(q), caller)), NewestUserFirst())
  }

  datatype UserCard = UserCard(
    id: UserId,
    username: Option<string>,
    firstName: Option<string>,
    lastName: Option<string>,
    bio: Option<string>,
    followerCount: nat,
    isFollowing: bool,
    createdAt: int)

  datatype UsersPage = UsersPage(users: seq<UserCard>, hasMore: bool)

  function Card(u: User, followerCount: nat, isFollowing: bool): (c: UserCard)
    ensures c.id == u.id && c.followerCount == followerCount && c.isFollowing == isFollowing
  {
    UserCard(u.id, u.username, u.firstName, u.lastName, u.bio, followerCount, isFollowing, u.createdAt)
  }

  /** `followerCountMap`: the `groupBy` over the page's ids, which has no
      entry for a user nobody follows. */
  function FollowerCountMap(follows: seq<Follow>, rows: seq<User>): (m: map<UserId, nat>)
    ensures forall i :: 0 <= i < |rows| ==>
      (if rows[i].id in m then m[rows[i].id] else 0) == FollowerCount(follows, rows[i].id)
  {
    var ids := set i | 0 <= i < |rows| :: rows[i].id;
    map id | id in ids && FollowerCount(follows, id) > 0 :: FollowerCount(follows, id)
  }

  /** `followingMap`: which of the page's users the caller follows; empty
      for an anonymous caller or an empty page. */
  function FollowingSet(follows: seq<Follow>, caller: Option<UserId>, rows: seq<User>): (s: set<UserId>)
    ensures forall i :: 0 <= i < |rows| ==>
      (rows[i].id in s <==> caller.Some? && Follow(caller.value, rows[i].id) in follows)
  {
    if caller.None? || |rows| == 0 then {}
    else
      var ids := set i | 0 <= i < |rows| :: rows[i].id;
      var s := set f | f in follows && f.followerId == caller.value && f.followingId in ids :: f.followingId;
      assert forall i :: 0 <= i < |rows| && Follow(caller.value, rows[i].id) in follows ==> rows[i].id in s by {
        forall i | 0 <= i < |rows| && Follow(caller.value, rows[i].id) in follows ensures rows[i].id in s {
          var f := Follow(caller.value, rows[i].id);
          assert f.followingId in ids;
        }
      }
      s
  }

  /** `users.map(...)` with the two lookup maps: each card carries the user's
      follower count and whether the caller follows them. */
  function Cards(follows: seq<Follow>, caller: Option<UserId>, rows: seq<User>): (cards: seq<UserCard>)
    ensures |cards| == |rows|
    ensures forall i :: 0 <= i < |rows| ==>
      cards[i] == Card(rows[i], FollowerCount(follows, rows[i].id),
                       caller.Some? && Follow(caller.value, rows[i].id) in follows)
  {
    var counts := FollowerCountMap(follows, rows);
    var following := FollowingSet(follows, caller, rows);
    seq(|rows|, i requires 0 <= i < |rows| =>
      Card(rows[i], if rows[i].id in counts then counts[rows[i].id] else 0, rows[i].id in following))
  }

  /** The query the `where` object makes is the listing stated by `Listed`. */
  lemma WhereSelectsListing(users: seq<User>, w: UserWhere, q: Option<string>, caller: Option<UserId>)
    requires forall u :: Matches(w, u) <==> Listed(u, SearchTerm(q), caller)
    ensures OrderBy(Filter(users, (u: User) => Matches(w, u)), NewestUserFirst()) == UserListing(users, q, caller)
  {
    FilterCongruent(users, (u: User) => Matches(w, u), (u: User) => Listed(u, SearchTerm(q), caller));
  }

  /** GET /api/users?page=&limit=&q=. A negative limit is answered as the
      catch path's 500. */
  method UsersGet(users: seq<User>, follows: seq<Follow>, caller: Option<UserId>,
                  pageQ: Option<int>, limitQ: Option<int>, q: Option<string>)
    returns (reply: Reply<UsersPage>)
    ensures reply.Error? <==> !NonNegativeWindow(PageParam(pageQ), LimitParam(limitQ, DEFAULT_USER_LIMIT))
    ensures reply.Error? ==> reply == Error(500, "Failed to fetch users")
    ensures LimitParam(limitQ, DEFAULT_USER_LIMIT) == -1 && PageParam(pageQ) == 0 ==>
      reply == Ok(UsersPage([], true))
    ensures reply.Ok? ==>
      var limit := LimitParam(limitQ, DEFAULT_USER_LIMIT);
      var rest := Skip(UserListing(users, q, caller), SkipOf(PageParam(pageQ), limit));
      var window := Take(rest, limit);
      && (reply.value.hasMore <==> |rest| > limit)
      && reply.value.users == Cards(follows, caller, window)
  {
    var page := PageParam(pageQ);
    var limit := LimitParam(limitQ, DEFAULT_USER_LIMIT);
    var listing := FindUsers(users, q, caller);
    if !NonNegativeWindow(page, limit) {
      return Error(500, "Failed to fetch users");
    }
    var rows, hasMore := OverFetch(listing, SkipOf(page, limit), limit);
    reply := Ok(UsersPage(Cards(follows, caller, rows), hasMore));
  }

  /** `findMany({ where, orderBy: { createdAt: "desc" } })` with the route's
      `where` object: the rows are the listing `Listed` describes. */
  method FindUsers(users: seq<User>, q: Option<string>, caller: Option<UserId>) returns (listing: seq<User>)
    ensures listing == UserListing(users, q, caller)
  {
    var w := BuildWhere(SearchTerm(q), caller);
    WhereSelectsListing(users, w, q, caller);
    listing := OrderBy(Filter(users, (u: User) => Matches(w, u)), NewestUserFirst());
  }

  lemma NewestUserFirstIsOrder()
    ensures TotalPreorder(NewestUserFirst())
  {
  }

  /** Every listed user is active, matches the search, is not the caller, and
      the page is newest first. */
  lemma UsersPageFacts(users: seq<User>, q: Option<string>, caller: Option<UserId>, skip: nat, limit: int)
    ensures var w := Take(Skip(UserListing(users, q, caller), skip), limit);
      && (forall i :: 0 <= i < |w| ==> Listed(w[i], SearchTerm(q), caller))
      && SortedBy(w, NewestUserFirst())
  {
    var listed := Filter(users, (u: User) => Listed(u, SearchTerm(q), caller));
    var all := UserListing(users, q, caller);
    NewestUserFirstIsOrder();
    OrderBySorted(listed, NewestUserFirst());
    Window(all, skip, limit, NewestUserFirst());
    forall i | 0 <= i < |all| ensures Listed(all[i], SearchTerm(q), caller) {
      assert all[i] in multiset(listed);
    }
  }

  // ---------------------------------------------------------------------------
  // GET /api/users/discover
  // ---------------------------------------------------------------------------

  /** `orderBy: [{ isVerified: "desc" }, { createdAt: "desc" }]`. */
  function VerifiedThenNewest(): (User, User) -> bool {
    (a: User, b: User) => (a.isVerified && !b.isVerified) || (a.isVerified == b.isVerified && a.createdAt >= b.createdAt)
  }

  lemma VerifiedThenNewestIsOrder()
    ensures TotalPreorder(VerifiedThenNewest())
  {
  }

  predicate Discoverable(u: User, me: UserId) { u.id != me && u.isActive }

  function DiscoverCandidates(users: seq<User>, me: UserId): seq<User> {
    Take(OrderBy(Filter(users, (u: User) => Discoverable(u, me)), VerifiedThenNewest()), DISCOVER_LIMIT)
  }

  /** `_count.posts` with `where: { isActive: true }`. */
  function ActivePostCount(posts: seq<Post>, u: UserId): nat {
    Count(posts, (p: Post) => p.authorId == u && p.isActive)
  }

  /** `_count.posts` without a filter, as the admin listing counts. */
  function PostCount(posts: seq<Post>, u: UserId): nat {
    Count(posts, (p: Post) => p.authorId == u)
  }

  datatype DiscoverUser = DiscoverUser(
    id: UserId,
    username: Option<string>,
    firstName: Option<string>,
    lastName: Option<string>,
    bio: Option<string>,
    isVerified: bool,
    followers: nat,
    following: nat,
    posts: nat)

  datatype DiscoverResult = DiscoverResult(users: seq<DiscoverUser>, followingIds: seq<UserId>)

  function DiscoverCard(u: User, follows: seq<Follow>, posts: seq<Post>): (d: DiscoverUser)
    ensures d.id == u.id && d.isVerified == u.isVerified
    ensures d.followers == FollowerCount(follows, u.id) && d.following == FollowingCount(follows, u.id)
    ensures d.posts == ActivePostCount(posts, u.id)
  {
    DiscoverUser(u.id, u.username, u.firstName, u.lastName, u.bio, u.isVerified,
                 FollowerCount(follows, u.id), FollowingCount(follows, u.id), ActivePostCount(posts, u.id))
  }

  /** `followingRelations.map(f => f.followingId)`: everybody the caller
      follows, not only the listed users. */
  function FollowingIds(follows: seq<Follow>, me: UserId): (r: seq<UserId>)
    ensures forall x :: x in r <==> Follow(me, x) in follows
  {
    var mine := Filter(follows, (f: Follow) => f.followerId == me);
    var r := seq(|mine|, i requires 0 <= i < |mine| => mine[i].followingId);
    assert forall x :: Follow(me, x) in follows ==> x in r by {
      forall x | Follow(me, x) in follows ensures x in r {
        var k :| 0 <= k < |mine| && mine[k] == Follow(me, x);
        assert r[k] == x;
      }
    }
    assert forall i :: 0 <= i < |r| ==> mine[i] == Follow(me, r[i]);
    r
  }

  function Discover(users: seq<User>, follows: seq<Follow>, posts: seq<Post>, caller: Option<UserId>)
    : (r: Reply<DiscoverResult>)
    ensures caller.None? <==> r == Error(401, "Unauthorized")
    ensures r.Ok? ==>
      var c := DiscoverCandidates(users, caller.value);
      && |r.value.users| == |c| <= DISCOVER_LIMIT
      && (forall i :: 0 <= i < |c| ==> r.value.users[i] == DiscoverCard(c[i], follows, posts))
      && (forall x :: x in r.value.followingIds <==> Follow(caller.value, x) in follows)
  {
    if caller.None? then Error(401, "Unauthorized")
    else
      var c := DiscoverCandidates(users, caller.value);
      Ok(DiscoverResult(seq(|c|, i requires 0 <= i < |c| => DiscoverCard(c[i], follows, posts)),
                        FollowingIds(follows, caller.value)))
  }

  /** The discover candidates exclude the caller and inactive users, put
      every verified user before every unverified one and are newest first
      within each group, and nobody left out ranks above anybody listed. */
  lemma DiscoverOrder(users: seq<User>, me: UserId)
    ensures var c := DiscoverCandidates(users, me);
      && |c| == Min(DISCOVER_LIMIT, Count(users, (u: User) => Discoverable(u, me)))
      && (forall i :: 0 <= i < |c| ==> c[i].id != me && c[i].isActive)
      && (forall i, j :: 0 <= i < j < |c| ==> c[i].isVerified || !c[j].isVerified)
      && (forall i, j :: 0 <= i < j < |c| && c[i].isVerified == c[j].isVerified ==> c[i].createdAt >= c[j].createdAt)
      && (forall u :: u in users && Discoverable(u, me) && u !in c ==>
            forall i :: 0 <= i < |c| ==> VerifiedThenNewest()(c[i], u))
  {
    var eligible := Filter(users, (u: User) => Discoverable(u, me));
    CountIsFilterLength(users, (u: User) => Discoverable(u, me));
    VerifiedThenNewestIsOrder();
    TopWindow(eligible, VerifiedThenNewest(), DISCOVER_LIMIT);
    var c := DiscoverCandidates(users, me);
    CandidatesDiscoverable(eligible, c, me);
    VerifiedFirst(c);
    forall u | u in users && Discoverable(u, me) && u !in c
      ensures forall i :: 0 <= i < |c| ==> VerifiedThenNewest()(c[i], u)
    {
      var k :| 0 <= k < |users| && users[k] == u;
      assert u in eligible;
    }
  }

  lemma CandidatesDiscoverable(eligible: seq<User>, c: seq<User>, me: UserId)
    requires forall i :: 0 <= i < |eligible| ==> Discoverable(eligible[i], me)
    requires multiset(c) <= multiset(eligible)
    ensures forall i :: 0 <= i < |c| ==> c[i].id != me && c[i].isActive
  {
    forall i | 0 <= i < |c| ensures c[i].id != me && c[i].isActive {
      assert c[i] in multiset(eligible);
      assert c[i] in eligible;
    }
  }

  lemma VerifiedFirst(c: seq<User>)
    requires SortedBy(c, VerifiedThenNewest())
    ensures forall i, j :: 0 <= i < j < |c| ==> c[i].isVerified || !c[j].isVerified
    ensures forall i, j :: 0 <= i < j < |c| && c[i].isVerified == c[j].isVerified ==> c[i].createdAt >= c[j].createdAt
  {
    forall i, j | 0 <= i < j < |c| ensures VerifiedThenNewest()(c[i], c[j]) {
    }
  }

  // ---------------------------------------------------------------------------
  // GET /api/admin/users
  // ---------------------------------------------------------------------------

  datatype AdminUserView = AdminUserView(
    id: UserId,
    email: string,
    username: Option<string>,
    role: Role,
    isActive: bool,
    isVerified: bool,
    createdAt: int,
    posts: nat,
    followers: nat,
    following: nat)

  function AdminCard(u: User, follows: seq<Follow>, posts: seq<Post>): (a: AdminUserView)
    ensures a.id == u.id && a.role == u.role && a.isActive == u.isActive
    ensures a.posts == PostCount(posts, u.id)
    ensures a.followers == FollowerCount(follows, u.id) && a.following == FollowingCount(follows, u.id)
  {
    AdminUserView(u.id, u.email, u.username, u.role, u.isActive, u.isVerified, u.createdAt,
                  PostCount(posts, u.id), FollowerCount(follows, u.id), FollowingCount(follows, u.id))
  }

  function AdminUsers(users: seq<User>, follows: seq<Follow>, posts: seq<Post>, caller: Option<UserId>)
    : (r: Reply<seq<AdminUserView>>)
    ensures AdminGate(users, caller).Some? <==> r.Error?
    ensures r.Error? ==> r == Error(AdminGate(users, caller).value.status, AdminGate(users, caller).value.message)
    ensures r.Ok? ==>
      var all := OrderBy(users, NewestUserFirst());
      |r.value| == |users| && forall i :: 0 <= i < |all| ==> r.value[i] == AdminCard(all[i], follows, posts)
  {
    var gate := AdminGate(users, caller);
    if gate.Some? then Error(gate.value.status, gate.value.message)
    else
      var all := OrderBy(users, NewestUserFirst());
      Ok(seq(|all|, i requires 0 <= i < |all| => AdminCard(all[i], follows, posts)))
  }

  /** The admin sees every user, inactive ones included, newest first. */
  lemma AdminUsersFacts(users: seq<User>)
    ensures multiset(OrderBy(users, NewestUserFirst())) == multiset(users)
    ensures SortedBy(OrderBy(users, NewestUserFirst()), NewestUserFirst())
  {
    NewestUserFirstIsOrder();
    OrderBySorted(users, NewestUserFirst());
  }

  /** The admin's post count includes inactive posts, so it is never below
      the discover page's count of active posts. */
  lemma PostCountsCompare(posts: seq<Post>, u: UserId)
    ensures ActivePostCount(posts, u) <= PostCount(posts, u)
  {
    CountMonotone(posts, (p: Post) => p.authorId == u && p.isActive, (p: Post) => p.authorId == u);
  }
}
