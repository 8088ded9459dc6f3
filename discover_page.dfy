/** The discover page (app/discover/page.tsx): the loaded suggestions, the
    set of people the caller follows, the search box's filter and the
    follow / unfollow button with its local counter update. */
module DiscoverPage {
  import opened Common
  import opened Domain
  import opened Names
  import opened UsersApi

  const FOLLOW_ENDPOINT := "/api/users/follow"
  const UNFOLLOW_ENDPOINT := "/api/users/unfollow"

  /** A suggestion as the page holds it; the counters are plain numbers
      that the page adjusts locally. */
  datatype ClientUser = ClientUser(
    id: UserId,
    username: Option<string>,
    firstName: Option<string>,
    lastName: Option<string>,
    bio: Option<string>,
    isVerified: bool,
    followers: int,
    following: int,
    posts: int)

  function ToClient(d: DiscoverUser): (c: ClientUser)
    ensures c.id == d.id && c.followers == d.followers && c.following == d.following && c.posts == d.posts
  {
    ClientUser(d.id, d.username, d.firstName, d.lastName, d.bio, d.isVerified, d.followers, d.following, d.posts)
  }

  function PersonOf(u: ClientUser): Person {
    Person(u.username, u.firstName, u.lastName)
  }

  /** The ids of the response's `followingIds`, as `new Set(...)`. */
  function LoadedFollowing(r: DiscoverResult): (s: set<UserId>)
    ensures forall x :: x in s <==> x in r.followingIds
  {
    set x | x in r.followingIds
  }

  /** After a successful load, the page's follow set is what the follow
      table says about the caller. */
  lemma LoadedFollowingMatchesTable(users: seq<User>, follows: seq<Follow>, posts: seq<Post>, me: UserId)
    ensures Discover(users, follows, posts, Some(me)).Ok?
    ensures forall x :: x in LoadedFollowing(Discover(users, follows, posts, Some(me)).value) <==> Follow(me, x) in follows
  {
    assert Discover(users, follows, posts, Some(me)).value.followingIds == FollowingIds(follows, me);
  }

  // ---------------------------------------------------------------------------
  // Search box
  // ---------------------------------------------------------------------------

  /** The search filter: an empty term keeps everybody; otherwise the term
      must occur, ignoring case, in the username, a name or the bio. */
  predicate SearchHit(u: ClientUser, term: string) {
    term == []
    || ContainsIgnoringCase(u.username, term) || ContainsIgnoringCase(u.firstName, term)
    || ContainsIgnoringCase(u.lastName, term) || ContainsIgnoringCase(u.bio, term)
  }

  /** `filteredUsers`: the hits, in the loaded order. */
  function FilteredUsers(users: seq<ClientUser>, term: string): (r: seq<ClientUser>)
    ensures IsSubsequence(r, users)
    ensures forall i :: 0 <= i < |r| ==> SearchHit(r[i], term)
    ensures forall i :: 0 <= i < |users| && SearchHit(users[i], term) ==> users[i] in r
  {
    FilterIsSubsequence(users, u => SearchHit(u, term));
    Filter(users, u => SearchHit(u, term))
  }

  /** With an empty search box the whole list shows. */
  lemma EmptySearchShowsAll(users: seq<ClientUser>)
    ensures FilteredUsers(users, "") == users
  {
    FilterAll(users, u => SearchHit(u, ""));
  }

  // ---------------------------------------------------------------------------
  // Follow button
  // ---------------------------------------------------------------------------

  /** `new Set(prev)` with `x` deleted when present and added when absent. */
  function Toggle(s: set<UserId>, x: UserId): (r: set<UserId>)
    ensures x in r <==> x !in s
    ensures forall y :: y != x ==> (y in r <==> y in s)
  {
    if x in s then s - {x} else s + {x}
  }

  /** The `prevUsers.map(...)` of `handleFollow`: the target's follower
      counter moves by `delta`, nothing else changes. */
  function AdjustFollowers(users: seq<ClientUser>, id: UserId, delta: int): (r: seq<ClientUser>)
    ensures |r| == |users|
    ensures forall i :: 0 <= i < |r| && users[i].id == id ==>
      r[i] == users[i].(followers := users[i].followers + delta)
    ensures forall i :: 0 <= i < |r| && users[i].id != id ==> r[i] == users[i]
  {
    if users == [] then []
    else
      [if users[0].id == id then users[0].(followers := users[0].followers + delta) else users[0]]
      + AdjustFollowers(users[1..], id, delta)
  }

  /** Moving a counter and moving it back restores the list. */
  lemma AdjustFollowersInverse(users: seq<ClientUser>, id: UserId, delta: int)
    ensures AdjustFollowers(AdjustFollowers(users, id, delta), id, -delta) == users
  {
    var once := AdjustFollowers(users, id, delta);
    var twice := AdjustFollowers(once, id, -delta);
    assert forall i :: 0 <= i < |users| ==> twice[i] == users[i];
  }

  /** The follower delta of one accepted click: down when unfollowing. */
  function ClickDelta(following: set<UserId>, id: UserId): (d: int)
    ensures d == 1 || d == -1
    ensures d == -1 <==> id in following
  {
    if id in following then -1 else 1
  }

  /** Two accepted clicks on the same button return both the follow set
      and the counters to where they were. */
  lemma ClickTwiceRestores(following: set<UserId>, users: seq<ClientUser>, id: UserId)
    ensures Toggle(Toggle(following, id), id) == following
    ensures var d1 := ClickDelta(following, id);
            var d2 := ClickDelta(Toggle(following, id), id);
            AdjustFollowers(AdjustFollowers(users, id, d1), id, d2) == users
  {
    AdjustFollowersInverse(users, id, ClickDelta(following, id));
  }

  class DiscoverView {
    var users: seq<ClientUser>
    var followingUsers: set<UserId>
    var loadingFollow: set<UserId>
    var loading: bool

    constructor()
      ensures users == [] && followingUsers == {} && loadingFollow == {} && loading
    {
      users := [];
      followingUsers := {};
      loadingFollow := {};
      loading := true;
    }

    /** `fetchUsers`: a successful response replaces the list and the follow set. */
    method Fetch(response: Option<DiscoverResult>)
      modifies this
      ensures response.Some? ==>
        && |users| == |response.value.users|
        && (forall i :: 0 <= i < |users| ==> users[i] == ToClient(response.value.users[i]))
        && followingUsers == LoadedFollowing(response.value)
      ensures response.None? ==> users == old(users) && followingUsers == old(followingUsers)
      ensures loadingFollow == old(loadingFollow) && !loading
    {
      loading := true;
      if response.Some? {
        var loaded := response.value.users;
        users := seq(|loaded|, i requires 0 <= i < |loaded| => ToClient(loaded[i]));
        followingUsers := LoadedFollowing(response.value);
      }
      loading := false;
    }

    /** `handleFollow`: the endpoint depends on the current follow state; only
        an accepted request toggles the state and moves the target's counter.
        `errorMessage` is the failed response's message, if any. */
    method HandleFollow(userId: UserId, ok: bool, errorMessage: Option<string>)
      returns (endpoint: string, toast: string)
      modifies this
      ensures endpoint == if userId in old(followingUsers) then UNFOLLOW_ENDPOINT else FOLLOW_ENDPOINT
      ensures ok ==>
        && followingUsers == Toggle(old(followingUsers), userId)
        && users == AdjustFollowers(old(users), userId, ClickDelta(old(followingUsers), userId))
        && toast == if userId in old(followingUsers) then "Unfollowed successfully" else "Following successfully"
      ensures !ok ==>
        && followingUsers == old(followingUsers) && users == old(users)
        && toast == OrElse(errorMessage, "Action failed")
      ensures loadingFollow == old(loadingFollow) - {userId}
      ensures loading == old(loading)
    {
      loadingFollow := loadingFollow + {userId};
      var isCurrentlyFollowing := userId in followingUsers;
      endpoint := if isCurrentlyFollowing then UNFOLLOW_ENDPOINT else FOLLOW_ENDPOINT;
      if ok {
        var next := followingUsers;
        if isCurrentlyFollowing {
          next := next - {userId};
          toast := "Unfollowed successfully";
        } else {
          next := next + {userId};
          toast := "Following successfully";
        }
        followingUsers := next;
        users := AdjustFollowers(users, userId, if isCurrentlyFollowing then -1 else 1);
      } else {
        toast := OrElse(errorMessage, "Action failed");
      }
      loadingFollow := loadingFollow - {userId};
    }
  }
}
