/** The admin dashboard (app/admin/page.tsx): the filtered user list and its
    selection, user edits and deletions, the per-user post lists loaded on
    demand, and post deletion with its local bookkeeping. */
module AdminPage {
  import opened Common
  import opened Domain

  /** `_count`, whose fields may each be absent. */
  datatype Counts = Counts(posts: Option<int>, followers: Option<int>, following: Option<int>)

  /** A user row as the dashboard holds it. */
  datatype AdminRow = AdminRow(
    id: UserId,
    email: string,
    username: Option<string>,
    firstName: Option<string>,
    lastName: Option<string>,
    bio: Option<string>,
    website: Option<string>,
    location: Option<string>,
    role: Role,
    isActive: bool,
    isVerified: bool,
    counts: Option<Counts>)

  datatype PostRow = PostRow(id: PostId, content: string, authorId: UserId)

  datatype RoleFilter = AllRoles | OnlyRole(role: Role)

  /** What the confirmation dialog is about to delete. */
  datatype Pending = UserDeletion(userId: UserId) | PostDeletion(postId: PostId)

  // ---------------------------------------------------------------------------
  // Filter and selection
  // ---------------------------------------------------------------------------

  /** The text the query is matched against: `(x ?? "")`, and the full name
      as "first last" with missing parts empty. */
  function FullName(u: AdminRow): string {
    u.firstName.GetOr("") + " " + u.lastName.GetOr("")
  }

  predicate QueryHit(u: AdminRow, query: string) {
    query == []
    || Contains(Lower(u.username.GetOr("")), Lower(query))
    || Contains(Lower(u.email), Lower(query))
    || Contains(Lower(FullName(u)), Lower(query))
  }

  predicate RoleHit(u: AdminRow, f: RoleFilter) {
    f.AllRoles? || u.role == f.role
  }

  /** `filtered`: users of the chosen role whose username, email or full name
      contains the query, ignoring case; the list order is kept. */
  function Filtered(users: seq<AdminRow>, query: string, f: RoleFilter): (r: seq<AdminRow>)
    ensures IsSubsequence(r, users)
    ensures forall i :: 0 <= i < |r| ==> RoleHit(r[i], f) && QueryHit(r[i], query)
    ensures forall i :: 0 <= i < |users| && RoleHit(users[i], f) && QueryHit(users[i], query) ==> users[i] in r
  {
    FilterIsSubsequence(users, u => RoleHit(u, f) && QueryHit(u, query));
    Filter(users, u => RoleHit(u, f) && QueryHit(u, query))
  }

  /** With no role chosen and an empty query the whole list shows. */
  lemma UnfilteredShowsAll(users: seq<AdminRow>)
    ensures Filtered(users, "", AllRoles) == users
  {
    FilterAll(users, u => RoleHit(u, AllRoles) && QueryHit(u, ""));
  }

  /** The full name always contains the separating space, so a query of one
      space matches every user of the chosen role. */
  lemma SpaceQueryMatchesEveryone(u: AdminRow)
    ensures QueryHit(u, " ")
  {
    var n := FullName(u);
    var k := |u.firstName.GetOr("")|;
    assert n[k] == ' ';
    assert Lower(n)[k..k + 1] == " ";
    assert InfixAt(Lower(" "), Lower(n), k);
    ContainsIff(Lower(n), Lower(" "));
  }

  predicate Shows(filtered: seq<AdminRow>, id: UserId) {
    exists i :: 0 <= i < |filtered| && filtered[i].id == id
  }

  /** The selection effect: with no selection the first visible row is
      picked; a selection that is no longer visible becomes the first visible
      row, or none. */
  function NextSelection(selected: Option<AdminRow>, filtered: seq<AdminRow>): (r: Option<AdminRow>)
    ensures selected.None? && filtered != [] ==> r == Some(filtered[0])
    ensures selected.None? && filtered == [] ==> r == None
    ensures selected.Some? && Shows(filtered, selected.value.id) ==> r == selected
    ensures selected.Some? && !Shows(filtered, selected.value.id) ==>
      r == if filtered == [] then None else Some(filtered[0])
  {
    if selected.None? then (if filtered != [] then Some(filtered[0]) else None)
    else if Shows(filtered, selected.value.id) then selected
    else if filtered == [] then None
    else Some(filtered[0])
  }

  /** After the effect the selection, if any, is a visible user; and the
      selection is empty only when nothing is visible. */
  lemma SelectionIsVisible(selected: Option<AdminRow>, filtered: seq<AdminRow>)
    ensures NextSelection(selected, filtered).Some? ==> Shows(filtered, NextSelection(selected, filtered).value.id)
    ensures NextSelection(selected, filtered).None? <==> filtered == []
  {
    var r := NextSelection(selected, filtered);
    if r.Some? && !(selected.Some? && Shows(filtered, selected.value.id)) {
      assert filtered[0].id == r.value.id;
    }
    if filtered != [] && selected.Some? && Shows(filtered, selected.value.id) {
      assert r == selected;
    }
  }

  // ---------------------------------------------------------------------------
  // Local list updates
  // ---------------------------------------------------------------------------

  /** `prev.map(p => p.id === updated.id ? updated : p)`. */
  function ReplaceRow(users: seq<AdminRow>, updated: AdminRow): seq<AdminRow> {
    ReplaceWhere(users, (u: AdminRow) => u.id == updated.id, updated)
  }

  /** An update for an id that is not listed leaves the list as it was. */
  lemma ReplaceUnlisted(users: seq<AdminRow>, updated: AdminRow)
    requires !Shows(users, updated.id)
    ensures ReplaceRow(users, updated) == users
  {
    var r := ReplaceRow(users, updated);
    assert forall i :: 0 <= i < |r| ==> r[i] == users[i];
  }

  /** `prev.filter(u => u.id !== id)`. */
  function WithoutUser(users: seq<AdminRow>, id: UserId): (r: seq<AdminRow>)
    ensures IsSubsequence(r, users)
    ensures !Shows(r, id)
    ensures forall i :: 0 <= i < |users| && users[i].id != id ==> users[i] in r
  {
    FilterIsSubsequence(users, (u: AdminRow) => u.id != id);
    Filter(users, (u: AdminRow) => u.id != id)
  }

  /** `copy[k].filter(p => p.id !== postId)`. */
  function WithoutPost(posts: seq<PostRow>, postId: PostId): (r: seq<PostRow>)
    ensures IsSubsequence(r, posts)
    ensures forall i :: 0 <= i < |r| ==> r[i].id != postId
    ensures forall i :: 0 <= i < |posts| && posts[i].id != postId ==> posts[i] in r
  {
    FilterIsSubsequence(posts, (p: PostRow) => p.id != postId);
    Filter(posts, (p: PostRow) => p.id != postId)
  }

  /** The post list of every loaded user with that post taken out. */
  function WithoutPostEverywhere(lists: map<UserId, seq<PostRow>>, postId: PostId): (r: map<UserId, seq<PostRow>>)
    ensures r.Keys == lists.Keys
    ensures forall k :: k in r ==> r[k] == WithoutPost(lists[k], postId)
  {
    map k | k in lists :: WithoutPost(lists[k], postId)
  }

  /** The count adjustment after a post deletion: `posts` becomes
      `max(0, (posts ?? 1) - 1)` on EVERY row that has a `_count`, whoever
      the post's author was. */
  function DecrementPostCount(u: AdminRow): (v: AdminRow)
    ensures u.counts.None? ==> v == u
    ensures u.counts.Some? ==> v == u.(counts := Some(u.counts.value.(posts := Some(Max(0, u.counts.value.posts.GetOr(1) - 1)))))
    ensures v.counts.Some? ==> v.counts.value.posts.Some? && v.counts.value.posts.value >= 0
  {
    match u.counts
    case None => u
    case Some(c) => u.(counts := Some(c.(posts := Some(Max(0, c.posts.GetOr(1) - 1)))))
  }

  function DecrementAll(users: seq<AdminRow>): (r: seq<AdminRow>)
    ensures |r| == |users|
    ensures forall i :: 0 <= i < |r| ==> r[i] == DecrementPostCount(users[i])
  {
    if users == [] then [] else [DecrementPostCount(users[0])] + DecrementAll(users[1..])
  }

  /** The adjustment also hits users who did not write the deleted post. */
  lemma DecrementHitsNonAuthors(author: AdminRow, other: AdminRow)
    requires author.id != other.id
    requires other.counts == Some(Counts(Some(3), None, None))
    ensures DecrementAll([author, other])[1].counts == Some(Counts(Some(2), None, None))
  {
  }

  /** The tile's initial: the first character of the first name, else of the
      username, else of the email, upper-cased; "U" when all are empty. */
  function InitialOf(u: AdminRow): (r: string)
    ensures |r| == 1 && !('a' <= r[0] <= 'z')
    ensures u.firstName.Some? && u.firstName.value != [] ==> r == [UpperChar(u.firstName.value[0])]
    ensures !(u.firstName.Some? && u.firstName.value != []) && u.username.Some? && u.username.value != [] ==>
      r == [UpperChar(u.username.value[0])]
    ensures (u.firstName.None? || u.firstName.value == []) && (u.username.None? || u.username.value == []) ==>
      r == if u.email != [] then [UpperChar(u.email[0])] else "U"
  {
    if u.firstName.Some? && u.firstName.value != [] then [UpperChar(u.firstName.value[0])]
    else if u.username.Some? && u.username.value != [] then [UpperChar(u.username.value[0])]
    else if u.email != [] then [UpperChar(u.email[0])]
    else "U"
  }

  /** The PATCH body of `handleUpdateUser`: the editable fields, never the id,
      email or counts. */
  datatype UserPatch = UserPatch(
    username: Option<string>, firstName: Option<string>, lastName: Option<string>,
    bio: Option<string>, website: Option<string>, location: Option<string>,
    role: Role, isActive: bool, isVerified: bool)

  function PatchOf(u: AdminRow): (p: UserPatch)
    ensures p.username == u.username && p.firstName == u.firstName && p.lastName == u.lastName
    ensures p.bio == u.bio && p.website == u.website && p.location == u.location
    ensures p.role == u.role && p.isActive == u.isActive && p.isVerified == u.isVerified
  {
    UserPatch(u.username, u.firstName, u.lastName, u.bio, u.website, u.location, u.role, u.isActive, u.isVerified)
  }

  // ---------------------------------------------------------------------------
  // The dashboard's state
  // ---------------------------------------------------------------------------

  class Dashboard {
    var users: seq<AdminRow>
    var selected: Option<AdminRow>
    var editOpen: bool
    var confirmOpen: Option<Pending>
    var postsForUser: map<UserId, seq<PostRow>>
    var postsLoading: map<UserId, bool>

    constructor()
      ensures users == [] && selected.None? && !editOpen && confirmOpen.None?
      ensures postsForUser == map[] && postsLoading == map[]
    {
      users := [];
      selected := None;
      editOpen := false;
      confirmOpen := None;
      postsForUser := map[];
      postsLoading := map[];
    }

    /** Runs the selection effect for the current filter. */
    method Reselect(query: string, f: RoleFilter)
      modifies this
      ensures selected == NextSelection(old(selected), Filtered(users, query, f))
      ensures users == old(users) && editOpen == old(editOpen) && confirmOpen == old(confirmOpen)
      ensures postsForUser == old(postsForUser) && postsLoading == old(postsLoading)
    {
      selected := NextSelection(selected, Filtered(users, query, f));
    }

    /** `handleUpdateUser`: nothing without a selection; otherwise the
        selection's fields are sent and, when the server answers with the
        stored row, that row replaces the one with its id and becomes the
        selection. */
    method HandleUpdateUser(response: Option<AdminRow>) returns (body: Option<UserPatch>, toast: string)
      modifies this
      ensures old(selected).None? ==> body.None? && users == old(users) && selected == old(selected) && toast == ""
      ensures old(selected).Some? ==> body == Some(PatchOf(old(selected).value))
      ensures old(selected).Some? && response.Some? ==>
        users == ReplaceRow(old(users), response.value) && selected == response && !editOpen && toast == "User updated"
      ensures old(selected).Some? && response.None? ==>
        users == old(users) && selected == old(selected) && editOpen == old(editOpen) && toast == "Failed to update user"
      ensures confirmOpen == old(confirmOpen) && postsForUser == old(postsForUser) && postsLoading == old(postsLoading)
    {
      if selected.None? {
        body := None;
        toast := "";
        return;
      }
      body := Some(PatchOf(selected.value));
      if response.Some? {
        users := ReplaceRow(users, response.value);
        editOpen := false;
        selected := response;
        toast := "User updated";
      } else {
        toast := "Failed to update user";
      }
    }

    /** `handleDeleteUser`: after the server deleted the user, its row leaves
        the list and it is no longer selected. */
    method HandleDeleteUser(id: UserId, ok: bool) returns (toast: string)
      modifies this
      ensures ok ==> users == WithoutUser(old(users), id) && confirmOpen.None? && toast == "User deleted"
      ensures ok ==> selected == if old(selected).Some? && old(selected).value.id == id then None else old(selected)
      ensures !ok ==> users == old(users) && selected == old(selected) && confirmOpen == old(confirmOpen)
      ensures !ok ==> toast == "Failed to delete user"
      ensures editOpen == old(editOpen) && postsForUser == old(postsForUser) && postsLoading == old(postsLoading)
    {
      if !ok {
        toast := "Failed to delete user";
        return;
      }
      users := WithoutUser(users, id);
      if selected.Some? && selected.value.id == id {
        selected := None;
      }
      confirmOpen := None;
      toast := "User deleted";
    }

    /** `loadPostsForUser`: a no-op when that user's posts are loaded or
        loading; otherwise one request, whose posts are cached on success. A
        failed request caches nothing, so it may be retried. */
    method LoadPostsForUser(userId: UserId, fetched: Option<seq<PostRow>>) returns (requested: bool)
      modifies this
      ensures requested <==> userId !in old(postsForUser) && !(userId in old(postsLoading) && old(postsLoading)[userId])
      ensures !requested ==> postsForUser == old(postsForUser) && postsLoading == old(postsLoading)
      ensures requested ==> postsLoading == old(postsLoading)[userId := false]
      ensures requested ==> postsForUser == if fetched.Some? then old(postsForUser)[userId := fetched.value] else old(postsForUser)
      ensures users == old(users) && selected == old(selected) && editOpen == old(editOpen) && confirmOpen == old(confirmOpen)
    {
      if userId in postsForUser || (userId in postsLoading && postsLoading[userId]) {
        return false;
      }
      requested := true;
      postsLoading := postsLoading[userId := true];
      if fetched.Some? {
        postsForUser := postsForUser[userId := fetched.value];
      }
      postsLoading := postsLoading[userId := false];
    }

    /** `handleDeletePost`: after the server removed the post, it is taken out
        of every loaded post list, key by key, and every counted user's post
        count goes down by one. */
    method HandleDeletePost(postId: PostId, ok: bool) returns (toast: string)
      modifies this
      ensures ok ==> postsForUser == WithoutPostEverywhere(old(postsForUser), postId)
      ensures ok ==> users == DecrementAll(old(users)) && confirmOpen.None? && toast == "Post deleted"
      ensures !ok ==> postsForUser == old(postsForUser) && users == old(users) && confirmOpen == old(confirmOpen)
      ensures !ok ==> toast == "Failed to delete post"
      ensures selected == old(selected) && editOpen == old(editOpen) && postsLoading == old(postsLoading)
    {
      if !ok {
        toast := "Failed to delete post";
        return;
      }
      postsForUser := StripPost(postsForUser, postId);
      users := DecrementAll(users);
      confirmOpen := None;
      toast := "Post deleted";
    }
  }

  /** The `Object.keys(copy).forEach(...)` loop of `handleDeletePost`: each
      loaded list in turn loses the deleted post. */
  method StripPost(lists: map<UserId, seq<PostRow>>, postId: PostId) returns (copy: map<UserId, seq<PostRow>>)
    ensures copy == WithoutPostEverywhere(lists, postId)
  {
    copy := lists;
    var todo := lists.Keys;
    while todo != {}
      invariant todo <= copy.Keys && copy.Keys == lists.Keys
      invariant forall k :: k in copy ==> copy[k] == if k in todo then lists[k] else WithoutPost(lists[k], postId)
      decreases |todo|
    {
      var k :| k in todo;
      copy := copy[k := WithoutPost(copy[k], postId)];
      todo := todo - {k};
    }
  }

  /** After a post deletion no loaded list still shows that post. */
  lemma PostGoneEverywhere(lists: map<UserId, seq<PostRow>>, postId: PostId)
    ensures forall k, i :: k in WithoutPostEverywhere(lists, postId) && 0 <= i < |WithoutPostEverywhere(lists, postId)[k]| ==>
      WithoutPostEverywhere(lists, postId)[k][i].id != postId
  {
  }
}
