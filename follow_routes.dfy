/** The validation chains of POST /api/users/follow and POST /api/users/unfollow
    (app/api/users/follow/route.ts, app/api/users/unfollow/route.ts) and the
    two edits they make to the follow table. */
module FollowRoutes {
  import opened Common
  import opened Domain

  /** `!userId`: the body has no user id, or an empty one. */
  predicate MissingId(userId: Option<UserId>) {
    userId.None? || userId.value == ""
  }

  /** The early returns of the follow route, in order; `None` means the
      request passed every check and the insert may proceed. */
  function FollowGuard(users: seq<User>, follows: seq<Follow>, caller: Option<UserId>, userId: Option<UserId>)
    : (r: Option<Outcome>)
    ensures r.None? <==>
      && caller.Some? && !MissingId(userId) && userId.value != caller.value
      && HasActiveUser(users, userId.value) && Follow(caller.value, userId.value) !in follows
    ensures caller.None? ==> r == Some(Outcome(401, "Unauthorized"))
    ensures caller.Some? && MissingId(userId) ==> r == Some(Outcome(400, "User ID is required"))
    ensures caller.Some? && !MissingId(userId) && userId == caller ==> r == Some(Outcome(400, "Cannot follow yourself"))
    ensures (caller.Some? && !MissingId(userId) && userId != caller && !HasActiveUser(users, userId.value))
      ==> r == Some(Outcome(404, "User not found"))
    ensures (caller.Some? && !MissingId(userId) && userId != caller && HasActiveUser(users, userId.value)
             && Follow(caller.value, userId.value) in follows)
      ==> r == Some(Outcome(400, "Already following this user"))
  {
    if caller.None? then Some(Outcome(401, "Unauthorized"))
    else if MissingId(userId) then Some(Outcome(400, "User ID is required"))
    else if userId.value == caller.value then Some(Outcome(400, "Cannot follow yourself"))
    else if !HasActiveUser(users, userId.value) then Some(Outcome(404, "User not found"))
    else if Follow(caller.value, userId.value) in follows then Some(Outcome(400, "Already following this user"))
    else None
  }

  /** The early returns of the unfollow route. It checks neither self-unfollow
      nor that the target user exists. */
  function UnfollowGuard(follows: seq<Follow>, caller: Option<UserId>, userId: Option<UserId>)
    : (r: Option<Outcome>)
    ensures r.None? <==> caller.Some? && !MissingId(userId) && Follow(caller.value, userId.value) in follows
    ensures caller.None? ==> r == Some(Outcome(401, "Unauthorized"))
    ensures caller.Some? && MissingId(userId) ==> r == Some(Outcome(400, "User ID is required"))
    ensures (caller.Some? && !MissingId(userId) && Follow(caller.value, userId.value) !in follows)
      ==> r == Some(Outcome(400, "Not following this user"))
  {
    if caller.None? then Some(Outcome(401, "Unauthorized"))
    else if MissingId(userId) then Some(Outcome(400, "User ID is required"))
    else if Follow(caller.value, userId.value) !in follows then Some(Outcome(400, "Not following this user"))
    else None
  }

  /** `follow.create`: the pair is added at the end of the table. */
  function Link(fs: seq<Follow>, f: Follow): (r: seq<Follow>)
    ensures f in r && |r| == |fs| + 1
    ensures forall g :: g in fs ==> g in r
  {
    fs + [f]
  }

  /** `follow.delete`: the pair is removed, every other pair kept in order. */
  function Unlink(fs: seq<Follow>, f: Follow): (r: seq<Follow>)
    ensures f !in r
    ensures forall i :: 0 <= i < |fs| && fs[i] != f ==> fs[i] in r
    ensures forall i :: 0 <= i < |r| ==> r[i] in fs
    ensures IsSubsequence(r, fs)
  {
    FilterIsSubsequence(fs, (g: Follow) => g != f);
    Filter(fs, (g: Follow) => g != f)
  }

  /** A successful follow keeps the table free of duplicates and self pairs. */
  lemma LinkKeepsInvariants(fs: seq<Follow>, f: Follow)
    requires NoDuplicateFollows(fs) && NoSelfFollow(fs)
    requires f !in fs && f.followerId != f.followingId
    ensures NoDuplicateFollows(Link(fs, f)) && NoSelfFollow(Link(fs, f))
  {
  }

  /** With unique pairs, unfollowing removes exactly one row. */
  lemma {:induction false} UnlinkRemovesOne(fs: seq<Follow>, f: Follow)
    requires NoDuplicateFollows(fs)
    ensures |Unlink(fs, f)| == if f in fs then |fs| - 1 else |fs|
  {
    if fs != [] {
      assert NoDuplicateFollows(fs[1..]);
      UnlinkRemovesOne(fs[1..], f);
      assert Unlink(fs, f) == (if fs[0] != f then [fs[0]] else []) + Unlink(fs[1..], f);
      assert fs[0] == f ==> f !in fs[1..];
      assert f in fs <==> fs[0] == f || f in fs[1..];
    }
  }

  /** Unfollowing keeps both table invariants. */
  lemma {:induction false} UnlinkKeepsInvariants(fs: seq<Follow>, f: Follow)
    requires NoDuplicateFollows(fs) && NoSelfFollow(fs)
    ensures NoDuplicateFollows(Unlink(fs, f)) && NoSelfFollow(Unlink(fs, f))
  {
    if fs != [] {
      assert NoDuplicateFollows(fs[1..]) && NoSelfFollow(fs[1..]);
      UnlinkKeepsInvariants(fs[1..], f);
      var rest := Unlink(fs[1..], f);
      assert Unlink(fs, f) == (if fs[0] != f then [fs[0]] else []) + rest;
      assert fs[0] !in rest;
    }
  }

  /** A successful follow followed by an unfollow of the same user gives the
      original follow table back. */
  lemma {:induction false} UnlinkAfterLink(fs: seq<Follow>, f: Follow)
    requires f !in fs
    ensures Unlink(Link(fs, f), f) == fs
  {
    var keep := (g: Follow) => g != f;
    FilterConcat(fs, [f], keep);
    FilterAll(fs, keep);
    assert Filter([f], keep) == [];
  }
}
