/** The profile page (app/profile/page.tsx): the loaded profile with its
    posts and follow lists, the edit form's save, the avatar upload into the
    form, and the local updates after a post is edited or deleted. */
module ProfilePage {
  import opened Common
  import opened Domain
  import opened Profiles

  datatype OwnPost = OwnPost(id: PostId, content: string, imageUrl: Option<string>, createdAt: int)

  /** `(id, username, avatar_url)` of a joined user. */
  datatype Summary = Summary(id: UserId, username: Option<string>, avatarUrl: Option<string>)

  /** A follow row with its joined user; `other` is the follower in the
      follower query and the followed user in the following query. */
  datatype JoinedFollow = JoinedFollow(other: Summary)

  datatype ProfileView = ProfileView(columns: Columns, posts: seq<OwnPost>, followers: seq<Summary>, following: seq<Summary>)

  /** `rows?.map(f => f.follower) || []`. */
  function Project(rows: Option<seq<JoinedFollow>>): (r: seq<Summary>)
    ensures rows.None? ==> r == []
    ensures rows.Some? ==> |r| == |rows.value| && forall i :: 0 <= i < |r| ==> r[i] == rows.value[i].other
  {
    match rows
    case None => []
    case Some(rs) => seq(|rs|, i requires 0 <= i < |rs| => rs[i].other)
  }

  /** The update sent by "save": the seven profile columns the form holds. */
  function SaveColumns(form: ProfileView): (r: Columns)
    ensures r.Keys <= PROFILE_COLUMNS
    ensures PROFILE_COLUMNS <= form.columns.Keys ==> r.Keys == PROFILE_COLUMNS
    ensures forall c :: c in r ==> c in form.columns && r[c] == form.columns[c]
  {
    EditableColumns(form.columns)
  }

  /** `prev.posts.map(p => p.id === edited.id ? { ...p, ...edited } : p)`;
      the edited post carries every field, so it replaces its row. */
  function ReplacePost(posts: seq<OwnPost>, edited: OwnPost): seq<OwnPost> {
    ReplaceWhere(posts, (p: OwnPost) => p.id == edited.id, edited)
  }

  /** An edit keeps the list's ids and their order. */
  lemma ReplaceKeepsIds(posts: seq<OwnPost>, edited: OwnPost)
    ensures forall i :: 0 <= i < |posts| ==> ReplacePost(posts, edited)[i].id == posts[i].id
  {
  }

  /** `prev.posts.filter(p => p.id !== postId)`. */
  function WithoutOwnPost(posts: seq<OwnPost>, postId: PostId): (r: seq<OwnPost>)
    ensures IsSubsequence(r, posts)
    ensures forall i :: 0 <= i < |r| ==> r[i].id != postId
    ensures forall i :: 0 <= i < |posts| && posts[i].id != postId ==> posts[i] in r
  {
    FilterIsSubsequence(posts, (p: OwnPost) => p.id != postId);
    Filter(posts, (p: OwnPost) => p.id != postId)
  }

  predicate UniqueOwnPostIds(posts: seq<OwnPost>) {
    forall i, j :: 0 <= i < j < |posts| ==> posts[i].id != posts[j].id
  }

  /** With unique ids, deleting a listed post removes exactly one row. */
  lemma {:induction false} DeleteRemovesOne(posts: seq<OwnPost>, k: nat)
    requires UniqueOwnPostIds(posts) && k < |posts|
    ensures |WithoutOwnPost(posts, posts[k].id)| == |posts| - 1
  {
    var id := posts[k].id;
    var keep := (p: OwnPost) => p.id != id;
    assert Filter(posts, keep) == (if keep(posts[0]) then [posts[0]] else []) + Filter(posts[1..], keep);
    if k == 0 {
      FilterAll(posts[1..], keep);
    } else {
      DeleteRemovesOne(posts[1..], k - 1);
      assert posts[1..][k - 1].id == id;
    }
  }

  /** The form after an avatar upload: `{ ...form, avatar_url }`. */
  function WithAvatar(form: Option<ProfileView>, url: string): (r: ProfileView)
    ensures "avatar_url" in r.columns && r.columns["avatar_url"] == Some(url)
    ensures form.Some? ==> r == form.value.(columns := form.value.columns["avatar_url" := Some(url)])
  {
    match form
    case Some(f) => f.(columns := f.columns["avatar_url" := Some(url)])
    case None => ProfileView(map["avatar_url" := Some(url)], [], [], [])
  }

  /** `avatars/${authUser?.id}_${now}.${ext}`: without a signed-in user the
      id prints as "undefined". */
  function UploadPathFor(authUser: Option<UserId>, now: nat, fileName: string): (p: Option<string>)
    ensures p.Some? && StartsWith(p.value, "avatars/" + authUser.GetOr("undefined") + "_")
    ensures LastSegment(p.value, '.') == LastSegment(fileName, '.')
  {
    Some(AvatarPath(authUser.GetOr("undefined"), now, fileName))
  }

  class ProfileScreen {
    var user: Option<ProfileView>
    var form: Option<ProfileView>
    var loading: bool
    var editMode: bool
    var editPost: Option<OwnPost>

    constructor()
      ensures user.None? && form.None? && loading && !editMode && editPost.None?
    {
      user := None;
      form := None;
      loading := true;
      editMode := false;
      editPost := None;
    }

    /** `fetchProfile`: without a profile row the page redirects to sign-in;
        otherwise the row, the posts (or none) and the projected follow lists
        become both the shown profile and the form. */
    method Load(row: Option<Columns>, posts: Option<seq<OwnPost>>,
                followers: Option<seq<JoinedFollow>>, following: Option<seq<JoinedFollow>>)
      returns (redirect: bool)
      modifies this
      ensures redirect <==> row.None?
      ensures row.None? ==> user == old(user) && form == old(form)
      ensures row.Some? ==>
        var merged := ProfileView(row.value, posts.GetOr([]), Project(followers), Project(following));
        user == Some(merged) && form == Some(merged)
      ensures !loading && editMode == old(editMode) && editPost == old(editPost)
    {
      loading := true;
      if row.None? {
        loading := false;
        return true;
      }
      var merged := ProfileView(row.value, posts.GetOr([]), Project(followers), Project(following));
      user := Some(merged);
      form := Some(merged);
      loading := false;
      redirect := false;
    }

    /** `handleSave`: the form's profile columns are written; on success the
        form becomes the shown profile and edit mode ends. */
    method HandleSave(authUser: Option<UserId>, writeOk: bool) returns (sent: Option<Columns>)
      modifies this
      ensures form.None? || authUser.None? ==> sent.None? && user == old(user) && editMode == old(editMode)
      ensures form.Some? && authUser.Some? ==> sent == Some(SaveColumns(form.value))
      ensures form.Some? && authUser.Some? && writeOk ==> user == form && !editMode
      ensures form.Some? && authUser.Some? && !writeOk ==> user == old(user) && editMode == old(editMode)
      ensures form == old(form) && loading == old(loading) && editPost == old(editPost)
    {
      if form.None? || authUser.None? {
        return None;
      }
      sent := Some(SaveColumns(form.value));
      if writeOk {
        user := form;
        editMode := false;
      }
    }

    /** `handleUpdatePost`: after the post row accepted the edit, the edited
        post replaces its row in the shown list and the editor closes. */
    method HandleUpdatePost(writeOk: bool) returns (sent: Option<OwnPost>)
      modifies this
      ensures old(editPost).None? ==> sent.None? && user == old(user) && editPost == old(editPost)
      ensures old(editPost).Some? ==> sent == old(editPost)
      ensures old(editPost).Some? && writeOk ==> editPost.None?
      ensures old(editPost).Some? && writeOk && old(user).Some? ==>
        user == Some(old(user).value.(posts := ReplacePost(old(user).value.posts, old(editPost).value)))
      ensures old(editPost).Some? && writeOk && old(user).None? ==> user.None?
      ensures old(editPost).Some? && !writeOk ==> user == old(user) && editPost == old(editPost)
      ensures form == old(form) && loading == old(loading) && editMode == old(editMode)
    {
      if editPost.None? {
        return None;
      }
      sent := editPost;
      if writeOk {
        if user.Some? {
          user := Some(user.value.(posts := ReplacePost(user.value.posts, editPost.value)));
        }
        editPost := None;
      }
    }

    /** `handleDeletePost`: after the row was deleted, the post leaves the shown list. */
    method HandleDeletePost(postId: PostId, ok: bool)
      modifies this
      ensures ok && old(user).Some? ==>
        user == Some(old(user).value.(posts := WithoutOwnPost(old(user).value.posts, postId)))
      ensures !ok || old(user).None? ==> user == old(user)
      ensures form == old(form) && loading == old(loading) && editMode == old(editMode) && editPost == old(editPost)
    {
      if ok && user.Some? {
        user := Some(user.value.(posts := WithoutOwnPost(user.value.posts, postId)));
      }
    }

    /** `setForm({ ...form, avatar_url })`. */
    method SetFormAvatar(url: string)
      modifies this
      ensures form == Some(WithAvatar(old(form), url))
      ensures user == old(user) && loading == old(loading) && editMode == old(editMode) && editPost == old(editPost)
    {
      form := Some(WithAvatar(form, url));
    }

    /** `handleAvatarUpload`: the first chosen file goes to
        `avatars/${authUser?.id}_${now}.${ext}` (the id prints as "undefined"
        when nobody is signed in), and its public URL goes into the form. */
    method HandleAvatarUpload(authUser: Option<UserId>, fileName: Option<string>, now: nat,
                              uploadOk: bool, publicUrl: string)
      returns (path: Option<string>)
      modifies this
      ensures fileName.None? ==> path.None? && form == old(form)
      ensures fileName.Some? ==> path == UploadPathFor(authUser, now, fileName.value)
      ensures fileName.Some? && uploadOk ==> form == Some(WithAvatar(old(form), publicUrl))
      ensures fileName.Some? && !uploadOk ==> form == old(form)
      ensures user == old(user) && loading == old(loading) && editMode == old(editMode) && editPost == old(editPost)
    {
      if fileName.None? {
        return None;
      }
      if uploadOk {
        SetFormAvatar(publicUrl);
      }
      path := UploadPathFor(authUser, now, fileName.value);
    }
  }
}
