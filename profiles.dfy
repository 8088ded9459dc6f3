/** The signed-in user's profile as context/userContext.tsx keeps it: the
    profile row, the local merge, the profile update and the avatar upload. */
module Profiles {
  import opened Common
  import opened Domain
  import opened Names

  /** A profile row as column name to value; `None` is SQL null. A key that
      is missing is a field the object does not have (or has as `undefined`). */
  type Columns = map<string, Option<string>>

  /** The only columns a profile update may write. */
  const PROFILE_COLUMNS: set<string> :=
    {"first_name", "last_name", "username", "bio", "website", "location", "avatar_url"}

  /** The profile columns `data` gives a value for, null values included. */
  function EditableColumns(data: Columns): (r: Columns)
    ensures r.Keys <= PROFILE_COLUMNS
    ensures forall c :: c in PROFILE_COLUMNS ==> (c in r <==> c in data)
    ensures forall c :: c in r ==> r[c] == data[c]
  {
    map c | c in data && c in PROFILE_COLUMNS :: data[c]
  }

  /** The id, the email and the creation time are never written. */
  lemma IdentityNeverWritten(data: Columns)
    ensures "id" !in EditableColumns(data) && "email" !in EditableColumns(data)
    ensures "created_at" !in EditableColumns(data)
  {
  }

  /** `{ ...(prev ?? {}), ...p }`: the given fields win, every other field of
      the previous profile stays. */
  function Merge(prev: Option<Columns>, p: Columns): (r: Columns)
    ensures r.Keys == p.Keys + (if prev.Some? then prev.value.Keys else {})
    ensures forall c :: c in p ==> r[c] == p[c]
    ensures prev.Some? ==> forall c :: c in prev.value && c !in p ==> r[c] == prev.value[c]
  {
    prev.GetOr(map[]) + p
  }

  /** The avatar's storage path: `avatars/${id}_${now}.${ext}`, `ext` being
      the text after the file name's last dot. */
  function AvatarPath(owner: string, now: nat, fileName: string): (p: string)
    ensures StartsWith(p, "avatars/" + owner + "_")
    ensures LastSegment(p, '.') == LastSegment(fileName, '.')
  {
    JoinedPath("avatars/" + owner + "_", NatToString(now), '.', LastSegment(fileName, '.'));
    "avatars/" + owner + "_" + NatToString(now) + ['.'] + LastSegment(fileName, '.')
  }

  /** The columns of `data` among `cols`. */
  function Among(data: Columns, cols: set<string>): Columns {
    map c | c in data && c in cols :: data[c]
  }

  /** Taking one more column into account. */
  lemma AmongOneMore(data: Columns, cols: set<string>, c: string)
    ensures Among(data, cols + {c}) == if c in data then Among(data, cols)[c := data[c]] else Among(data, cols)
  {
  }

  /** `updateProfile`'s `updates` object, filled one column at a time. */
  method BuildUpdates(data: Columns) returns (updates: Columns)
    ensures updates == EditableColumns(data)
  {
    ghost var done: set<string> := {};
    updates := map[];
    assert updates == Among(data, done);
    AmongOneMore(data, done, "first_name");
    if "first_name" in data { updates := updates["first_name" := data["first_name"]]; }
    done := done + {"first_name"};
    AmongOneMore(data, done, "last_name");
    if "last_name" in data { updates := updates["last_name" := data["last_name"]]; }
    done := done + {"last_name"};
    AmongOneMore(data, done, "username");
    if "username" in data { updates := updates["username" := data["username"]]; }
    done := done + {"username"};
    AmongOneMore(data, done, "bio");
    if "bio" in data { updates := updates["bio" := data["bio"]]; }
    done := done + {"bio"};
    AmongOneMore(data, done, "website");
    if "website" in data { updates := updates["website" := data["website"]]; }
    done := done + {"website"};
    AmongOneMore(data, done, "location");
    if "location" in data { updates := updates["location" := data["location"]]; }
    done := done + {"location"};
    AmongOneMore(data, done, "avatar_url");
    if "avatar_url" in data { updates := updates["avatar_url" := data["avatar_url"]]; }
    done := done + {"avatar_url"};
    assert done == PROFILE_COLUMNS;
  }

  class UserContext {
    var profile: Option<Columns>
    var loading: bool

    constructor()
      ensures profile.None? && loading
    {
      profile := None;
      loading := true;
    }

    /** `setProfileLocal`. */
    method SetProfileLocal(p: Columns)
      modifies this
      ensures profile == Some(Merge(old(profile), p)) && loading == old(loading)
    {
      profile := Some(Merge(profile, p));
    }

    /** `updateProfile`: false and no request without a signed-in user;
        otherwise the profile columns of `data` are sent, and after a
        successful write the profile is reloaded (`reloaded`; `None` when the
        reload fails, which clears it). */
    method UpdateProfile(authUser: Option<UserId>, data: Columns, writeOk: bool, reloaded: Option<Columns>)
      returns (ok: bool, sent: Option<Columns>)
      modifies this
      ensures authUser.None? ==> !ok && sent.None? && profile == old(profile)
      ensures authUser.Some? ==> sent == Some(EditableColumns(data)) && ok == writeOk
      ensures authUser.Some? && writeOk ==> profile == reloaded && !loading
      ensures authUser.Some? && !writeOk ==> profile == old(profile) && loading == old(loading)
      ensures authUser.None? ==> loading == old(loading)
    {
      if authUser.None? {
        return false, None;
      }
      var updates := BuildUpdates(data);
      sent := Some(updates);
      if !writeOk {
        return false, sent;
      }
      profile := reloaded;
      loading := false;
      ok := true;
    }

    /** `uploadAvatar`: nothing without a signed-in user; otherwise the file
        goes to its avatar path, and a non-empty public URL is written to the
        profile row and merged into the local profile. */
    method UploadAvatar(authUser: Option<UserId>, fileName: string, now: nat, uploadOk: bool, publicUrl: Option<string>)
      returns (path: Option<string>, result: Option<string>, avatarWrite: Option<Columns>)
      modifies this
      ensures authUser.None? ==> path.None? && result.None? && avatarWrite.None? && profile == old(profile)
      ensures authUser.Some? ==> path == Some(AvatarPath(authUser.value, now, fileName))
      ensures authUser.Some? && !uploadOk ==> result.None? && avatarWrite.None? && profile == old(profile)
      ensures authUser.Some? && uploadOk ==> result == publicUrl
      ensures authUser.Some? && uploadOk && Truthy(publicUrl) ==>
        avatarWrite == Some(map["avatar_url" := publicUrl])
        && profile == Some(Merge(old(profile), map["avatar_url" := publicUrl]))
      ensures authUser.Some? && uploadOk && !Truthy(publicUrl) ==> avatarWrite.None? && profile == old(profile)
      ensures loading == old(loading)
    {
      if authUser.None? {
        return None, None, None;
      }
      path := Some(AvatarPath(authUser.value, now, fileName));
      if !uploadOk {
        return path, None, None;
      }
      result := publicUrl;
      avatarWrite := None;
      if Truthy(publicUrl) {
        avatarWrite := Some(map["avatar_url" := publicUrl]);
        SetProfileLocal(map["avatar_url" := publicUrl]);
      }
    }
  }
}
