/** The profile editor (src/components/ProfileEditor.tsx): only the signed-in
    owner of a profile may edit it; the username is normalised and checked
    against `^[a-z0-9_.]{3,20}$`; an avatar image is picked under the image
    checks, uploaded to a fixed path per user, and the profile row is updated
    with trimmed-or-null fields. */
module ProfileEditor {
  import opened Common

  /** The profile fields the editor reads and writes. */
  datatype EditableProfile = EditableProfile(id: string, username: Option<string>, fullName: Option<string>,
                                             avatarUrl: Option<string>, bio: Option<string>)

  /** The update the editor sends. */
  datatype ProfileUpdate = ProfileUpdate(fullName: Option<string>, username: Option<string>,
                                         bio: Option<string>, avatarUrl: Option<string>)

  const UsernameMessage: string := "Username must be 3\U{2013}20 chars (a\U{2013}z, 0\U{2013}9, _, .)"
  const NotImageMessage: string := "Please choose an image file."
  const TooLargeMessage: string := "Image must be under 5MB."
  const SaveFailedMessage: string := "Failed to save"
  const SavedMessage: string := "Saved!"

  /** The editor renders its form only for the owner: `!me || me !== userId`
      shows a refusal instead. Only the profile's own, non-empty id may edit. */
  predicate CanEdit(me: Option<string>, userId: string)
    ensures CanEdit(me, userId) <==> userId != "" && me == Some(userId)
  {
    Truthy(me) && me.value == userId
  }

  // ---------------------------------------------------------------------------
  // Username
  // ---------------------------------------------------------------------------

  /** `username?.trim().toLowerCase() || null`. */
  function NormalizeUsername(s: string): (r: Option<string>)
    ensures r.None? <==> AllSpace(s)
    ensures r.Some? ==> r.value == ToLower(Trim(s)) && r.value != ""
    ensures r.Some? ==> !IsSpace(r.value[0]) && !IsSpace(r.value[|r.value| - 1])
    ensures r.Some? ==> forall k :: 0 <= k < |r.value| ==> !('A' <= r.value[k] <= 'Z')
  {
    var t := ToLower(Trim(s));
    if t == "" then None else Some(t)
  }

  /** One character of `[a-z0-9_.]`: never white space, and its own lower
      case. */
  predicate IsUsernameChar(c: char)
    ensures IsUsernameChar(c) ==> !IsSpace(c) && LowerChar(c) == c
  {
    ('a' <= c <= 'z') || ('0' <= c <= '9') || c == '_' || c == '.'
  }

  /** `/^[a-z0-9_.]{3,20}$/.test(u)`: such a name has no white space at
      either end (and ValidIsNormal shows it is its own normal form). */
  predicate ValidUsername(u: string)
    ensures ValidUsername(u) ==> |u| >= 3 && !IsSpace(u[0]) && !IsSpace(u[|u| - 1])
  {
    3 <= |u| <= 20 && forall k :: 0 <= k < |u| ==> IsUsernameChar(u[k])
  }

  /** The validation step of save: the error for a non-null name that fails
      the pattern, nothing otherwise. */
  function UsernameError(clean: Option<string>): (r: Option<string>)
    ensures r.Some? <==> clean.Some? && !ValidUsername(clean.value)
    ensures r.Some? ==> r.value == UsernameMessage
  {
    if clean.Some? && !ValidUsername(clean.value) then Some(UsernameMessage) else None
  }

  /** Helper: a string with no white space at either end is its own trim. */
  lemma TrimOfTrimmed(t: string)
    requires t != [] && !IsSpace(t[0]) && !IsSpace(t[|t| - 1])
    ensures Trim(t) == t
  {
    assert LeadingSpaces(t) == 0;
    assert TrailingSpaces(t) == 0;
  }

  /** Normalising a normalised name changes nothing. */
  lemma NormalizeIdempotent(s: string)
    requires NormalizeUsername(s).Some?
    ensures NormalizeUsername(NormalizeUsername(s).value) == NormalizeUsername(s)
  {
    var r := NormalizeUsername(s);
    var t := r.value;
    assert t != [] && !IsSpace(t[0]) && !IsSpace(t[|t| - 1]);
    TrimOfTrimmed(t);
    assert ToLower(t) == t;
  }

  /** A name that matches the pattern survives normalisation unchanged. */
  lemma ValidIsNormal(u: string)
    requires ValidUsername(u)
    ensures NormalizeUsername(u) == Some(u)
  {
    assert !IsSpace(u[0]) && !IsSpace(u[|u| - 1]);
    TrimOfTrimmed(u);
    assert ToLower(u) == u;
  }

  // ---------------------------------------------------------------------------
  // Avatar
  // ---------------------------------------------------------------------------

  /** The avatar's storage path, `avatars/{userId}.{ext}`. */
  function AvatarPath(userId: string, fileName: string): (r: string)
    ensures StartsWith(r, "avatars/" + userId + ".")
    ensures LastPiece(r, '.') == Extension(fileName)
  {
    var stem := "avatars/" + userId;
    LastPieceAfterSeparator(stem, '.', Extension(fileName));
    assert (stem + "." + Extension(fileName))[..|stem + "."|] == stem + ".";
    stem + "." + Extension(fileName)
  }

  /** The saved avatar when a file was picked ends in the file's extension. */
  lemma AvatarPathForDotted(userId: string, stem: string, ext: string)
    requires ext != [] && '.' !in ext
    ensures AvatarPath(userId, stem + "." + ext) == "avatars/" + userId + "." + ext
  {
    ExtensionOfDotted(stem, ext);
  }

  /** The form, one field per `useState` of the component. Each event is a
      method whose `modifies` clause names exactly the fields it may change
      and whose `ensures` give their new values; every other field keeps its
      value. */
  class Editor {
    const userId: string
    var me: Option<string>
    var fullName: string
    var username: string
    var bio: string
    var avatarUrl: Option<string>
    var file: Option<FileInfo>
    var preview: bool
    var saving: bool
    var error: Option<string>
    var ok: Option<string>

    /** The form starts from the initial profile, empty strings for missing
        text. */
    constructor (userId: string, initial: Option<EditableProfile>)
      ensures this.userId == userId
      ensures initial.None? ==> fullName == "" && username == "" && bio == "" && avatarUrl.None?
      ensures initial.Some? ==>
        fullName == initial.value.fullName.GetOr("") && username == initial.value.username.GetOr("")
        && bio == initial.value.bio.GetOr("") && avatarUrl == initial.value.avatarUrl
      ensures me.None? && file.None? && !preview && !saving && error.None? && ok.None?
    {
      this.userId := userId;
      me := None;
      if initial.Some? {
        fullName, username, bio := initial.value.fullName.GetOr(""), initial.value.username.GetOr(""), initial.value.bio.GetOr("");
        avatarUrl := initial.value.avatarUrl;
      } else {
        fullName, username, bio, avatarUrl := "", "", "", None;
      }
      file, preview, saving, error, ok := None, false, false, None, None;
    }

    method UserLoaded(uid: Option<string>)
      modifies this`me
      ensures me == uid
    {
      me := uid;
    }

    /** Typing in one of the three text fields. */
    method FieldsEdited(newFullName: string, newUsername: string, newBio: string)
      modifies this`fullName, this`username, this`bio
      ensures fullName == newFullName && username == newUsername && bio == newBio
    {
      fullName, username, bio := newFullName, newUsername, newBio;
    }

    /** onPickFile. Only reachable for the owner. A file that is not an image
        or is over 5 MB sets its error and leaves the chosen file as it was;
        an acceptable one clears the error and is taken. */
    method PickFile(f: Option<FileInfo>) returns (ran: bool)
      modifies this`error, this`file, this`preview
      ensures ran == (CanEdit(me, userId) && f.Some?)
      ensures !ran ==> error == old(error)
      ensures !(ran && IsImageType(f.value) && WithinSizeLimit(f.value)) ==>
        file == old(file) && preview == old(preview)
      ensures ran && !IsImageType(f.value) ==> error == Some(NotImageMessage)
      ensures ran && IsImageType(f.value) && !WithinSizeLimit(f.value) ==> error == Some(TooLargeMessage)
      ensures ran && IsImageType(f.value) && WithinSizeLimit(f.value) ==> error.None? && file == f && preview
    {
      ran := CanEdit(me, userId) && f.Some?;
      if !ran {
        return;
      }
      if !IsImageType(f.value) {
        error := Some(NotImageMessage);
        return;
      }
      if !WithinSizeLimit(f.value) {
        error := Some(TooLargeMessage);
        return;
      }
      error := None;
      file := f;
      preview := true;
    }

    /** save, with the upload's outcome, the uploaded file's public URL and the
        update's outcome. Only reachable for the owner. A name that fails the
        pattern stops before any remote call; the upload runs only when a file
        was picked; an error of either call shows its message (or "Failed to
        save") and keeps the form; success sends the trimmed-or-null fields
        with the new avatar (the current one when no file was picked), shows
        "Saved!" and drops the picked file. Returns the upload path and the
        update sent, and whether onSaved fires. */
    method Save(upload: Outcome, publicUrl: string, update: Outcome)
      returns (ran: bool, path: Option<string>, sent: Option<ProfileUpdate>, saved: bool)
      modifies this`saving, this`error, this`ok, this`avatarUrl, this`preview, this`file
      ensures ran == CanEdit(me, userId)
      ensures !ran ==> saving == old(saving) && error == old(error) && ok == old(ok)
      ensures ran ==> !saving
      ensures !saved ==> avatarUrl == old(avatarUrl) && preview == old(preview) && file == old(file)
      ensures !ran || UsernameError(NormalizeUsername(username)).Some? ==> path.None? && sent.None? && !saved
      ensures ran && UsernameError(NormalizeUsername(username)).Some? ==> error == Some(UsernameMessage) && ok.None?
      ensures ran && UsernameError(NormalizeUsername(username)).None? ==>
        path == (if old(file).Some? then Some(AvatarPath(userId, old(file).value.name)) else None)
      ensures ran && UsernameError(NormalizeUsername(username)).None? && old(file).Some? && upload.Failure? ==>
        error == Some(upload.message.GetOr(SaveFailedMessage)) && ok.None? && sent.None? && !saved
      ensures ran && UsernameError(NormalizeUsername(username)).None? && !(old(file).Some? && upload.Failure?) ==>
        sent == Some(ProfileUpdate(TrimOrNull(fullName), NormalizeUsername(username), TrimOrNull(bio),
                                   if old(file).Some? then Some(publicUrl) else old(avatarUrl)))
        && saved == update.Success?
      ensures ran && UsernameError(NormalizeUsername(username)).None? && !(old(file).Some? && upload.Failure?)
              && update.Failure? ==>
        error == Some(update.message.GetOr(SaveFailedMessage)) && ok.None?
      ensures ran && UsernameError(NormalizeUsername(username)).None? && !(old(file).Some? && upload.Failure?)
              && update.Success? ==>
        error.None? && ok == Some(SavedMessage) && !preview && file.None?
        && avatarUrl == OrElse(if old(file).Some? then Some(publicUrl) else old(avatarUrl), old(avatarUrl))
    {
      path, sent, saved := None, None, false;
      ran := CanEdit(me, userId);
      if !ran {
        return;
      }
      saving := true;
      error := None;
      ok := None;
      var clean := NormalizeUsername(username);
      var bad := UsernameError(clean);
      if bad.Some? {
        error := bad;
        saving := false;
        return;
      }
      path, sent, saved := Upload(TrimOrNull(fullName), clean, TrimOrNull(bio), upload, publicUrl, update);
    }

    /** The part of save after the name passed, with the error and the
        notice already cleared and the text fields already trimmed: the
        upload, then the update. */
    method Upload(name: Option<string>, clean: Option<string>, about: Option<string>,
                  upload: Outcome, publicUrl: string, update: Outcome)
      returns (path: Option<string>, sent: Option<ProfileUpdate>, saved: bool)
      modifies this`saving, this`error, this`ok, this`avatarUrl, this`preview, this`file
      ensures !saving
      ensures !saved ==> avatarUrl == old(avatarUrl) && preview == old(preview) && file == old(file) && ok == old(ok)
      ensures path == (if old(file).Some? then Some(AvatarPath(userId, old(file).value.name)) else None)
      ensures old(file).Some? && upload.Failure? ==>
        error == Some(upload.message.GetOr(SaveFailedMessage)) && sent.None? && !saved
      ensures !(old(file).Some? && upload.Failure?) ==>
        var newAvatar := if old(file).Some? then Some(publicUrl) else old(avatarUrl);
        sent == Some(ProfileUpdate(name, clean, about, newAvatar))
        && saved == update.Success?
        && (update.Failure? ==> error == Some(update.message.GetOr(SaveFailedMessage)))
        && (update.Success? ==>
              error == old(error) && ok == Some(SavedMessage) && avatarUrl == OrElse(newAvatar, old(avatarUrl))
              && !preview && file.None?)
    {
      path, sent, saved := None, None, false;
      var newAvatar := avatarUrl;
      if file.Some? {
        path := Some(AvatarPath(userId, file.value.name));
        if upload.Failure? {
          error := Some(upload.message.GetOr(SaveFailedMessage));
          saving := false;
          return;
        }
        newAvatar := Some(publicUrl);
      }
      sent := Some(ProfileUpdate(name, clean, about, newAvatar));
      if update.Failure? {
        error := Some(update.message.GetOr(SaveFailedMessage));
        saving := false;
        return;
      }
      avatarUrl := OrElse(newAvatar, avatarUrl);
      ok := Some(SavedMessage);
      preview := false;
      file := None;
      saved := true;
      saving := false;
    }
  }
}
