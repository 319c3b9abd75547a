/** The post composer (src/components/PostComposer.tsx): text and an optional
    image, the image checks, an upload path built from a sanitised file name,
    and the post insert with the composer cleared only on success. */
module PostComposer {
  import opened Common

  const NotImageMessage: string := "Please choose an image file."
  const TooLargeMessage: string := "Image must be less than 5MB."
  const SignInMessage: string := "Please sign in first."

  // ---------------------------------------------------------------------------
  // The upload name
  // ---------------------------------------------------------------------------

  /** `s.replace(/\s+/g, '-')`: every maximal run of white space becomes one
      '-'. */
  function DashRuns(s: string): (r: string)
    ensures forall k :: 0 <= k < |r| ==> !IsSpace(r[k])
    ensures |r| <= |s|
    decreases |s|
  {
    if s == [] then ""
    else if IsSpace(s[0]) then "-" + DashRuns(s[LeadingSpaces(s)..])
    else [s[0]] + DashRuns(s[1..])
  }

  /** A name without white space is left as it is. */
  lemma {:induction false} DashRunsNoSpace(s: string)
    requires forall k :: 0 <= k < |s| ==> !IsSpace(s[k])
    ensures DashRuns(s) == s
    decreases |s|
  {
    if s != [] {
      assert !IsSpace(s[0]);
      DashRunsNoSpace(s[1..]);
    }
  }

  /** One run of white space, however long, gives one '-'. */
  lemma {:induction false} DashRunsJoin(a: string, run: string, b: string)
    requires forall k :: 0 <= k < |a| ==> !IsSpace(a[k])
    requires run != [] && AllSpace(run)
    requires b != [] ==> !IsSpace(b[0])
    ensures DashRuns(a + (run + b)) == a + ("-" + DashRuns(b))
    decreases |a|
  {
    var s := a + (run + b);
    if a == [] {
      assert s == run + b;
      LeadingSpacesOfRun(run, b);
      assert s[|run|..] == b;
    } else {
      var t := a[1..] + (run + b);
      assert s[0] == a[0] && !IsSpace(s[0]);
      assert s[1..] == t;
      assert DashRuns(s) == [a[0]] + DashRuns(t);
      DashRunsJoin(a[1..], run, b);
      ConcatAssoc([a[0]], a[1..], "-" + DashRuns(b));
      assert [a[0]] + a[1..] == a;
    }
  }

  /** Helper: a run of white space followed by a non-space counts fully. */
  lemma {:induction false} LeadingSpacesOfRun(run: string, b: string)
    requires AllSpace(run)
    requires b != [] ==> !IsSpace(b[0])
    ensures LeadingSpaces(run + b) == |run|
    decreases |run|
  {
    if run == [] {
      assert run + b == b;
    } else {
      LeadingSpacesOfRun(run[1..], b);
      assert (run + b)[1..] == run[1..] + b;
    }
  }

  /** `file.name.replace(/\s+/g, '-').toLowerCase()`. */
  function SanitizeName(name: string): (r: string)
    ensures |r| <= |name|
    ensures forall k :: 0 <= k < |r| ==> !IsSpace(r[k]) && !('A' <= r[k] <= 'Z')
  {
    ToLower(DashRuns(name))
  }

  /** Sanitising twice is sanitising once. */
  lemma SanitizeIdempotent(name: string)
    ensures SanitizeName(SanitizeName(name)) == SanitizeName(name)
  {
    var r := SanitizeName(name);
    DashRunsNoSpace(r);
    assert ToLower(r) == r;
  }

  /** The upload path `{user}/{now}-{name}`: the user's folder, then nothing
      that is white space. */
  function UploadPath(userId: string, now: nat, fileName: string): (r: string)
    ensures StartsWith(r, userId + "/")
    ensures forall k :: |userId| <= k < |r| ==> !IsSpace(r[k])
  {
    var tail := NatToString(now) + "-" + SanitizeName(fileName);
    var r := userId + "/" + tail;
    assert forall k :: |userId| <= k < |r| ==> r[k] == ("/" + tail)[k - |userId|];
    assert r[..|userId + "/"|] == userId + "/";
    r
  }

  /** The row the composer inserts. */
  datatype PostInsert = PostInsert(authorId: string, content: Option<string>, imageUrl: Option<string>)

  /** The component's state, one field per `useState`. Each event is a
      method whose `modifies` clause names exactly the fields it may change
      and whose `ensures` give their new values; every other field keeps its
      value. */
  class Composer {
    var content: string
    var posting: bool
    var error: Option<string>
    var file: Option<FileInfo>
    var preview: bool

    constructor ()
      ensures content == "" && !posting && error.None? && file.None? && !preview
    {
      content, posting, error, file, preview := "", false, None, None, false;
    }

    method ContentChanged(t: string)
      modifies this`content
      ensures content == t
    {
      content := t;
    }

    /** onPickFile: a file that is not an image or is over 5 MB sets its
        error and leaves the chosen file as it was; an acceptable one clears
        the error and is taken. */
    method PickFile(f: Option<FileInfo>)
      modifies this`error, this`file, this`preview
      ensures f.None? ==> error == old(error)
      ensures !(f.Some? && IsImageType(f.value) && WithinSizeLimit(f.value)) ==>
        file == old(file) && preview == old(preview)
      ensures f.Some? && !IsImageType(f.value) ==> error == Some(NotImageMessage)
      ensures f.Some? && IsImageType(f.value) && !WithinSizeLimit(f.value) ==> error == Some(TooLargeMessage)
      ensures f.Some? && IsImageType(f.value) && WithinSizeLimit(f.value) ==> error.None? && file == f && preview
    {
      if f.None? {
        return;
      }
      if !IsImageType(f.value) {
        error := Some(NotImageMessage);
        return;
      }
      if !WithinSizeLimit(f.value) {
        error := Some(TooLargeMessage);
        return;
      }
      error := None;
      file := f;
      preview := true;
    }

    method ClearImage()
      modifies this`file, this`preview
      ensures file.None? && !preview
    {
      file := None;
      preview := false;
    }

    /** handlePost with the signed-in user (None when the lookup failed or
        nobody is signed in), the clock, the upload's error message, the
        public URL and the insert's error message. Needs non-blank text or a
        file. An error at any step sets its message and keeps the content and
        file; success inserts the trimmed text (null for an image-only post)
        and clears the composer. */
    method HandlePost(user: Option<string>, now: nat, uploadError: Option<string>, publicUrl: string,
                      insertError: Option<string>)
      returns (ran: bool, path: Option<string>, insert: Option<PostInsert>)
      modifies this`posting, this`error, this`content, this`file, this`preview
      ensures ran == (!AllSpace(old(content)) || old(file).Some?)
      ensures !ran ==> posting == old(posting) && error == old(error) && path.None? && insert.None?
      ensures ran ==> !posting
      ensures ran && user.None? ==> error == Some(SignInMessage) && path.None? && insert.None?
      ensures ran && user.Some? ==>
        path == if old(file).Some? then Some(UploadPath(user.value, now, old(file).value.name)) else None
      ensures ran && user.Some? && old(file).Some? && uploadError.Some? ==> error == uploadError && insert.None?
      ensures ran && user.Some? && !(old(file).Some? && uploadError.Some?) ==>
        insert == Some(PostInsert(user.value, TrimOrNull(old(content)),
                                  if old(file).Some? then Some(publicUrl) else None))
      ensures ran && user.Some? && !(old(file).Some? && uploadError.Some?) && insertError.Some? ==>
        error == insertError
      ensures ran && user.Some? && !(old(file).Some? && uploadError.Some?) && insertError.None? ==>
        content == "" && error.None? && file.None? && !preview
      ensures !(ran && user.Some? && !(old(file).Some? && uploadError.Some?) && insertError.None?) ==>
        content == old(content) && file == old(file) && preview == old(preview)
    {
      path, insert := None, None;
      var text := Trim(content);
      ran := text != "" || file.Some?;
      if !ran {
        return;
      }
      posting := true;
      error := None;
      if user.None? {
        posting := false;
        error := Some(SignInMessage);
        return;
      }
      var imageUrl: Option<string> := None;
      if file.Some? {
        path := Some(UploadPath(user.value, now, file.value.name));
        if uploadError.Some? {
          posting := false;
          error := uploadError;
          return;
        }
        imageUrl := Some(publicUrl);
      }
      insert := Some(PostInsert(user.value, if text == "" then None else Some(text), imageUrl));
      if insertError.Some? {
        error := insertError;
        posting := false;
        return;
      }
      content := "";
      ClearImage();
      posting := false;
    }
  }
}
