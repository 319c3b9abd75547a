/** The comments under one post (src/components/CommentList.tsx): the fetched
    list (null until the first fetch), live inserts and deletes, a cache of
    the authors' profiles kept fresh by live profile changes, and deletion of
    one's own comments. */
module CommentList {
  import opened Common
  import opened Entities

  /** `prev ? [...prev, c] : [c]`: appended, with no check for a listed id. */
  function AppendComment(comments: Option<seq<Comment>>, c: Comment): (r: Option<seq<Comment>>)
    ensures r.Some? && |r.value| == |comments.GetOr([])| + 1
    ensures r.value[..|r.value| - 1] == comments.GetOr([]) && r.value[|r.value| - 1] == c
  {
    var r := comments.GetOr([]) + [c];
    assert r[..|r| - 1] == comments.GetOr([]);
    Some(r)
  }

  /** `prev ? prev.filter(x => x.id !== id) : prev`. */
  function DropComment(comments: Option<seq<Comment>>, id: nat): (r: Option<seq<Comment>>)
    ensures r.None? <==> comments.None?
    ensures r.Some? ==> r.value == Without(comments.value, CommentId, id) && !HasKey(r.value, CommentId, id)
  {
    if comments.None? then None else Some(Without(comments.value, CommentId, id))
  }

  /** The author ids of the comments, in order. */
  function CommentAuthors(rows: seq<Comment>): (r: seq<string>)
    ensures |r| == |rows| && forall i :: 0 <= i < |rows| ==> r[i] == rows[i].authorId
  {
    seq(|rows|, i requires 0 <= i < |rows| => rows[i].authorId)
  }

  // ---------------------------------------------------------------------------
  // Live profile changes
  // ---------------------------------------------------------------------------

  /** The new or old row of a live profile change; a field the payload lacks,
      or holds as null, is None. */
  datatype ProfileChange = ProfileChange(id: Option<string>, username: Option<string>,
                                         fullName: Option<string>, avatarUrl: Option<string>)

  /** `np?.id || op?.id`: the new row's id when it is non-empty, else the old
      row's. */
  function ChangedId(np: Option<ProfileChange>, op: Option<ProfileChange>): (r: Option<string>)
    ensures np.Some? && Truthy(np.value.id) ==> r == np.value.id
    ensures !(np.Some? && Truthy(np.value.id)) ==> r == (if op.Some? then op.value.id else None)
  {
    if np.Some? && Truthy(np.value.id) then np.value.id
    else if op.Some? then op.value.id
    else None
  }

  /** The cache entry after a change of profile `id`: each field is the new
      row's value when it has one, else the cached value, else null. */
  function MergeProfile(prev: map<string, Profile>, id: string, np: Option<ProfileChange>): (r: Profile)
    ensures r.id == id
    ensures np.Some? && np.value.username.Some? ==> r.username == np.value.username
    ensures np.Some? && np.value.fullName.Some? ==> r.fullName == np.value.fullName
    ensures np.Some? && np.value.avatarUrl.Some? ==> r.avatarUrl == np.value.avatarUrl
    ensures (np.None? || np.value.username.None?) ==> r.username == (if id in prev then prev[id].username else None)
    ensures (np.None? || np.value.fullName.None?) ==> r.fullName == (if id in prev then prev[id].fullName else None)
    ensures (np.None? || np.value.avatarUrl.None?) ==> r.avatarUrl == (if id in prev then prev[id].avatarUrl else None)
  {
    var newUsername := if np.Some? then np.value.username else None;
    var newFullName := if np.Some? then np.value.fullName else None;
    var newAvatar := if np.Some? then np.value.avatarUrl else None;
    var oldUsername := if id in prev then prev[id].username else None;
    var oldFullName := if id in prev then prev[id].fullName else None;
    var oldAvatar := if id in prev then prev[id].avatarUrl else None;
    Profile(id, OrElse(newUsername, oldUsername), OrElse(newFullName, oldFullName), OrElse(newAvatar, oldAvatar))
  }

  /** A change whose payloads carry no non-empty id leaves the cache as it
      is; otherwise exactly the entry for that id is replaced. */
  function ApplyProfileChange(prev: map<string, Profile>, np: Option<ProfileChange>, op: Option<ProfileChange>)
    : (r: map<string, Profile>)
    ensures !Truthy(ChangedId(np, op)) ==> r == prev
    ensures Truthy(ChangedId(np, op)) ==>
      var id := ChangedId(np, op).value;
      r.Keys == prev.Keys + {id} && r[id] == MergeProfile(prev, id, np)
      && forall k :: k in prev && k != id ==> r[k] == prev[k]
  {
    var id := ChangedId(np, op);
    if !Truthy(id) then prev
    else prev[id.value := MergeProfile(prev, id.value, np)]
  }

  /** Applying the same change twice is the same as applying it once. */
  lemma ProfileChangeIdempotent(prev: map<string, Profile>, np: Option<ProfileChange>, op: Option<ProfileChange>)
    ensures ApplyProfileChange(ApplyProfileChange(prev, np, op), np, op) == ApplyProfileChange(prev, np, op)
  {
    var once := ApplyProfileChange(prev, np, op);
    if Truthy(ChangedId(np, op)) {
      var id := ChangedId(np, op).value;
      assert MergeProfile(once, id, np) == MergeProfile(prev, id, np);
    }
  }

  /** The component's state, one field per `useState`. Each event is a
      method whose `modifies` clause names exactly the fields it may change
      and whose `ensures` give their new values; every other field keeps its
      value. */
  class Comments {
    const postId: nat
    var comments: Option<seq<Comment>>
    var loading: bool
    var me: Option<string>
    var busyIds: seq<nat>
    var profiles: map<string, Profile>

    constructor (postId: nat)
      ensures this.postId == postId
      ensures comments.None? && loading && me.None? && busyIds == [] && profiles == map[]
    {
      this.postId := postId;
      comments, loading, me, busyIds, profiles := None, true, None, [], map[];
    }

    method UserLoaded(uid: Option<string>)
      modifies this`me
      ensures me == uid
    {
      me := uid;
    }

    /** fetchComments with the query's outcome (None for an error). An error
        empties the list and the cache; otherwise the rows are listed and the
        distinct author ids are returned for the profile fetch. */
    method Fetched(result: Option<seq<Comment>>) returns (authors: seq<string>)
      modifies this`loading, this`comments, this`profiles
      ensures !loading
      ensures result.None? ==> comments == Some([]) && profiles == map[] && authors == []
      ensures result.Some? ==> comments == result && profiles == old(profiles)
                               && authors == Distinct(CommentAuthors(result.value))
    {
      loading := true;
      authors := [];
      if result.None? {
        comments := Some([]);
        profiles := map[];
        loading := false;
        return;
      }
      comments := result;
      loading := false;
      authors := Distinct(CommentAuthors(result.value));
    }

    /** The authors' profiles arrived (None for an error): they overwrite the
        cached entries with the same id. */
    method ProfilesFetched(profs: Option<seq<Profile>>)
      modifies this`profiles
      ensures profs.None? ==> profiles == old(profiles)
      ensures profs.Some? ==> profiles == old(profiles) + ProfileIndex(profs.value)
    {
      if profs.Some? {
        var fetched := IndexProfiles(profs.value);
        profiles := profiles + fetched;
      }
    }

    /** A live comment insert; returns whether its author's profile is
        fetched. */
    method LiveInserted(c: Comment) returns (fetchAuthor: bool)
      modifies this`comments
      ensures comments == AppendComment(old(comments), c)
      ensures fetchAuthor == (c.authorId !in profiles)
    {
      comments := AppendComment(comments, c);
      fetchAuthor := c.authorId !in profiles;
    }

    /** The single-profile fetch after a live insert. */
    method AuthorFetched(authorId: string, data: Option<Profile>)
      modifies this`profiles
      ensures data.None? ==> profiles == old(profiles)
      ensures data.Some? ==> profiles == old(profiles)[authorId := data.value]
    {
      if data.Some? {
        profiles := profiles[authorId := data.value];
      }
    }

    /** A live comment delete. */
    method LiveDeleted(id: nat)
      modifies this`comments
      ensures comments == DropComment(old(comments), id)
    {
      comments := DropComment(comments, id);
    }

    /** A live profile insert, update or delete. */
    method LiveProfileChanged(np: Option<ProfileChange>, op: Option<ProfileChange>)
      modifies this`profiles
      ensures profiles == ApplyProfileChange(old(profiles), np, op)
    {
      profiles := ApplyProfileChange(profiles, np, op);
    }

    /** handleDelete with the remote delete's error (alerted): the id is marked
        busy; on failure every busy mark of it is removed and the comment
        stays; on success the comment is removed (the busy mark stays). */
    method DeleteClicked(id: nat, deleteError: Option<string>) returns (alertText: Option<string>)
      modifies this`busyIds, this`comments
      ensures alertText == deleteError
      ensures deleteError.None? ==> busyIds == old(busyIds) + [id] && comments == DropComment(old(comments), id)
      ensures deleteError.Some? ==> busyIds == Without(old(busyIds), Self, id) && comments == old(comments)
      ensures deleteError.Some? ==> id !in busyIds
    {
      alertText := deleteError;
      busyIds := busyIds + [id];
      if deleteError.Some? {
        WithoutAppend(old(busyIds), [id], Self, id);
        busyIds := Without(busyIds, Self, id);
        return;
      }
      comments := DropComment(comments, id);
    }
  }
}
