/** The home feed (src/components/PostFeed.tsx): keyset-paginated posts,
    newest first, pages of PAGE_SIZE; like and comment tallies; the signed-in
    user's liked flags with optimistic toggling; owner deletion behind a
    confirmation; and live inserts and deletes of posts, likes and comments. */
module PostFeed {
  import opened Common
  import opened Entities

  const PageSize: nat := 10
  const SignInMessage: string := "Please sign in to like posts."

  function Max0(x: int): (r: nat)
    ensures r >= x && (x >= 0 ==> r == x)
  {
    if x < 0 then 0 else x
  }

  function PostIds(rows: seq<Post>): (r: seq<nat>)
    ensures |r| == |rows| && forall i :: 0 <= i < |rows| ==> r[i] == rows[i].id
  {
    seq(|rows|, i requires 0 <= i < |rows| => rows[i].id)
  }

  function Authors(rows: seq<Post>): (r: seq<string>)
    ensures |r| == |rows| && forall i :: 0 <= i < |rows| ==> r[i] == rows[i].authorId
  {
    seq(|rows|, i requires 0 <= i < |rows| => rows[i].authorId)
  }

  // ---------------------------------------------------------------------------
  // Pagination
  // ---------------------------------------------------------------------------

  /** `rows.filter(p => !existing.has(p.id))`: the rows of a page whose id is not
      on the list yet. */
  function FreshRows(existing: seq<Post>, rows: seq<Post>): (r: seq<Post>)
    ensures |r| <= |rows|
    ensures forall p :: p in r <==> p in rows && !HasKey(existing, PostId, p.id)
  {
    if rows == [] then []
    else (if HasKey(existing, PostId, rows[0].id) then [] else [rows[0]]) + FreshRows(existing, rows[1..])
  }

  /** The fresh rows keep the page's order: filtering distributes over
      concatenation. */
  lemma {:induction false} FreshRowsAppend(existing: seq<Post>, a: seq<Post>, b: seq<Post>)
    ensures FreshRows(existing, a + b) == FreshRows(existing, a) + FreshRows(existing, b)
    decreases |a|
  {
    if a == [] {
      assert a + b == b;
    } else {
      assert (a + b)[0] == a[0];
      assert (a + b)[1..] == a[1..] + b;
      FreshRowsAppend(existing, a[1..], b);
    }
  }

  /** Appending the fresh rows of a page whose ids are distinct never puts an
      id on the list twice. */
  lemma {:induction false} AppendFreshKeepsUnique(existing: seq<Post>, rows: seq<Post>)
    requires UniqueKeys(existing, PostId) && UniqueKeys(rows, PostId)
    ensures UniqueKeys(existing + FreshRows(existing, rows), PostId)
    decreases |rows|
  {
    if rows != [] {
      var head := if HasKey(existing, PostId, rows[0].id) then [] else [rows[0]];
      var tail := FreshRows(existing, rows[1..]);
      UniqueKeysTail(rows, PostId);
      var ext := existing + head;
      AppendAbsentKeepsUnique(existing, head);
      FreshRowsSameUnlessHead(existing, head, rows);
      AppendFreshKeepsUnique(ext, rows[1..]);
      assert FreshRows(existing, rows) == head + tail;
      ConcatAssoc(existing, head, tail);
    }
  }

  /** Helper: adding a row whose id is not listed keeps ids unique. */
  lemma AppendAbsentKeepsUnique(existing: seq<Post>, head: seq<Post>)
    requires UniqueKeys(existing, PostId)
    requires head == [] || (|head| == 1 && !HasKey(existing, PostId, head[0].id))
    ensures UniqueKeys(existing + head, PostId)
  {
    if head != [] {
      forall i | 0 <= i < |existing| ensures existing[i].id != head[0].id {
        assert PostId(existing[i]) == existing[i].id;
      }
    }
  }

  /** Helper: for the rest of a page with distinct ids, the head row does not
      change which rows are fresh. */
  lemma FreshRowsSameUnlessHead(existing: seq<Post>, head: seq<Post>, rows: seq<Post>)
    requires rows != [] && UniqueKeys(rows, PostId)
    requires head == [] || head == [rows[0]]
    ensures FreshRows(existing + head, rows[1..]) == FreshRows(existing, rows[1..])
  {
    forall p | p in rows[1..] ensures HasKey(existing + head, PostId, p.id) == HasKey(existing, PostId, p.id) {
      var j :| 0 <= j < |rows[1..]| && rows[1..][j] == p;
      assert rows[j + 1] == p;
      assert p.id != rows[0].id;
      if HasKey(existing + head, PostId, p.id) {
        var i :| 0 <= i < |existing + head| && (existing + head)[i].id == p.id;
        assert i < |existing| && existing[i].id == p.id;
      }
      if HasKey(existing, PostId, p.id) {
        var i :| 0 <= i < |existing| && existing[i].id == p.id;
        assert (existing + head)[i] == existing[i];
      }
    }
    FreshRowsAgree(existing + head, existing, rows[1..]);
  }

  /** Two lists that agree on which ids of a page they hold select the same
      fresh rows. */
  lemma {:induction false} FreshRowsAgree(e1: seq<Post>, e2: seq<Post>, rows: seq<Post>)
    requires forall p :: p in rows ==> HasKey(e1, PostId, p.id) == HasKey(e2, PostId, p.id)
    ensures FreshRows(e1, rows) == FreshRows(e2, rows)
    decreases |rows|
  {
    if rows != [] {
      assert rows[0] in rows;
      assert forall p :: p in rows[1..] ==> p in rows;
      FreshRowsAgree(e1, e2, rows[1..]);
    }
  }

  /** The keyset cursor after a batch: the last row's (created-at, id), or the
      old cursor when the batch is empty. */
  function CursorAfter(cur: Option<Cursor>, batch: seq<Post>): (r: Option<Cursor>)
    ensures batch == [] ==> r == cur
    ensures batch != [] ==> r == Some(PostCursor(batch[|batch| - 1]))
  {
    if batch == [] then cur else Some(PostCursor(batch[|batch| - 1]))
  }

  // ---------------------------------------------------------------------------
  // Live post inserts
  // ---------------------------------------------------------------------------

  /** `prev.some(x => x.id === p.id) ? prev : [p, ...prev]`. */
  function LivePrepend(posts: seq<Post>, p: Post): (r: seq<Post>)
    ensures HasKey(r, PostId, p.id)
    ensures HasKey(posts, PostId, p.id) ==> r == posts
    ensures !HasKey(posts, PostId, p.id) ==> r == [p] + posts
  {
    if HasKey(posts, PostId, p.id) then posts
    else
      assert ([p] + posts)[0] == p;
      [p] + posts
  }

  /** A live insert never puts an id on the list twice. */
  lemma LivePrependKeepsUnique(posts: seq<Post>, p: Post)
    requires UniqueKeys(posts, PostId)
    ensures UniqueKeys(LivePrepend(posts, p), PostId)
  {
    if !HasKey(posts, PostId, p.id) {
      var r := [p] + posts;
      forall i, j | 0 <= i < j < |r| ensures r[i].id != r[j].id {
        if i == 0 {
          assert r[j] == posts[j - 1];
        } else {
          assert r[i] == posts[i - 1] && r[j] == posts[j - 1];
        }
      }
    }
  }

  // ---------------------------------------------------------------------------
  // Counters
  // ---------------------------------------------------------------------------

  /** `{...m, [k]: (m[k] ?? 0) + 1}`. */
  function Bumped(m: map<nat, nat>, k: nat): (r: map<nat, nat>)
    ensures r.Keys == m.Keys + {k} && r[k] == CountOf(m, k) + 1
    ensures forall j :: j in m && j != k ==> r[j] == m[j]
  {
    m[k := CountOf(m, k) + 1]
  }

  /** `{...m, [k]: Math.max(0, (m[k] ?? 0) - 1)}`. */
  function Dropped(m: map<nat, nat>, k: nat): (r: map<nat, nat>)
    ensures r.Keys == m.Keys + {k} && r[k] == Max0(CountOf(m, k) - 1)
    ensures forall j :: j in m && j != k ==> r[j] == m[j]
  {
    m[k := Max0(CountOf(m, k) - 1)]
  }

  /** The counts after fetchCounts' merge `{...m, ...tally}`: a post with
      returned rows gets the number of its rows; every other key keeps its
      count. */
  function MergeTally(m: map<nat, nat>, rows: seq<nat>): (r: map<nat, nat>)
    ensures r.Keys == m.Keys + set id | id in rows
    ensures forall id :: id in rows ==> r[id] == multiset(rows)[id]
    ensures forall id :: id in m && id !in rows ==> r[id] == m[id]
  {
    map id | id in m.Keys + (set j | j in rows) :: if id in rows then multiset(rows)[id] else m[id]
  }

  /** Merging a tally that counts `rows` gives MergeTally. */
  lemma MergeOfTally(m: map<nat, nat>, t: map<nat, nat>, rows: seq<nat>)
    requires t.Keys == set i | i in rows
    requires forall id :: id in t ==> t[id] == multiset(rows)[id]
    ensures m + t == MergeTally(m, rows)
  {
    var r := MergeTally(m, rows);
    assert (m + t).Keys == r.Keys;
    forall id | id in r ensures (m + t)[id] == r[id] {
      if id in rows {
        assert id in t;
      }
    }
  }

  function LikedOf(m: map<nat, bool>, k: nat): bool {
    k in m && m[k]
  }

  /** fetchLikedState's guard: `!currentUserId || ids.length === 0` returns
      before any query. */
  predicate LikedStateRuns(user: Option<string>, ids: seq<nat>) {
    Truthy(user) && |ids| > 0
  }

  /** fetchLikedState's effect on the liked flags, for the user its closure
      sees and the query's outcome (None for an error): when it runs and the
      query succeeds every returned post is marked liked; no flag is ever
      cleared and no other flag changes. */
  function MarkLiked(m: map<nat, bool>, user: Option<string>, ids: seq<nat>, rows: Option<seq<nat>>)
    : (r: map<nat, bool>)
    ensures LikedStateRuns(user, ids) && rows.Some? ==>
      r.Keys == m.Keys + (set id | id in rows.value) && forall id :: id in rows.value ==> r[id]
    ensures !(LikedStateRuns(user, ids) && rows.Some?) ==> r == m
    ensures forall id :: id in m && (rows.None? || id !in rows.value) ==> id in r && r[id] == m[id]
    ensures forall id :: LikedOf(m, id) ==> LikedOf(r, id)
  {
    if LikedStateRuns(user, ids) && rows.Some? then m + map id | id in rows.value :: true else m
  }

  /** The currentUserId the mount effect's fetchFirst sees: its closure is the
      first render's, where `useState(null)` still holds. */
  const MountUserId: Option<string> := None

  /** As written, the first page's liked flags are fetched through the mount
      closure and so never load: for a signed-in user with a non-empty first
      page whose likes query returns a post, the flag the current user would
      get stays unset. */
  lemma AsWrittenFirstPageSkipsLiked(m: map<nat, bool>, u: string, ids: seq<nat>, rows: seq<nat>)
    requires u != "" && |ids| > 0 && |rows| > 0 && !LikedOf(m, rows[0])
    ensures LikedOf(MarkLiked(m, Some(u), ids, Some(rows)), rows[0])
    ensures MarkLiked(m, MountUserId, ids, Some(rows)) == m && !LikedOf(MarkLiked(m, MountUserId, ids, Some(rows)), rows[0])
  {
    assert rows[0] in rows;
  }

  // ---------------------------------------------------------------------------
  // Like toggling
  // ---------------------------------------------------------------------------

  /** What toggleLike reads and writes for one post: `!!likedByMe[id]` and
      `likeCount[id] ?? 0`. */
  datatype LikeState = LikeState(liked: bool, count: nat)

  /** The optimistic step: flip the flag, move the count by one, never below 0. */
  function Optimistic(s: LikeState): (r: LikeState)
    ensures r.liked == !s.liked
    ensures !s.liked ==> r.count == s.count + 1
    ensures s.liked ==> r.count == Max0(s.count - 1)
  {
    LikeState(!s.liked, if s.liked then Max0(s.count - 1) else s.count + 1)
  }

  /** toggleLike as written: on a failed remote call the count is moved back
      by one in the opposite direction (+1 after an unlike, clamped -1 after a
      like), which does not undo a clamped decrement. */
  function ToggleLikeAsWritten(s: LikeState, remoteOk: bool): (r: LikeState)
    ensures remoteOk ==> r == Optimistic(s)
    ensures !remoteOk ==> r.liked == s.liked
  {
    var o := Optimistic(s);
    if remoteOk then o
    else if s.liked then LikeState(true, o.count + 1)
    else LikeState(false, Max0(o.count - 1))
  }

  /** The rollback as written restores the state in every case but one: a
      failed unlike of a post whose count was already 0. */
  lemma AsWrittenRollback(s: LikeState, remoteOk: bool)
    ensures (remoteOk || ToggleLikeAsWritten(s, false) == s) <==> (remoteOk || !s.liked || s.count > 0)
  {
  }

  /** Counterexample: a liked post showing 0 likes whose unlike fails ends up
      showing 1 like. */
  lemma AsWrittenRollbackInflates()
    ensures ToggleLikeAsWritten(LikeState(true, 0), false) == LikeState(true, 1)
  {
  }

  /** toggleLike as intended: success gives the optimistic state, a failed
      remote call gives back exactly the state before the click. */
  function ToggleLike(s: LikeState, remoteOk: bool): (r: LikeState)
    ensures remoteOk ==> r.liked == !s.liked && r.count == (if s.liked then Max0(s.count - 1) else s.count + 1)
    ensures !remoteOk ==> r == s
    ensures r.liked == s.liked ==> r.count == s.count
  {
    if remoteOk then Optimistic(s) else s
  }

  /** Two successful toggles give back the starting state, except when a liked
      post showed 0 likes (the clamp at 0 loses the decrement). */
  lemma ToggleTwice(s: LikeState)
    ensures ToggleLike(ToggleLike(s, true), true) == s <==> !(s.liked && s.count == 0)
  {
  }

  /** The feed, one field per `useState` of the component. Each event is a
      method whose `modifies` clause names exactly the fields it may change
      and whose `ensures` give their new values; every other field keeps its
      value. */
  class Feed {
    var posts: seq<Post>
    var loadingFirst: bool
    var loadingMore: bool
    var hasMore: bool
    var cursor: Option<Cursor>
    var currentUserId: Option<string>
    var busyIds: seq<nat>
    var confirmId: Option<nat>
    var likeCount: map<nat, nat>
    var commentCount: map<nat, nat>
    var likedByMe: map<nat, bool>
    var openCommentId: Option<nat>
    var commentRefresh: map<nat, nat>
    var profiles: map<string, Profile>

    /** No post is listed twice. */
    ghost predicate Valid()
      reads this
    {
      UniqueKeys(posts, PostId)
    }

    constructor ()
      ensures posts == [] && loadingFirst && !loadingMore && hasMore && cursor.None?
      ensures currentUserId.None? && busyIds == [] && confirmId.None?
      ensures likeCount == map[] && commentCount == map[] && likedByMe == map[]
      ensures openCommentId.None? && commentRefresh == map[] && profiles == map[]
      ensures Valid()
    {
      posts, loadingFirst, loadingMore, hasMore, cursor := [], true, false, true, None;
      currentUserId, busyIds, confirmId := None, [], None;
      likeCount, commentCount, likedByMe := map[], map[], map[];
      openCommentId, commentRefresh, profiles := None, map[], map[];
    }

    /** The signed-in user's id arrived (None when signed out). */
    method UserLoaded(uid: Option<string>)
      modifies this`currentUserId
      ensures currentUserId == uid
    {
      currentUserId := uid;
    }

    /** fetchFirst with the query's outcome (None for an error). Returns the
        post ids whose counts and liked flags are fetched next and the
        distinct author ids whose profiles are fetched next. */
    method FirstPageLoaded(page: Option<seq<Post>>) returns (ids: seq<nat>, authors: seq<string>)
      modifies this`loadingFirst, this`posts, this`hasMore, this`cursor
      ensures !loadingFirst
      ensures page.None? ==> posts == [] && !hasMore && cursor == old(cursor) && ids == [] && authors == []
      ensures page.Some? ==>
        posts == page.value && hasMore == (|page.value| == PageSize) && cursor == CursorAfter(old(cursor), page.value)
        && ids == PostIds(page.value) && authors == Distinct(Authors(page.value))
      ensures page.Some? && UniqueKeys(page.value, PostId) ==> Valid()
    {
      loadingFirst := true;
      ids, authors := [], [];
      if page.None? {
        posts := [];
        hasMore := false;
        loadingFirst := false;
        return;
      }
      var rows := page.value;
      posts := rows;
      hasMore := |rows| == PageSize;
      if |rows| > 0 {
        cursor := Some(PostCursor(rows[|rows| - 1]));
        ids := PostIds(rows);
        authors := Distinct(Authors(rows));
      }
      loadingFirst := false;
    }

    /** fetchMore with the query's outcome. Nothing happens without more pages,
        without a cursor or while a load runs; otherwise the fresh rows are
        appended in page order, the cursor moves to the last fresh row, and
        hasMore says whether the raw page was full. A list without repeated
        ids and a page without repeated ids give a list without repeated ids
        (AppendFreshKeepsUnique). */
    method FetchMore(page: Option<seq<Post>>) returns (ran: bool, ids: seq<nat>, authors: seq<string>)
      modifies this`loadingMore, this`posts, this`cursor, this`hasMore
      ensures ran == (old(hasMore) && old(cursor).Some? && !old(loadingMore))
      ensures !ran ==> loadingMore == old(loadingMore)
      ensures !(ran && page.Some?) ==>
        posts == old(posts) && cursor == old(cursor) && hasMore == old(hasMore) && ids == [] && authors == []
      ensures ran ==> !loadingMore
      ensures ran && page.Some? ==>
        var newRows := FreshRows(old(posts), page.value);
        posts == old(posts) + newRows && cursor == CursorAfter(old(cursor), newRows)
        && hasMore == (|page.value| == PageSize)
        && ids == PostIds(newRows) && authors == Distinct(Authors(newRows))
      ensures old(Valid()) && (page.Some? ==> UniqueKeys(page.value, PostId)) ==> Valid()
    {
      ids, authors := [], [];
      ran := hasMore && cursor.Some? && !loadingMore;
      if !ran {
        return;
      }
      loadingMore := true;
      if page.Some? {
        var newRows := FreshRows(posts, page.value);
        if Valid() && UniqueKeys(page.value, PostId) {
          AppendFreshKeepsUnique(posts, page.value);
        }
        posts, cursor := posts + newRows, CursorAfter(cursor, newRows);
        hasMore := |page.value| == PageSize;
        ids, authors := PostIds(newRows), Distinct(Authors(newRows));
      }
      loadingMore := false;
    }

    /** fetchProfiles with the query's outcome: on success the returned
        profiles overwrite the cached ones with the same id. */
    method ProfilesLoaded(rows: Option<seq<Profile>>)
      modifies this`profiles
      ensures rows.None? ==> profiles == old(profiles)
      ensures rows.Some? ==> profiles == old(profiles) + ProfileIndex(rows.value)
    {
      if rows.Some? {
        var fetched := IndexProfiles(rows.value);
        profiles := profiles + fetched;
      }
    }

    /** fetchCounts with the post ids of the returned like rows and comment
        rows (empty when a query failed). */
    method CountsLoaded(likeRows: seq<nat>, commentRows: seq<nat>)
      modifies this`likeCount, this`commentCount
      ensures likeCount == MergeTally(old(likeCount), likeRows)
      ensures commentCount == MergeTally(old(commentCount), commentRows)
    {
      var likeMap := Tally(likeRows);
      var cmtMap := Tally(commentRows);
      MergeOfTally(likeCount, likeMap, likeRows);
      MergeOfTally(commentCount, cmtMap, commentRows);
      likeCount := likeCount + likeMap;
      commentCount := commentCount + cmtMap;
    }

    /** fetchLikedState for `ids` with the query's outcome, as seen by the
        current user: only runs for a signed-in user and a non-empty id list;
        marks every returned post as liked and never clears a flag. For the
        first page this is the intended behaviour; the code's call sees
        MountUserId instead (AsWrittenFirstPageSkipsLiked). */
    method LikedStateLoaded(ids: seq<nat>, rows: Option<seq<nat>>) returns (ran: bool)
      modifies this`likedByMe
      ensures ran == LikedStateRuns(currentUserId, ids)
      ensures likedByMe == MarkLiked(old(likedByMe), currentUserId, ids, rows)
    {
      ran := Truthy(currentUserId) && |ids| > 0;
      if ran && rows.Some? {
        var liked := map[];
        for i := 0 to |rows.value|
          invariant liked == map id | id in rows.value[..i] :: true
        {
          assert rows.value[..i + 1] == rows.value[..i] + [rows.value[i]];
          liked := liked[rows.value[i] := true];
        }
        assert rows.value[..|rows.value|] == rows.value;
        likedByMe := likedByMe + liked;
      }
    }

    /** toggleLike with the outcome of the remote insert or delete. Signed out:
        an alert and no change. Otherwise the flag and count become those of
        ToggleLike: flipped and moved by one on success, as they were on
        failure. This is the intended rollback; the code's differs for a
        liked post showing 0 likes (ToggleLikeAsWritten). */
    method ToggleLikeClicked(postId: nat, remoteOk: bool) returns (attempted: bool, alertText: Option<string>)
      modifies this`likedByMe, this`likeCount
      ensures attempted == Truthy(currentUserId)
      ensures !attempted ==> likedByMe == old(likedByMe) && likeCount == old(likeCount) && alertText == Some(SignInMessage)
      ensures attempted ==> alertText.None?
      ensures attempted ==>
        var s := ToggleLike(LikeState(LikedOf(old(likedByMe), postId), CountOf(old(likeCount), postId)), remoteOk);
        likedByMe == old(likedByMe)[postId := s.liked] && likeCount == old(likeCount)[postId := s.count]
    {
      attempted := Truthy(currentUserId);
      alertText := None;
      if !attempted {
        alertText := Some(SignInMessage);
        return;
      }
      var before := LikeState(LikedOf(likedByMe, postId), CountOf(likeCount, postId));
      var after := ToggleLike(before, remoteOk);
      likedByMe, likeCount := likedByMe[postId := after.liked], likeCount[postId := after.count];
    }

    /** handleDeleteConfirmed with the remote delete's error (alerted): the id is
        marked busy; on failure every busy mark of the id is removed and the
        post stays; on success the confirmation closes and every post with the
        id is removed (the busy mark stays). */
    method DeleteConfirmed(id: nat, deleteError: Option<string>) returns (alertText: Option<string>)
      modifies this`busyIds, this`confirmId, this`posts
      ensures alertText == deleteError
      ensures deleteError.None? ==> busyIds == old(busyIds) + [id] && confirmId.None? && posts == Without(old(posts), PostId, id)
      ensures deleteError.Some? ==> busyIds == Without(old(busyIds), Self, id) && confirmId == old(confirmId) && posts == old(posts)
      ensures old(Valid()) ==> Valid()
    {
      alertText := deleteError;
      busyIds := busyIds + [id];
      if deleteError.Some? {
        WithoutAppend(old(busyIds), [id], Self, id);
        busyIds := Without(busyIds, Self, id);
        return;
      }
      confirmId := None;
      if UniqueKeys(posts, PostId) {
        WithoutKeepsUnique(posts, PostId, id);
      }
      posts := Without(posts, PostId, id);
    }

    /** The owner's Delete button opens or closes the confirmation. */
    method ConfirmToggled(postId: nat)
      modifies this`confirmId
      ensures confirmId == if old(confirmId) == Some(postId) then None else Some(postId)
    {
      confirmId := if confirmId == Some(postId) then None else Some(postId);
    }

    /** The confirmation's Cancel button. */
    method ConfirmCancelled()
      modifies this`confirmId
      ensures confirmId.None?
    {
      confirmId := None;
    }

    /** The Comment button opens the post's comments or closes them. */
    method CommentsToggled(postId: nat)
      modifies this`openCommentId
      ensures openCommentId == if old(openCommentId) == Some(postId) then None else Some(postId)
    {
      openCommentId := if openCommentId == Some(postId) then None else Some(postId);
    }

    /** The comment box's onCommentAdded callback. */
    method CommentAdded(postId: nat)
      modifies this`commentCount, this`commentRefresh
      ensures commentCount == Bumped(old(commentCount), postId)
      ensures commentRefresh == Bumped(old(commentRefresh), postId)
    {
      commentCount := Bumped(commentCount, postId);
      commentRefresh := Bumped(commentRefresh, postId);
    }

    /** A live post insert: prepended unless its id is listed, its counts
        reset to 0. Returns whether its author's profile is fetched. */
    method LivePostInserted(p: Post) returns (fetchAuthor: bool)
      modifies this`posts, this`likeCount, this`commentCount
      ensures posts == LivePrepend(old(posts), p)
      ensures likeCount == old(likeCount)[p.id := 0] && commentCount == old(commentCount)[p.id := 0]
      ensures fetchAuthor == (p.authorId !in profiles)
      ensures old(Valid()) ==> Valid()
    {
      if UniqueKeys(posts, PostId) {
        LivePrependKeepsUnique(posts, p);
      }
      posts := LivePrepend(posts, p);
      likeCount := likeCount[p.id := 0];
      commentCount := commentCount[p.id := 0];
      fetchAuthor := p.authorId !in profiles;
    }

    /** A live post delete removes every post with that id. */
    method LivePostDeleted(id: nat)
      modifies this`posts
      ensures posts == Without(old(posts), PostId, id)
      ensures old(Valid()) ==> Valid()
    {
      if UniqueKeys(posts, PostId) {
        WithoutKeepsUnique(posts, PostId, id);
      }
      posts := Without(posts, PostId, id);
    }

    /** A live like insert: one more like; the flag is set when the liker is
        the signed-in user. */
    method LiveLikeInserted(postId: nat, userId: string)
      modifies this`likeCount, this`likedByMe
      ensures likeCount == Bumped(old(likeCount), postId)
      ensures likedByMe == if currentUserId == Some(userId) then old(likedByMe)[postId := true] else old(likedByMe)
    {
      likeCount := Bumped(likeCount, postId);
      if currentUserId == Some(userId) {
        likedByMe := likedByMe[postId := true];
      }
    }

    /** A live like delete: one like fewer, never below 0; the flag is cleared
        when the liker is the signed-in user. */
    method LiveLikeDeleted(postId: nat, userId: string)
      modifies this`likeCount, this`likedByMe
      ensures likeCount == Dropped(old(likeCount), postId)
      ensures likedByMe == if currentUserId == Some(userId) then old(likedByMe)[postId := false] else old(likedByMe)
    {
      likeCount := Dropped(likeCount, postId);
      if currentUserId == Some(userId) {
        likedByMe := likedByMe[postId := false];
      }
    }

    /** A live comment insert: one more comment; the open comment list is told
        to reload. */
    method LiveCommentInserted(postId: nat)
      modifies this`commentCount, this`commentRefresh
      ensures commentCount == Bumped(old(commentCount), postId)
      ensures commentRefresh == if openCommentId == Some(postId) then Bumped(old(commentRefresh), postId)
                                else old(commentRefresh)
    {
      commentCount := Bumped(commentCount, postId);
      if openCommentId == Some(postId) {
        commentRefresh := Bumped(commentRefresh, postId);
      }
    }

    /** A live comment delete: one comment fewer, never below 0; the open
        comment list is told to reload. */
    method LiveCommentDeleted(postId: nat)
      modifies this`commentCount, this`commentRefresh
      ensures commentCount == Dropped(old(commentCount), postId)
      ensures commentRefresh == if openCommentId == Some(postId) then Bumped(old(commentRefresh), postId)
                                else old(commentRefresh)
    {
      commentCount := Dropped(commentCount, postId);
      if openCommentId == Some(postId) {
        commentRefresh := Bumped(commentRefresh, postId);
      }
    }
  }
}
