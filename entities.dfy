/** The rows the screens read from the remote store, and the small
    computations several screens share: the profile cache built from a
    result set, the per-post tally of like and comment rows, and the choice of
    the other participant of a two-person conversation. Timestamps are
    ordered integers; post, comment, message and conversation ids are
    non-negative integers; user ids are strings. */
module Entities {
  import opened Common

  datatype Profile = Profile(id: string, username: Option<string>, fullName: Option<string>, avatarUrl: Option<string>)

  datatype Post = Post(id: nat, authorId: string, content: Option<string>, imageUrl: Option<string>, createdAt: int)

  datatype Comment = Comment(id: nat, postId: nat, authorId: string, body: string, createdAt: int)

  datatype Message = Message(id: nat, conversationId: nat, senderId: string, body: Option<string>,
                             imageUrl: Option<string>, createdAt: int)

  /** A keyset-pagination position: the (created-at, id) pair of a row. */
  datatype Cursor = Cursor(ts: int, id: nat)

  /** A two-person conversation. */
  datatype Convo = Convo(id: nat, userA: string, userB: string)

  /** A row of the `conversations_overview` remote procedure. */
  datatype OverviewRow = OverviewRow(id: nat, otherId: string, lastMessageAt: int, unread: Option<nat>)

  function PostId(p: Post): nat { p.id }
  function CommentId(c: Comment): nat { c.id }
  function MessageId(m: Message): nat { m.id }
  function OverviewId(r: OverviewRow): nat { r.id }
  function Self(n: nat): nat { n }

  function PostCursor(p: Post): Cursor { Cursor(p.createdAt, p.id) }
  function MessageCursor(m: Message): Cursor { Cursor(m.createdAt, m.id) }

  /** The keyset filter `created_at < ts or (created_at = ts and id < id)`. */
  predicate CursorLess(a: Cursor, b: Cursor) {
    a.ts < b.ts || (a.ts == b.ts && a.id < b.id)
  }

  /** `a === me ? b : a`: the participant of a conversation who is not `me`. */
  function OtherParticipant(me: string, userA: string, userB: string): (r: string)
    ensures r == userA || r == userB
    ensures userA != userB && (me == userA || me == userB) ==> r != me
    ensures me != userA ==> r == userA
  {
    if userA == me then userB else userA
  }

  // ---------------------------------------------------------------------------
  // `for (const p of rows) map[p.id] = p`: a profile cache from a result set
  // ---------------------------------------------------------------------------

  /** The map the loop builds: every row's id is a key, and a later row with
      the same id overwrites an earlier one. */
  function ProfileIndex(rows: seq<Profile>): (m: map<string, Profile>)
    ensures forall p :: p in rows ==> p.id in m
    ensures forall id :: id in m ==> m[id] in rows && m[id].id == id
    decreases |rows|
  {
    if rows == [] then map[]
    else
      var init := rows[..|rows| - 1];
      var last := rows[|rows| - 1];
      assert forall p :: p in rows ==> p in init || p == last by {
        assert rows == init + [last];
      }
      ProfileIndex(init)[last.id := last]
  }

  /** The entry for an id is the last row with that id. */
  lemma {:induction false} ProfileIndexLastWins(rows: seq<Profile>, k: nat)
    requires k < |rows|
    requires forall j :: k < j < |rows| ==> rows[j].id != rows[k].id
    ensures ProfileIndex(rows)[rows[k].id] == rows[k]
    decreases |rows|
  {
    if k < |rows| - 1 {
      var init := rows[..|rows| - 1];
      assert init[k] == rows[k];
      ProfileIndexLastWins(init, k);
    }
  }

  /** Fills the cache row by row, as the components' for-loops do. */
  method IndexProfiles(rows: seq<Profile>) returns (m: map<string, Profile>)
    ensures m == ProfileIndex(rows)
    ensures m.Keys == set p | p in rows :: p.id
  {
    m := map[];
    for i := 0 to |rows|
      invariant m == ProfileIndex(rows[..i])
    {
      assert rows[..i + 1][..i] == rows[..i];
      m := m[rows[i].id := rows[i]];
    }
    assert rows[..|rows|] == rows;
  }

  // ---------------------------------------------------------------------------
  // `map[row.post_id] = (map[row.post_id] ?? 0) + 1`: a tally per post
  // ---------------------------------------------------------------------------

  /** Counts the rows per post id: the keys are exactly the ids that occur,
      and each count is the number of rows with that id. */
  method Tally(postIds: seq<nat>) returns (m: map<nat, nat>)
    ensures m.Keys == set i | i in postIds
    ensures forall id :: id in m ==> m[id] == multiset(postIds)[id]
  {
    m := map[];
    for i := 0 to |postIds|
      invariant m.Keys == set j | j in postIds[..i]
      invariant forall id :: id in m ==> m[id] == multiset(postIds[..i])[id]
    {
      var id := postIds[i];
      assert postIds[..i + 1] == postIds[..i] + [id];
      m := m[id := (if id in m then m[id] else 0) + 1];
    }
    assert postIds[..|postIds|] == postIds;
  }

  /** A one-row lookup with a default: `m[k] ?? 0`. */
  function CountOf(m: map<nat, nat>, k: nat): nat {
    if k in m then m[k] else 0
  }
}
