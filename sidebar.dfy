/** The conversations sidebar (src/components/ConversationsSidebar.tsx): the
    overview rows of the signed-in user's conversations, a cache of the other
    participants' profiles, bump-to-top with unread counting on live
    messages, and the rows shown newest first. */
module Sidebar {
  import opened Common
  import opened Entities

  // ---------------------------------------------------------------------------
  // Bump to top
  // ---------------------------------------------------------------------------

  /** `me && m.sender_id !== me ? 1 : 0`. */
  function UnreadInc(me: Option<string>, senderId: string): (r: nat)
    ensures r == 1 <==> Truthy(me) && senderId != me.value
    ensures r == 0 || r == 1
  {
    if Truthy(me) && senderId != me.value then 1 else 0
  }

  /** `rows.find(x => x.id === id)`: the first row with the id. */
  function Find(rows: seq<OverviewRow>, id: nat): (r: Option<OverviewRow>)
    ensures r.Some? <==> HasKey(rows, OverviewId, id)
    ensures r.Some? ==> r.value in rows && r.value.id == id
    ensures r.Some? ==> exists i :: 0 <= i < |rows| && r.value == rows[i] && forall j :: 0 <= j < i ==> rows[j].id != id
  {
    if rows == [] then None
    else if rows[0].id == id then Some(rows[0])
    else
      var rest := Find(rows[1..], id);
      assert rest.Some? ==> exists i :: 0 <= i < |rows| && rest.value == rows[i] && forall j :: 0 <= j < i ==> rows[j].id != id by {
        if rest.Some? {
          var i :| 0 <= i < |rows[1..]| && rest.value == rows[1..][i] && forall j :: 0 <= j < i ==> rows[1..][j].id != id;
          assert rest.value == rows[i + 1];
          assert forall j :: 0 <= j < i + 1 ==> rows[j].id != id by {
            forall j | 0 <= j < i + 1 ensures rows[j].id != id {
              if j > 0 { assert rows[j] == rows[1..][j - 1]; }
            }
          }
        }
      }
      assert HasKey(rows, OverviewId, id) ==> HasKey(rows[1..], OverviewId, id) by {
        if HasKey(rows, OverviewId, id) {
          var i :| 0 <= i < |rows| && OverviewId(rows[i]) == id;
          assert i > 0 && rows[1..][i - 1] == rows[i];
        }
      }
      assert HasKey(rows[1..], OverviewId, id) ==> HasKey(rows, OverviewId, id) by {
        if HasKey(rows[1..], OverviewId, id) {
          var i :| 0 <= i < |rows[1..]| && OverviewId(rows[1..][i]) == id;
          assert rows[i + 1] == rows[1..][i];
        }
      }
      rest
  }

  /** The row a live message of conversation `convId` from `senderId` at `at`
      puts in front. A known conversation keeps its other fields, takes the
      new time and adds the increment to its unread count (missing counts as
      0); an unknown one gets the sender as the other participant when the
      message counts as unread and the conversation id otherwise, and the
      increment as its unread count. */
  function BumpedRow(rows: seq<OverviewRow>, me: Option<string>, convId: nat, senderId: string, at: int)
    : (e: OverviewRow)
    ensures e.id == convId && e.lastMessageAt == at
    ensures Find(rows, convId).Some? ==>
      var old_ := Find(rows, convId).value;
      e == old_.(lastMessageAt := at, unread := Some(old_.unread.GetOr(0) + UnreadInc(me, senderId)))
    ensures Find(rows, convId).None? ==>
      e == OverviewRow(convId, if UnreadInc(me, senderId) == 1 then senderId else NatToString(convId),
                       at, Some(UnreadInc(me, senderId)))
  {
    var inc := UnreadInc(me, senderId);
    match Find(rows, convId)
    case Some(x) => x.(lastMessageAt := at, unread := Some(x.unread.GetOr(0) + inc))
    case None => OverviewRow(convId, if inc == 1 then senderId else NatToString(convId), at, Some(inc))
  }

  /** The rows after that live message: every row of the conversation is
      removed and the bumped row goes in front, so the conversation's id
      appears exactly once, at index 0, and the other rows keep their order. */
  function Bump(rows: seq<OverviewRow>, me: Option<string>, convId: nat, senderId: string, at: int)
    : (r: seq<OverviewRow>)
    ensures |r| >= 1 && r[0] == BumpedRow(rows, me, convId, senderId, at)
    ensures r[1..] == Without(rows, OverviewId, convId)
    ensures !HasKey(r[1..], OverviewId, convId)
  {
    var rest := Without(rows, OverviewId, convId);
    var r := [BumpedRow(rows, me, convId, senderId, at)] + rest;
    assert r[1..] == rest;
    r
  }

  /** Bumping keeps conversation ids distinct. */
  lemma BumpKeepsUnique(rows: seq<OverviewRow>, me: Option<string>, convId: nat, senderId: string, at: int)
    requires UniqueKeys(rows, OverviewId)
    ensures UniqueKeys(Bump(rows, me, convId, senderId, at), OverviewId)
  {
    var r := Bump(rows, me, convId, senderId, at);
    var rest := r[1..];
    WithoutKeepsUnique(rows, OverviewId, convId);
    forall i, j | 0 <= i < j < |r| ensures OverviewId(r[i]) != OverviewId(r[j]) {
      assert r[j] == rest[j - 1];
      if i > 0 {
        assert r[i] == rest[i - 1];
      } else {
        assert OverviewId(rest[j - 1]) != convId;
      }
    }
  }

  /** A message for a conversation that is not in the list yet starts it with
      the increment as its unread count, and bumping is where the increment
      comes in: the count rises by one exactly when the signed-in user is
      known and is not the sender. */
  lemma {:induction false} BumpUnread(rows: seq<OverviewRow>, me: Option<string>, convId: nat, senderId: string, at: int)
    ensures var r := Bump(rows, me, convId, senderId, at);
      var before := if Find(rows, convId).Some? then Find(rows, convId).value.unread.GetOr(0) else 0;
      r[0].unread == Some(before + 1) <==> Truthy(me) && senderId != me.value
    ensures var r := Bump(rows, me, convId, senderId, at);
      var before := if Find(rows, convId).Some? then Find(rows, convId).value.unread.GetOr(0) else 0;
      r[0].unread == Some(before) <==> !(Truthy(me) && senderId != me.value)
  {
    var inc := UnreadInc(me, senderId);
    assert inc == 1 <==> Truthy(me) && senderId != me.value;
  }

  // ---------------------------------------------------------------------------
  // Newest first
  // ---------------------------------------------------------------------------

  /** Descending by last-message time. */
  predicate ByRecency(rows: seq<OverviewRow>) {
    forall i, j :: 0 <= i < j < |rows| ==> rows[i].lastMessageAt >= rows[j].lastMessageAt
  }

  /** One insertion step of a stable sort: the row goes before the first row
      that is strictly older. */
  function Insert(s: seq<OverviewRow>, x: OverviewRow): (r: seq<OverviewRow>)
    ensures |r| == |s| + 1
  {
    if s == [] || x.lastMessageAt > s[0].lastMessageAt then [x] + s
    else [s[0]] + Insert(s[1..], x)
  }

  /** Insertion adds exactly the one row. */
  lemma {:induction false} InsertPermutes(s: seq<OverviewRow>, x: OverviewRow)
    ensures multiset(Insert(s, x)) == multiset(s) + multiset{x}
    decreases |s|
  {
    if s != [] && x.lastMessageAt <= s[0].lastMessageAt {
      InsertPermutes(s[1..], x);
      assert s == [s[0]] + s[1..];
    }
  }

  /** No row is newer than `t`. */
  predicate NoNewerThan(rows: seq<OverviewRow>, t: int) {
    forall k :: 0 <= k < |rows| ==> rows[k].lastMessageAt <= t
  }

  /** Helper: the tail of rows newest first is newest first and no newer
      than the head. */
  lemma ByRecencyTail(s: seq<OverviewRow>)
    requires s != [] && ByRecency(s)
    ensures ByRecency(s[1..]) && NoNewerThan(s[1..], s[0].lastMessageAt)
  {
    forall i, j | 0 <= i < j < |s| - 1 ensures s[1..][i].lastMessageAt >= s[1..][j].lastMessageAt {
      assert s[1..][i] == s[i + 1] && s[1..][j] == s[j + 1];
    }
    forall k | 0 <= k < |s| - 1 ensures s[1..][k].lastMessageAt <= s[0].lastMessageAt {
      assert s[1..][k] == s[k + 1];
    }
  }

  /** Helper: a head no older than rows newest first keeps them so. */
  lemma ConsByRecency(h: OverviewRow, t: seq<OverviewRow>)
    requires ByRecency(t) && NoNewerThan(t, h.lastMessageAt)
    ensures ByRecency([h] + t)
  {
    var r := [h] + t;
    forall i, j | 0 <= i < j < |r| ensures r[i].lastMessageAt >= r[j].lastMessageAt {
      assert r[j] == t[j - 1];
      if i > 0 { assert r[i] == t[i - 1]; }
    }
  }

  /** Helper: inserting a row no newer than a bound keeps every row within it. */
  lemma {:induction false} InsertNoNewer(s: seq<OverviewRow>, x: OverviewRow, t: int)
    requires NoNewerThan(s, t) && x.lastMessageAt <= t
    ensures NoNewerThan(Insert(s, x), t)
    decreases |s|
  {
    if s != [] && x.lastMessageAt <= s[0].lastMessageAt {
      assert NoNewerThan(s[1..], t) by {
        forall k | 0 <= k < |s| - 1 ensures s[1..][k].lastMessageAt <= t {
          assert s[1..][k] == s[k + 1];
        }
      }
      InsertNoNewer(s[1..], x, t);
      var r := Insert(s, x);
      assert r == [s[0]] + Insert(s[1..], x);
      forall k | 0 <= k < |r| ensures r[k].lastMessageAt <= t {
        if k > 0 { assert r[k] == Insert(s[1..], x)[k - 1]; }
      }
    } else {
      var r := [x] + s;
      forall k | 0 <= k < |r| ensures r[k].lastMessageAt <= t {
        if k > 0 { assert r[k] == s[k - 1]; }
      }
    }
  }

  /** Insertion into rows that are newest first keeps them newest first. */
  lemma {:induction false} InsertSorted(s: seq<OverviewRow>, x: OverviewRow)
    requires ByRecency(s)
    ensures ByRecency(Insert(s, x))
    decreases |s|
  {
    if s == [] || x.lastMessageAt > s[0].lastMessageAt {
      if s != [] {
        ByRecencyTail(s);
        assert NoNewerThan(s, x.lastMessageAt) by {
          forall k | 0 <= k < |s| ensures s[k].lastMessageAt <= x.lastMessageAt {
            if k > 0 { assert s[k] == s[1..][k - 1]; }
          }
        }
      }
      ConsByRecency(x, s);
    } else {
      ByRecencyTail(s);
      InsertSorted(s[1..], x);
      InsertNoNewer(s[1..], x, s[0].lastMessageAt);
      ConsByRecency(s[0], Insert(s[1..], x));
    }
  }

  /** Inserting a row that is no newer than any row places it last. */
  lemma {:induction false} InsertOldest(s: seq<OverviewRow>, x: OverviewRow)
    requires forall k :: 0 <= k < |s| ==> s[k].lastMessageAt >= x.lastMessageAt
    ensures Insert(s, x) == s + [x]
    decreases |s|
  {
    if s != [] {
      InsertOldest(s[1..], x);
      assert s == [s[0]] + s[1..];
    }
  }

  /** `rows.sort((a, b) => b.last_message_at - a.last_message_at)`, stable as
      in ECMAScript 2019: a permutation of the rows, newest first. */
  function SortByRecency(rows: seq<OverviewRow>): (r: seq<OverviewRow>)
    ensures ByRecency(r)
    ensures multiset(r) == multiset(rows)
    decreases |rows|
  {
    if rows == [] then []
    else
      var init := rows[..|rows| - 1];
      var last := rows[|rows| - 1];
      assert rows == init + [last];
      var s := SortByRecency(init);
      InsertPermutes(s, last);
      InsertSorted(s, last);
      Insert(s, last)
  }

  /** Sorting rows that are already newest first changes nothing. */
  lemma {:induction false} SortSortedUnchanged(rows: seq<OverviewRow>)
    requires ByRecency(rows)
    ensures SortByRecency(rows) == rows
    decreases |rows|
  {
    if rows != [] {
      var init := rows[..|rows| - 1];
      var last := rows[|rows| - 1];
      assert ByRecency(init);
      SortSortedUnchanged(init);
      InsertOldest(init, last);
      assert init + [last] == rows;
    }
  }

  /** Where Insert puts the row: after the leading rows that are at least as
      new. */
  lemma {:induction false} InsertAt(s: seq<OverviewRow>, x: OverviewRow, j: nat)
    requires j <= |s|
    requires forall k :: 0 <= k < j ==> s[k].lastMessageAt >= x.lastMessageAt
    requires j < |s| ==> s[j].lastMessageAt < x.lastMessageAt
    ensures Insert(s, x) == s[..j] + [x] + s[j..]
    decreases j
  {
    if j > 0 {
      InsertAt(s[1..], x, j - 1);
      assert s[..j] == [s[0]] + s[1..][..j - 1];
      assert s[j..] == s[1..][j - 1..];
    }
  }

  /** Finds the insertion point by scanning from the front, then splices. */
  method InsertRow(s: seq<OverviewRow>, x: OverviewRow) returns (r: seq<OverviewRow>)
    ensures r == Insert(s, x)
  {
    var j := 0;
    while j < |s| && s[j].lastMessageAt >= x.lastMessageAt
      invariant 0 <= j <= |s|
      invariant forall k :: 0 <= k < j ==> s[k].lastMessageAt >= x.lastMessageAt
    {
      j := j + 1;
    }
    InsertAt(s, x, j);
    r := s[..j] + [x] + s[j..];
  }

  /** The rows' other-participant ids, in row order and with repeats; the
      loaded handler passes them through Distinct (`Array.from(new Set(...))`). */
  function OtherIds(rows: seq<OverviewRow>): (r: seq<string>)
    ensures |r| == |rows| && forall i :: 0 <= i < |rows| ==> r[i] == rows[i].otherId
  {
    seq(|rows|, i requires 0 <= i < |rows| => rows[i].otherId)
  }

  /** The component's state, one field per `useState`. Each event is a
      method whose `modifies` clause names exactly the fields it may change
      and whose `ensures` give their new values; every other field keeps its
      value. */
  class Sidebar {
    var rows: seq<OverviewRow>
    var profiles: map<string, Profile>
    var me: Option<string>

    constructor ()
      ensures rows == [] && profiles == map[] && me.None?
    {
      rows, profiles, me := [], map[], None;
    }

    method UserLoaded(uid: Option<string>)
      modifies this`me
      ensures me == uid
    {
      me := uid;
    }

    /** load with the overview's outcome (None for an error) and the profiles
        query's rows. Returns the distinct other-participant ids the profiles
        are fetched for; fetched profiles join the cache but never replace a
        cached one. */
    method Loaded(overview: Option<seq<OverviewRow>>, profs: Option<seq<Profile>>) returns (ids: seq<string>)
      modifies this`rows, this`profiles
      ensures overview.None? ==> rows == old(rows) && ids == []
      ensures overview.Some? ==> rows == overview.value && ids == Distinct(OtherIds(overview.value))
      ensures ids == [] ==> profiles == old(profiles)
      ensures ids != [] ==> profiles == ProfileIndex(profs.GetOr([])) + old(profiles)
      ensures forall k :: k in old(profiles) ==> k in profiles && profiles[k] == old(profiles)[k]
    {
      ids := [];
      if overview.None? {
        return;
      }
      rows := overview.value;
      ids := Distinct(OtherIds(overview.value));
      if |ids| > 0 {
        var fetched := IndexProfiles(profs.GetOr([]));
        profiles := fetched + profiles;
      }
    }

    /** A live message of conversation `convId`: the conversation moves to the
        front, as Bump says. */
    method LiveMessage(convId: nat, senderId: string, at: int)
      modifies this`rows
      ensures rows == Bump(old(rows), me, convId, senderId, at)
    {
      var next := Without(rows, OverviewId, convId);
      var existing := Find(rows, convId);
      var inc := UnreadInc(me, senderId);
      if existing.Some? {
        var e := existing.value;
        next := [e.(lastMessageAt := at, unread := Some(e.unread.GetOr(0) + inc))] + next;
      } else {
        next := [OverviewRow(convId, if inc == 1 then senderId else NatToString(convId), at, Some(inc))] + next;
      }
      rows := next;
    }

    /** The memoised `rows.sort(...)`, which sorts the state array itself. */
    method SortRows()
      modifies this`rows
      ensures rows == SortByRecency(old(rows))
    {
      var input := rows;
      var out: seq<OverviewRow> := [];
      for i := 0 to |input|
        invariant out == SortByRecency(input[..i])
      {
        assert input[..i + 1][..i] == input[..i];
        out := InsertRow(out, input[i]);
      }
      assert input[..|input|] == input;
      rows := out;
    }
  }
}
