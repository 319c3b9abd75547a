/** The site header (src/components/Header.tsx): the signed-in user and their
    username, the profile link chosen from them, the search box, and the
    direct-message unread badge summed over the conversations overview. */
module Header {
  import opened Common
  import opened Entities
  import opened UriEncoding
  import ProfileEditor

  const LoginPath: string := "/auth/login"
  const UserPathPrefix: string := "/u/"
  const ProfilePathPrefix: string := "/profile/"
  const SearchPrefix: string := "/explore?q="
  const SearchSuffix: string := "&t=users"

  /** The profile link: the login page when signed out, `/u/{username}` when
      the user has a non-empty username, `/profile/{id}` otherwise. */
  function ProfileHref(userId: Option<string>, username: Option<string>): (r: string)
    ensures userId.None? ==> r == LoginPath
    ensures userId.Some? && Truthy(username) ==> r == UserPathPrefix + Encode(username.value)
    ensures userId.Some? && !Truthy(username) ==> r == ProfilePathPrefix + userId.value
  {
    if userId.None? then LoginPath
    else if Truthy(username) then UserPathPrefix + Encode(username.value)
    else ProfilePathPrefix + userId.value
  }

  /** A username the editor accepts needs no escaping, so its link is the
      name itself after `/u/`. */
  lemma ValidUsernameHref(userId: string, username: string)
    requires ProfileEditor.ValidUsername(username)
    ensures ProfileHref(Some(userId), Some(username)) == UserPathPrefix + username
  {
    assert forall k :: 0 <= k < |username| ==> IsUnreserved(username[k]) by {
      forall k | 0 <= k < |username| ensures IsUnreserved(username[k]) {
        assert ProfileEditor.IsUsernameChar(username[k]);
      }
    }
    EncodeIdentity(username);
  }

  /** The search destination for a term. */
  function SearchHref(term: string): (r: string)
    ensures StartsWith(r, SearchPrefix)
    ensures |r| == |SearchPrefix| + |Encode(term)| + |SearchSuffix|
    ensures r[|SearchPrefix|..|r| - |SearchSuffix|] == Encode(term)
    ensures r[|r| - |SearchSuffix|..] == SearchSuffix
  {
    var r := SearchPrefix + Encode(term) + SearchSuffix;
    assert r[..|SearchPrefix|] == SearchPrefix;
    r
  }

  /** `r.unread ?? 0`. */
  function UnreadOf(r: OverviewRow): nat {
    r.unread.GetOr(0)
  }

  /** `data.reduce((sum, r) => sum + (r.unread ?? 0), 0)`: positive exactly
      when some row has unread messages. */
  function TotalUnread(rows: seq<OverviewRow>): (t: nat)
    ensures t > 0 <==> exists i :: 0 <= i < |rows| && UnreadOf(rows[i]) > 0
    ensures forall i :: 0 <= i < |rows| ==> UnreadOf(rows[i]) <= t
  {
    if rows == [] then 0
    else
      var t := UnreadOf(rows[0]) + TotalUnread(rows[1..]);
      assert forall i :: 1 <= i < |rows| ==> rows[i] == rows[1..][i - 1];
      assert (exists i :: 1 <= i < |rows| && UnreadOf(rows[i]) > 0) <==>
             (exists i :: 0 <= i < |rows[1..]| && UnreadOf(rows[1..][i]) > 0) by {
        if exists i :: 0 <= i < |rows[1..]| && UnreadOf(rows[1..][i]) > 0 {
          var i :| 0 <= i < |rows[1..]| && UnreadOf(rows[1..][i]) > 0;
          assert UnreadOf(rows[i + 1]) > 0;
        }
      }
      t
  }

  /** The total of a concatenation is the sum of the totals, so the order
      in which the overview lists conversations does not matter to it. */
  lemma {:induction false} TotalUnreadAppend(a: seq<OverviewRow>, b: seq<OverviewRow>)
    ensures TotalUnread(a + b) == TotalUnread(a) + TotalUnread(b)
    decreases |a|
  {
    if a == [] {
      assert a + b == b;
    } else {
      assert (a + b)[0] == a[0];
      assert (a + b)[1..] == a[1..] + b;
      TotalUnreadAppend(a[1..], b);
    }
  }

  /** Swapping two halves keeps the total. */
  lemma TotalUnreadSwap(a: seq<OverviewRow>, b: seq<OverviewRow>)
    ensures TotalUnread(a + b) == TotalUnread(b + a)
  {
    TotalUnreadAppend(a, b);
    TotalUnreadAppend(b, a);
  }

  /** The messages badge: shown exactly when the total is positive, with the
      total as its text. */
  function DmBadge(total: nat): (r: Option<string>)
    ensures r.Some? <==> total > 0
    ensures r.Some? ==> ParseDecimal(r.value) == Some(total)
  {
    if total == 0 then None
    else
      ParseNatToString(total);
      Some(NatToString(total))
  }

  /** The component's state, one field per `useState`. Each event is a
      method whose `modifies` clause names exactly the fields it may change
      and whose `ensures` give their new values; every other field keeps its
      value. */
  class Bar {
    var user: Option<string>
    var username: Option<string>
    var q: string
    var dmUnread: nat

    constructor ()
      ensures user.None? && username.None? && q == "" && dmUnread == 0
    {
      user, username, q, dmUnread := None, None, "", 0;
    }

    /** The initial auth lookup (`authEvent` false) or an auth state change
        (`authEvent` true) delivered a user id (None when signed out); returns
        whether the username is fetched and whether the unread badge is
        reloaded, which every auth state change does and the initial lookup
        does not. Signing out clears the username. */
    method UserChanged(u: Option<string>, authEvent: bool) returns (fetchUsername: bool, reloadDm: bool)
      modifies this`user, this`username
      ensures user == u
      ensures u.Some? ==> username == old(username) && fetchUsername
      ensures u.None? ==> username.None? && !fetchUsername
      ensures reloadDm == authEvent
    {
      user := u;
      fetchUsername := u.Some?;
      reloadDm := authEvent;
      if u.None? {
        username := None;
      }
    }

    /** fetchUsername's result: the profile's username, None for a missing
        row or a null name. */
    method UsernameFetched(name: Option<string>)
      modifies this`username
      ensures username == name
    {
      username := name;
    }

    method QueryChanged(t: string)
      modifies this`q
      ensures q == t
    {
      q := t;
    }

    /** onSearch: a blank query does nothing; otherwise it navigates to the
        search for the trimmed term and clears the box. */
    method OnSearch() returns (navigate: Option<string>)
      modifies this`q
      ensures AllSpace(old(q)) ==> q == old(q) && navigate.None?
      ensures !AllSpace(old(q)) ==> q == "" && navigate == Some(SearchHref(Trim(old(q))))
    {
      var term := Trim(q);
      if term == "" {
        navigate := None;
        return;
      }
      navigate := Some(SearchHref(term));
      q := "";
    }

    /** loadDmUnread with the overview RPC's outcome (None for an error):
        an error gives 0, otherwise the sum of the rows' unread counts. */
    method DmUnreadLoaded(overview: Option<seq<OverviewRow>>)
      modifies this`dmUnread
      ensures overview.None? ==> dmUnread == 0
      ensures overview.Some? ==> dmUnread == TotalUnread(overview.value)
      ensures dmUnread > 0 <==> overview.Some? && exists i :: 0 <= i < |overview.value| && UnreadOf(overview.value[i]) > 0
    {
      if overview.None? {
        dmUnread := 0;
        return;
      }
      dmUnread := TotalUnread(overview.value);
    }
  }
}
