/** The conversation list beside a chat (src/components/chat/ConversationsList.tsx):
    the signed-in user's conversations, newest first from the query, the
    profiles of the other participants, and which row is the open one. */
module ConversationsList {
  import opened Common
  import opened Entities
  import ProfileAvatar

  const MessagesPrefix: string := "/messages/"

  /** The route's `id` parameter: absent, one segment, or a list of them. */
  datatype RouteParam = NoParam | Single(value: string) | Multiple(values: seq<string>)

  /** The raw id: the parameter itself, or the first of a list. */
  function RawId(p: RouteParam): (r: Option<string>)
    ensures p.NoParam? ==> r.None?
    ensures p.Single? ==> r == Some(p.value)
    ensures p.Multiple? ==> r == (if p.values == [] then None else Some(p.values[0]))
  {
    match p
    case NoParam => None
    case Single(v) => Some(v)
    case Multiple(vs) => if vs == [] then None else Some(vs[0])
  }

  /** `id ? Number(id) : null`, read as a conversation id: the number a
      string of decimal digits denotes, nothing for an absent or empty id and
      for a string that is not such a number (NaN matches no id). */
  function ActiveId(p: RouteParam): (r: Option<nat>)
    ensures r.Some? ==> Truthy(RawId(p)) && ParseDecimal(RawId(p).value) == r
    ensures !Truthy(RawId(p)) ==> r.None?
  {
    var id := RawId(p);
    if !Truthy(id) then None else ParseDecimal(id.value)
  }

  /** The route `/messages/{n}` yields `n` as the active id. */
  lemma ActiveIdOfRoute(n: nat)
    ensures ActiveId(Single(NatToString(n))) == Some(n)
    ensures ActiveId(Multiple([NatToString(n)])) == Some(n)
  {
    ParseNatToString(n);
  }

  /** `activeId === c.id || pathname === '/messages/' + c.id`: a row is
      active only through its id or on a chat route. */
  predicate IsActive(activeId: Option<nat>, pathname: string, convId: nat)
    ensures IsActive(activeId, pathname, convId) ==> activeId == Some(convId) || StartsWith(pathname, MessagesPrefix)
  {
    activeId == Some(convId) || pathname == MessagesPrefix + NatToString(convId)
  }

  /** On a chat route whose parameter and path agree, exactly the addressed
      conversation is the active row. */
  lemma {:induction false} ActiveRowUnique(n: nat, convId: nat)
    ensures IsActive(ActiveId(Single(NatToString(n))), MessagesPrefix + NatToString(n), convId) <==> convId == n
  {
    ActiveIdOfRoute(n);
    if MessagesPrefix + NatToString(n) == MessagesPrefix + NatToString(convId) {
      assert NatToString(n) == (MessagesPrefix + NatToString(convId))[|MessagesPrefix|..];
      NatToStringInjective(n, convId);
    }
  }

  /** The other participant of each conversation, in order. */
  function OtherIds(me: string, list: seq<Convo>): (r: seq<string>)
    ensures |r| == |list|
    ensures forall i :: 0 <= i < |list| ==> r[i] == OtherParticipant(me, list[i].userA, list[i].userB)
  {
    seq(|list|, i requires 0 <= i < |list| => OtherParticipant(me, list[i].userA, list[i].userB))
  }

  /** The profile ids to fetch: every other participant once, in order of
      first appearance (the Distinct of OtherIds, whose order
      DistinctKeepsFirstOrder states). */
  function PeopleIds(me: string, list: seq<Convo>): (r: seq<string>)
    ensures r == Distinct(OtherIds(me, list))
    ensures NoDuplicates(r)
    ensures forall x :: x in r <==> exists i :: 0 <= i < |list| && x == OtherParticipant(me, list[i].userA, list[i].userB)
    ensures r == [] <==> list == []
  {
    var others := OtherIds(me, list);
    var r := Distinct(others);
    assert forall x :: x in others <==> exists i :: 0 <= i < |list| && x == OtherParticipant(me, list[i].userA, list[i].userB) by {
      forall x | x in others
        ensures exists i :: 0 <= i < |list| && x == OtherParticipant(me, list[i].userA, list[i].userB)
      {
        var i :| 0 <= i < |others| && others[i] == x;
      }
    }
    assert list != [] ==> others[0] in r;
    r
  }

  /** `other?.full_name || other?.username || 'User'`. */
  function RowName(people: map<string, Profile>, me: string, c: Convo): (r: string)
    ensures r != ""
    ensures OtherParticipant(me, c.userA, c.userB) !in people ==> r == ProfileAvatar.DefaultName
  {
    var other := OtherParticipant(me, c.userA, c.userB);
    ProfileAvatar.DisplayName(if other in people then Some(people[other]) else None)
  }

  /** The component's state, one field per `useState`. Each event is a
      method whose `modifies` clause names exactly the fields it may change
      and whose `ensures` give their new values; every other field keeps its
      value. */
  class Conversations {
    var me: Option<string>
    var rows: seq<Convo>
    var people: map<string, Profile>
    var loading: bool

    constructor ()
      ensures me.None? && rows == [] && people == map[] && loading
    {
      me, rows, people, loading := None, [], map[], true;
    }

    /** The auth lookup finished; returns whether the list is refreshed (and
        kept live), which needs a signed-in user. */
    method UserLoaded(uid: Option<string>) returns (refresh: bool)
      modifies this`me
      ensures me == uid
      ensures refresh <==> Truthy(uid)
    {
      me := uid;
      refresh := Truthy(uid);
    }

    /** refresh with the conversations query's outcome (None for an error).
        An error empties the list and ends loading. Otherwise the rows are
        listed and the distinct other participants returned; with none the
        people map is emptied and loading ends, with some the profile fetch
        follows. */
    method Refreshed(result: Option<seq<Convo>>) returns (ids: seq<string>)
      requires Truthy(me)
      modifies this`loading, this`rows, this`people
      ensures result.None? ==> rows == [] && people == old(people) && !loading && ids == []
      ensures result.Some? ==> rows == result.value && ids == PeopleIds(me.value, result.value)
      ensures result.Some? && ids == [] ==> people == map[] && !loading
      ensures result.Some? && ids != [] ==> people == old(people) && loading
    {
      loading := true;
      ids := [];
      if result.None? {
        rows := [];
        loading := false;
        return;
      }
      rows := result.value;
      ids := PeopleIds(me.value, result.value);
      if ids == [] {
        people := map[];
        loading := false;
      }
    }

    /** The profiles of the other participants (null data taken as no rows):
        the people map is rebuilt from them alone, and loading ends. */
    method PeopleFetched(profs: seq<Profile>)
      modifies this`people, this`loading
      ensures people == ProfileIndex(profs) && !loading
      ensures people.Keys == set p | p in profs :: p.id
    {
      people := IndexProfiles(profs);
      loading := false;
    }
  }
}
