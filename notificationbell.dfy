/** The notification bell (src/components/NotificationBell.tsx): the count of
    unread notifications, refreshed for a signed-in user, cleared on the
    notifications page, and shown as a badge capped at "99+". */
module NotificationBell {
  import opened Common

  const NotificationsPath: string := "/notifications"

  /** Numbers up to 99 take at most two digits. */
  lemma SmallNumberDigits(n: nat)
    requires n <= 99
    ensures |NatToString(n)| <= 2
  {
    if n >= 10 {
      assert NatToString(n) == NatToString(n / 10) + [DigitChar(n % 10)];
    }
  }

  /** The badge: absent at 0, "99+" above 99, otherwise the number itself,
      which reads back as the count. */
  function BadgeLabel(unread: nat): (r: Option<string>)
    ensures r.Some? <==> unread > 0
    ensures unread > 99 ==> r == Some("99+")
    ensures 0 < unread <= 99 ==> |r.value| <= 2 && ParseDecimal(r.value) == Some(unread)
  {
    if unread == 0 then None
    else if unread > 99 then Some("99+")
    else
      ParseNatToString(unread);
      SmallNumberDigits(unread);
      Some(NatToString(unread))
  }

  /** Different counts up to 99 get different badges, and none of them is
      the capped one. */
  lemma BadgeDistinguishes(m: nat, n: nat)
    requires 0 < m <= 99 && 0 < n <= 99 && m != n
    ensures BadgeLabel(m) != BadgeLabel(n) && BadgeLabel(m) != Some("99+")
  {
    assert BadgeLabel(m) == Some(NatToString(m));
    if NatToString(m) == NatToString(n) {
      NatToStringInjective(m, n);
    }
  }

  /** The component's state, one field per `useState`. Each event is a
      method whose `modifies` clause names exactly the fields it may change
      and whose `ensures` give their new values; every other field keeps its
      value. */
  class Bell {
    var uid: Option<string>
    var unread: nat

    constructor ()
      ensures uid.None? && unread == 0
    {
      uid, unread := None, 0;
    }

    /** The auth lookup finished; returns whether a refresh (and the live
        subscription) starts, which needs a signed-in user. */
    method UserLoaded(id: Option<string>) returns (refresh: bool)
      modifies this`uid
      ensures uid == id
      ensures refresh <==> Truthy(id)
    {
      uid := id;
      refresh := Truthy(uid);
    }

    /** A live change to this user's notifications; returns whether it
        triggers a refresh. */
    method LiveChange() returns (refresh: bool)
      ensures refresh <==> Truthy(uid)
    {
      refresh := Truthy(uid);
    }

    /** The refresh's exact count; null is stored as 0. */
    method Refreshed(count: Option<nat>)
      modifies this`unread
      ensures count.Some? ==> unread == count.value
      ensures count.None? ==> unread == 0
    {
      unread := count.GetOr(0);
    }

    /** The route changed: visiting the notifications page clears the
        badge; any other path leaves it. */
    method PathChanged(pathname: string)
      modifies this`unread
      ensures unread == if pathname == NotificationsPath then 0 else old(unread)
    {
      if pathname == NotificationsPath {
        unread := 0;
      }
    }
  }
}
