/** The follow button (src/components/FollowButton.tsx): whether the signed-in
    user follows `targetUserId`, the toggle that flips it only when the remote
    insert or delete succeeds, and live follow events for the signed-in user. */
module FollowButton {
  import opened Common

  const SignInMessage: string := "Please sign in to follow."
  const FailedMessage: string := "Failed to update follow"

  /** A signed-in user who is not the target may follow or unfollow. */
  predicate MayToggle(me: Option<string>, target: string)
    ensures MayToggle(me, target) ==> me.Some? && me.value != "" && me.value != target
  {
    Truthy(me) && me.value != target
  }

  /** The initial follow check runs for a signed-in user, a non-empty target
      and a user who is not the target; it never runs where the button
      would not be shown. */
  predicate RunsInitialCheck(uid: Option<string>, target: string)
    ensures RunsInitialCheck(uid, target) ==> MayToggle(uid, target) && uid.value != "" && target != ""
  {
    MayToggle(uid, target) && target != ""
  }

  /** The remote change a toggle issues. */
  datatype FollowRequest = Unfollow(follower: string, following: string) | Follow(follower: string, following: string)

  /** What the button shows: its text and its title. */
  datatype ButtonView = ButtonView(text: string, title: string)

  /** Nothing is rendered for a signed-out user or on one's own profile; while
      a toggle runs the text says so. */
  function Button(me: Option<string>, target: string, loading: bool, isFollowing: bool): (r: Option<ButtonView>)
    ensures r.Some? <==> MayToggle(me, target)
    ensures r.Some? ==> r.value.title == (if isFollowing then "Unfollow" else "Follow")
    ensures r.Some? && !loading ==> r.value.text == (if isFollowing then "Following" else "Follow")
    ensures r.Some? && loading ==> r.value.text == "Please wait…"
  {
    if !MayToggle(me, target) then None
    else Some(ButtonView(if loading then "Please wait…" else if isFollowing then "Following" else "Follow",
                         if isFollowing then "Unfollow" else "Follow"))
  }

  /** The component's state, one field per `useState`. Each event is a
      method whose `modifies` clause names exactly the fields it may change
      and whose `ensures` give their new values; every other field keeps its
      value. */
  class Follower {
    const targetUserId: string
    var me: Option<string>
    var loading: bool
    var isFollowing: bool

    constructor (targetUserId: string)
      ensures this.targetUserId == targetUserId
      ensures me.None? && !loading && !isFollowing
    {
      this.targetUserId := targetUserId;
      me, loading, isFollowing := None, false, false;
    }

    /** The auth lookup finished; returns whether the follow check is issued. */
    method UserLoaded(uid: Option<string>) returns (check: bool)
      modifies this`me
      ensures me == uid
      ensures check == RunsInitialCheck(uid, targetUserId)
    {
      me := uid;
      check := Truthy(uid) && targetUserId != "" && uid.value != targetUserId;
    }

    /** checkIsFollowing: whether a follows row came back. */
    method FollowChecked(found: bool)
      modifies this`isFollowing
      ensures isFollowing == found
    {
      isFollowing := found;
    }

    /** toggle with the outcome of the remote change. Signed out: an alert
        and no change. On one's own profile: no change. Otherwise the request
        matching the current state is issued; success flips `isFollowing`,
        failure leaves it and alerts the error's message or the fixed one, and
        `loading` ends false either way. */
    method Toggle(outcome: Outcome) returns (request: Option<FollowRequest>, alertText: Option<string>)
      modifies this`loading, this`isFollowing
      ensures !Truthy(me) ==> request.None? && alertText == Some(SignInMessage)
      ensures Truthy(me) && me.value == targetUserId ==> request.None? && alertText.None?
      ensures request.None? ==> loading == old(loading) && isFollowing == old(isFollowing)
      ensures request.Some? <==> MayToggle(me, targetUserId)
      ensures request.Some? ==>
        request.value == (if old(isFollowing) then Unfollow(me.value, targetUserId)
                          else Follow(me.value, targetUserId))
        && !loading
      ensures request.Some? && outcome.Success? ==> isFollowing == !old(isFollowing) && alertText.None?
      ensures request.Some? && outcome.Failure? ==>
        isFollowing == old(isFollowing) && alertText == Some(outcome.message.GetOr(FailedMessage))
    {
      request, alertText := None, None;
      if !Truthy(me) {
        alertText := Some(SignInMessage);
        return;
      }
      if me.value == targetUserId {
        return;
      }
      loading := true;
      if isFollowing {
        request := Some(Unfollow(me.value, targetUserId));
      } else {
        request := Some(Follow(me.value, targetUserId));
      }
      if outcome.Success? {
        isFollowing := !isFollowing;
      } else {
        alertText := Some(outcome.message.GetOr(FailedMessage));
      }
      loading := false;
    }

    /** A live follows insert for the target: marks it followed only when the
        follower is the signed-in user. */
    method LiveFollowed(follower: string)
      modifies this`isFollowing
      ensures isFollowing == if me == Some(follower) then true else old(isFollowing)
    {
      if me == Some(follower) {
        isFollowing := true;
      }
    }

    /** A live follows delete for the target: marks it unfollowed only when
        the follower is the signed-in user. */
    method LiveUnfollowed(follower: string)
      modifies this`isFollowing
      ensures isFollowing == if me == Some(follower) then false else old(isFollowing)
    {
      if me == Some(follower) {
        isFollowing := false;
      }
    }
  }
}
