/** A user row in the search results with a follow-request button. The
    button is local state only: a click cycles between "requested" and
    "not requested", and can leave "following" but never enter it. */
module UserSearchItem {
  import opened Wrappers
  import opened Toasts

  datatype ButtonState = ButtonState(isFollowing: bool, isRequested: bool)

  /** One click on the button: unfollow when following (the request flag is
      kept), otherwise cancel a pending request or send one. */
  function Clicked(b: ButtonState): (r: ButtonState)
    ensures !r.isFollowing
    ensures b.isFollowing ==> r.isRequested == b.isRequested
    ensures !b.isFollowing ==> r.isRequested == !b.isRequested
  {
    if b.isFollowing then b.(isFollowing := false)
    else if b.isRequested then b.(isRequested := false)
    else b.(isRequested := true)
  }

  /** The state after `n` clicks. */
  function Clicks(b: ButtonState, n: nat): (r: ButtonState)
    ensures r.isFollowing ==> n == 0 && b.isFollowing
  {
    if n == 0 then b else Clicked(Clicks(b, n - 1))
  }

  /** After one click or more the request flag alternates: from "following"
      the first click keeps it, from any other state the first click flips
      it. */
  lemma {:induction false} ClicksAlternate(b: ButtonState, n: nat)
    requires n >= 1
    ensures Clicks(b, n).isRequested ==
            (b.isRequested != (n % 2 == (if b.isFollowing then 0 else 1)))
  {
    if n > 1 {
      ClicksAlternate(b, n - 1);
    }
  }

  /** Only three states are ever shown from a given start: the start itself,
      "requested" and "neither". */
  lemma ReachableStates(b: ButtonState, n: nat)
    ensures Clicks(b, n) in {b, ButtonState(false, true), ButtonState(false, false)}
  {
    if n >= 1 {
      ClicksAlternate(b, n);
    }
  }

  /** From "neither", two clicks send a request and cancel it again. */
  lemma TwoClicksFromNeither()
    ensures Clicks(ButtonState(false, false), 1) == ButtonState(false, true)
    ensures Clicks(ButtonState(false, false), 2) == ButtonState(false, false)
  {
    ClicksAlternate(ButtonState(false, false), 1);
    ClicksAlternate(ButtonState(false, false), 2);
  }

  /** The button's text. */
  function Label(b: ButtonState): (l: string)
    ensures l == "Following" <==> b.isFollowing
    ensures l == "Requested" <==> !b.isFollowing && b.isRequested
    ensures l == "Follow" <==> !b.isFollowing && !b.isRequested
  {
    if b.isFollowing then "Following" else if b.isRequested then "Requested" else "Follow"
  }

  /** The button's style variant. */
  function Variant(b: ButtonState): (v: string)
    ensures v == "default" <==> Label(b) == "Follow"
    ensures v == "secondary" <==> Label(b) != "Follow"
  {
    if b.isFollowing then "secondary" else if b.isRequested then "secondary" else "default"
  }

  /** The gradient style goes with the plain "Follow" button only. */
  predicate UsesGradient(b: ButtonState)
  {
    !b.isFollowing && !b.isRequested
  }

  lemma GradientMarksFollow(b: ButtonState)
    ensures UsesGradient(b) <==> Label(b) == "Follow"
    ensures UsesGradient(b) <==> Variant(b) == "default"
  {
  }

  /** No number of clicks ever makes the button read "Following". */
  lemma {:induction false} NeverShowsFollowing(b: ButtonState, n: nat)
    requires n >= 1
    ensures Label(Clicks(b, n)) != "Following"
  {
    ClicksAlternate(b, n);
  }

  class SearchItem {
    const id: string
    const username: string
    /** Whether the parent supplied an `onFollow` callback. */
    const hasOnFollow: bool
    var isFollowing: bool
    var isRequested: bool
    /** The ids the `onFollow` callback has been called with, in order. */
    var followCalls: seq<string>

    /** Both flags start from the props and default to false. */
    constructor (id: string, username: string, initialIsFollowing: Option<bool>,
                 initialIsRequested: Option<bool>, hasOnFollow: bool)
      ensures this.id == id && this.username == username && this.hasOnFollow == hasOnFollow
      ensures isFollowing == initialIsFollowing.GetOr(false)
      ensures isRequested == initialIsRequested.GetOr(false)
      ensures followCalls == []
    {
      this.id := id;
      this.username := username;
      this.hasOnFollow := hasOnFollow;
      isFollowing := initialIsFollowing.GetOr(false);
      isRequested := initialIsRequested.GetOr(false);
      followCalls := [];
    }

    function State(): ButtonState
      reads this
    {
      ButtonState(isFollowing, isRequested)
    }

    /** A click: the state steps as `Clicked` says, the matching notice is
        raised, and the callback, when supplied, gets the item's id once
        whichever branch ran. */
    method HandleFollow() returns (notice: Toast)
      modifies this`isFollowing, this`isRequested, this`followCalls
      ensures State() == Clicked(old(State()))
      ensures followCalls == old(followCalls) + (if hasOnFollow then [id] else [])
      ensures notice == if old(isFollowing) then Info("Unfollowed " + username)
                        else if old(isRequested) then Info("Follow request cancelled")
                        else Success("Follow request sent to " + username)
    {
      if isFollowing {
        isFollowing := false;
        notice := Info("Unfollowed " + username);
      } else if isRequested {
        isRequested := false;
        notice := Info("Follow request cancelled");
      } else {
        isRequested := true;
        notice := Success("Follow request sent to " + username);
      }
      if hasOnFollow {
        followCalls := followCalls + [id];
      }
    }
  }
}
