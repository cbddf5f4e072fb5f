/** Another user's profile page: its follow status, its follower and
    following counters, and the follow button. Unlike the follow hook, the
    page applies a follow or unfollow locally only when the store reports no
    error, and then moves the follower counter by exactly one. */
module UserProfile {
  import opened Wrappers
  import opened Seqs
  import opened Store
  import opened Follows
  import opened Toasts

  class ProfilePage {
    /** The signed-in user's id, `None` when signed out. */
    const viewer: Option<UserId>
    /** The `userId` route parameter. */
    const userId: UserId
    var isFollowing: bool
    var followersCount: int
    var followingCount: int
    var isFollowLoading: bool

    constructor (viewer: Option<UserId>, userId: UserId)
      ensures this.viewer == viewer && this.userId == userId
      ensures !isFollowing && followersCount == 0 && followingCount == 0 && !isFollowLoading
    {
      this.viewer := viewer;
      this.userId := userId;
      isFollowing := false;
      followersCount := 0;
      followingCount := 0;
      isFollowLoading := false;
    }

    /** `user?.id === userId`. */
    predicate IsOwnProfile()
      ensures IsOwnProfile() <==> viewer.Some? && Edge().followerId == Edge().followingId
    {
      viewer.Some? && viewer.value == userId
    }

    /** The header gets a follow handler exactly when the profile is not the
        viewer's own. */
    predicate OffersFollow()
      ensures OffersFollow() <==> viewer.None? || Edge().followerId != Edge().followingId
    {
      !IsOwnProfile()
    }

    function Edge(): (e: Follow)
      requires viewer.Some?
      ensures e.followerId == viewer.value && e.followingId == userId
    {
      Follow(viewer.value, userId)
    }

    /** The page shows exactly what the table holds: both counters and, for a
        signed-in viewer, the status of the viewer's edge. */
    ghost predicate Mirrors(rows: seq<Follow>)
      reads this
    {
      followersCount == FollowersOf(rows, userId) &&
      followingCount == FollowingOf(rows, userId) &&
      (viewer.Some? ==> isFollowing == (Edge() in rows))
    }

    method CheckFollowStatus(follows: Table<Follow>, queryOk: bool)
      modifies this`isFollowing
      ensures viewer.Some? ==> isFollowing == MaybeSingle(follows.rows, Edge(), queryOk)
      ensures viewer.None? ==> isFollowing == old(isFollowing)
    {
      if viewer.None? {
        return;
      }
      isFollowing := MaybeSingle(follows.rows, Edge(), queryOk);
    }

    /** Two exact counts; a failed count (no `count`) shows as 0. */
    method FetchFollowCounts(follows: Table<Follow>, followersOk: bool, followingOk: bool)
      modifies this`followersCount, this`followingCount
      ensures followersCount == if followersOk then FollowersOf(follows.rows, userId) else 0
      ensures followingCount == if followingOk then FollowingOf(follows.rows, userId) else 0
    {
      followersCount := if followersOk then FollowersOf(follows.rows, userId) else 0;
      followingCount := if followingOk then FollowingOf(follows.rows, userId) else 0;
    }

    /** The mount effect's follow part: the status check and the counts, run
        for a non-empty route parameter. When every query succeeds on a unique
        table, the page then mirrors it. */
    method OnMount(follows: Table<Follow>, statusOk: bool, followersOk: bool, followingOk: bool)
      modifies this`isFollowing, this`followersCount, this`followingCount
      ensures userId == "" ==> unchanged(this)
      ensures userId != "" ==>
        (viewer.Some? ==> isFollowing == MaybeSingle(follows.rows, Edge(), statusOk)) &&
        (viewer.None? ==> isFollowing == old(isFollowing)) &&
        followersCount == (if followersOk then FollowersOf(follows.rows, userId) else 0) &&
        followingCount == (if followingOk then FollowingOf(follows.rows, userId) else 0)
      ensures userId != "" && statusOk && followersOk && followingOk && Unique(follows.rows) ==>
        Mirrors(follows.rows)
    {
      if userId == "" {
        return;
      }
      CheckFollowStatus(follows, statusOk);
      FetchFollowCounts(follows, followersOk, followingOk);
      if viewer.Some? && Unique(follows.rows) {
        MaybeSingleFindsUnique(follows.rows, Edge(), statusOk);
      }
    }

    /** `handleFollow` up to its `await`. */
    method BeginFollow() returns (w: Option<Write<Follow>>)
      modifies this`isFollowLoading
      ensures w.Some? <==> viewer.Some?
      ensures w.Some? ==> isFollowLoading && w.value == ToggleWrite(Edge(), isFollowing)
      ensures w.None? ==> isFollowLoading == old(isFollowLoading)
    {
      if viewer.None? {
        return None;
      }
      isFollowLoading := true;
      w := Some(ToggleWrite(Edge(), isFollowing));
    }

    /** `handleFollow` after its `await`: on success the status follows the
        write and the follower counter moves by one, with the notice shown;
        on an error nothing but the loading flag changes. */
    method FinishFollow(w: Write<Follow>, follows: Table<Follow>, storeOk: bool)
      returns (notice: Option<Toast>)
      modifies this, follows
      ensures follows.rows == Apply(old(follows.rows), w, storeOk)
      ensures storeOk ==> isFollowing == w.Insert?
      ensures storeOk ==> followersCount == old(followersCount) + (if w.Insert? then 1 else -1)
      ensures storeOk ==> notice == Some(Success(if w.Insert? then "Following!" else "Unfollowed"))
      ensures !storeOk ==> isFollowing == old(isFollowing) && followersCount == old(followersCount)
      ensures !storeOk ==> notice.None?
      ensures followingCount == old(followingCount) && !isFollowLoading
    {
      follows.Perform(w, storeOk);
      notice := None;
      if storeOk {
        match w
        case DeleteMatching(_) =>
          isFollowing := false;
          followersCount := followersCount - 1;
          notice := Some(Success("Unfollowed"));
        case Insert(_) =>
          isFollowing := true;
          followersCount := followersCount + 1;
          notice := Some(Success("Following!"));
      }
      isFollowLoading := false;
    }

    /** `handleFollow` as one step. A page that mirrored a unique table before
        still mirrors it afterwards, whether the write succeeds or fails, as
        long as the profile is not the viewer's own. */
    method HandleFollow(follows: Table<Follow>, storeOk: bool) returns (notice: Option<Toast>)
      modifies this, follows
      ensures viewer.None? ==> unchanged(this) && follows.rows == old(follows.rows) && notice.None?
      ensures viewer.Some? ==>
        follows.rows == Apply(old(follows.rows), ToggleWrite(Edge(), old(isFollowing)), storeOk)
      ensures viewer.Some? && storeOk ==>
        isFollowing == !old(isFollowing) &&
        followersCount == old(followersCount) + (if old(isFollowing) then -1 else 1)
      ensures viewer.Some? && storeOk ==>
        notice == Some(Success(if old(isFollowing) then "Unfollowed" else "Following!"))
      ensures !storeOk ==> isFollowing == old(isFollowing) && followersCount == old(followersCount)
      ensures !storeOk ==> notice.None?
      ensures followingCount == old(followingCount) && isFollowLoading == (viewer.None? && old(isFollowLoading))
      ensures old(Mirrors(follows.rows)) && old(Unique(follows.rows)) && OffersFollow() ==>
        Mirrors(follows.rows) && Unique(follows.rows)
    {
      ghost var rows0 := follows.rows;
      ghost var wasFollowing := isFollowing;
      ghost var mirrored := Mirrors(rows0) && Unique(rows0);
      var w := BeginFollow();
      if w.None? {
        return None;
      }
      notice := FinishFollow(w.value, follows, storeOk);
      if mirrored && OffersFollow() && storeOk {
        assert Edge().followerId != Edge().followingId;
        ToggleKeepsCounts(rows0, Edge(), wasFollowing);
      }
    }
  }
}
