/** The `follows` table: one row `(follower_id, following_id)` per directed
    follow edge, and the counts and toggle writes both the follow hook and
    the profile page build on it. */
module Follows {
  import opened Seqs
  import opened Store

  type UserId = string

  datatype Follow = Follow(followerId: UserId, followingId: UserId)

  /** Row filter `.eq("following_id", u)`. */
  function Targets(u: UserId): Follow -> bool
  {
    (f: Follow) => f.followingId == u
  }

  /** Row filter `.eq("follower_id", u)`. */
  function Sources(u: UserId): Follow -> bool
  {
    (f: Follow) => f.followerId == u
  }

  /** Exact count of the rows naming `u` as the one followed. */
  function FollowersOf(rows: seq<Follow>, u: UserId): (n: nat)
    ensures n <= |rows|
    ensures n == 0 <==> forall f :: f in rows ==> f.followingId != u
  {
    Count(rows, Targets(u))
  }

  /** Exact count of the rows naming `u` as the follower. */
  function FollowingOf(rows: seq<Follow>, u: UserId): (n: nat)
    ensures n <= |rows|
    ensures n == 0 <==> forall f :: f in rows ==> f.followerId != u
  {
    Count(rows, Sources(u))
  }

  /** The optimistic ±1 the profile page applies to the follower counter is
      exactly what a fresh count would show, provided the table is unique and
      the local status matched it. */
  lemma OptimisticFollowerCount(rows: seq<Follow>, edge: Follow, wasFollowing: bool)
    requires Unique(rows)
    requires wasFollowing == (edge in rows)
    ensures FollowersOf(Apply(rows, ToggleWrite(edge, wasFollowing), true), edge.followingId) ==
            FollowersOf(rows, edge.followingId) + (if wasFollowing then -1 else 1)
  {
    OptimisticCount(rows, edge, wasFollowing, Targets(edge.followingId));
  }

  /** A follow edge leaves the following count of anyone but its follower alone. */
  lemma FollowingUntouched(rows: seq<Follow>, w: Write<Follow>, u: UserId)
    requires w.row.followerId != u
    ensures FollowingOf(Apply(rows, w, true), u) == FollowingOf(rows, u)
  {
    CountAfterWrite(rows, w, Sources(u));
  }

  /** A successful toggle of an edge, issued from a status that matched a
      unique table, flips the edge's presence, keeps the table unique, moves
      the followed user's follower count by one and leaves that user's
      following count alone. */
  lemma ToggleKeepsCounts(rows: seq<Follow>, edge: Follow, wasFollowing: bool)
    requires Unique(rows) && wasFollowing == (edge in rows)
    requires edge.followerId != edge.followingId
    ensures var r := Apply(rows, ToggleWrite(edge, wasFollowing), true);
      Unique(r) && (edge in r) == !wasFollowing &&
      FollowersOf(r, edge.followingId) ==
        FollowersOf(rows, edge.followingId) + (if wasFollowing then -1 else 1) &&
      FollowingOf(r, edge.followingId) == FollowingOf(rows, edge.followingId)
  {
    var w := ToggleWrite(edge, wasFollowing);
    var r := Apply(rows, w, true);
    OptimisticFollowerCount(rows, edge, wasFollowing);
    FollowingUntouched(rows, w, edge.followingId);
    ApplyKeepsUnique(rows, w, true);
    assert edge in r <==> multiset(r)[edge] > 0;
  }

  /** If the table accepts a second copy of an edge (a stale "not following"
      status toggled again), the `.maybeSingle()` lookup stops finding it. */
  lemma DuplicateHidesEdge(rows: seq<Follow>, edge: Follow)
    requires edge in rows
    ensures !MaybeSingle(Apply(rows, Insert(edge), true), edge, true)
  {
    assert multiset(rows)[edge] >= 1;
  }

  /** U1 follows U2 on an empty table, then unfollows: the status reads
      following, then not; the counts of U2 read {1, 0}, then {0, 0}. */
  lemma {:induction false} FollowUnfollowScenario(u1: UserId, u2: UserId)
    requires u1 != u2
    ensures var e := Follow(u1, u2);
            var afterFollow := Apply([], ToggleWrite(e, false), true);
            var afterUnfollow := Apply(afterFollow, ToggleWrite(e, true), true);
            MaybeSingle(afterFollow, e, true) &&
            FollowersOf(afterFollow, u2) == 1 && FollowingOf(afterFollow, u2) == 0 &&
            !MaybeSingle(afterUnfollow, e, true) &&
            FollowersOf(afterUnfollow, u2) == 0 && FollowingOf(afterUnfollow, u2) == 0
  {
    var e := Follow(u1, u2);
    CountAfterWrite([], Insert(e), Targets(u2));
    CountAfterWrite([], Insert(e), Sources(u2));
    ToggleTwiceRestores([], e);
  }
}
