/** The follow-status hook: whether the signed-in viewer follows a target,
    and a toggle that writes the edge. The hook never looks at the store's
    answer to a write: it sets the local status either way. */
module FollowStatus {
  import opened Wrappers
  import opened Store
  import opened Follows

  /** JavaScript truthiness of an optional id: present and not "". */
  predicate Given(id: Option<UserId>)
  {
    id.Some? && id.value != ""
  }

  class FollowStatusHook {
    /** The signed-in user's id, `None` when signed out. */
    const viewer: Option<UserId>
    const target: Option<UserId>
    var isFollowing: bool
    var isLoading: bool

    constructor (viewer: Option<UserId>, target: Option<UserId>)
      ensures this.viewer == viewer && this.target == target
      ensures !isFollowing && !isLoading
    {
      this.viewer := viewer;
      this.target := target;
      isFollowing := false;
      isLoading := false;
    }

    /** The guard of the status check and of the toggle: a viewer and a target. */
    predicate CanAct()
    {
      viewer.Some? && Given(target)
    }

    /** The effect runs the status check only for a viewer looking at someone else. */
    predicate ChecksOnMount()
    {
      CanAct() && viewer.value != target.value
    }

    function Edge(): (e: Follow)
      requires CanAct()
      ensures e.followerId == viewer.value && e.followingId == target.value
    {
      Follow(viewer.value, target.value)
    }

    method CheckFollowStatus(follows: Table<Follow>, queryOk: bool)
      modifies this`isFollowing
      ensures CanAct() ==> isFollowing == MaybeSingle(follows.rows, Edge(), queryOk)
      ensures !CanAct() ==> isFollowing == old(isFollowing)
    {
      if !CanAct() {
        return;
      }
      isFollowing := MaybeSingle(follows.rows, Edge(), queryOk);
    }

    /** The mount effect. */
    method OnMount(follows: Table<Follow>, queryOk: bool)
      modifies this`isFollowing
      ensures ChecksOnMount() ==> isFollowing == MaybeSingle(follows.rows, Edge(), queryOk)
      ensures !ChecksOnMount() ==> isFollowing == old(isFollowing)
    {
      if ChecksOnMount() {
        CheckFollowStatus(follows, queryOk);
      }
    }

    /** The toggle up to its `await`: the guard, the loading flag, and the
        write chosen from the current local status. */
    method BeginToggle() returns (w: Option<Write<Follow>>)
      modifies this`isLoading
      ensures w.Some? <==> CanAct()
      ensures w.Some? ==> isLoading && w.value == ToggleWrite(Edge(), isFollowing)
      ensures w.None? ==> isLoading == old(isLoading)
    {
      if !CanAct() {
        return None;
      }
      isLoading := true;
      w := Some(ToggleWrite(Edge(), isFollowing));
    }

    /** The toggle after its `await`: the store applies the write if it
        accepts it, and the local status follows the write regardless. */
    method FinishToggle(w: Write<Follow>, follows: Table<Follow>, storeOk: bool)
      modifies this, follows
      ensures follows.rows == Apply(old(follows.rows), w, storeOk)
      ensures isFollowing == w.Insert?
      ensures !isLoading
    {
      follows.Perform(w, storeOk);
      isFollowing := w.Insert?;
      isLoading := false;
    }

    /** `toggleFollow` as one step. A status that matched the table still
        matches it afterwards exactly when the store accepted the write. */
    method ToggleFollow(follows: Table<Follow>, storeOk: bool)
      modifies this, follows
      ensures !CanAct() ==> unchanged(this) && follows.rows == old(follows.rows)
      ensures CanAct() ==> isFollowing == !old(isFollowing) && !isLoading
      ensures CanAct() ==>
        follows.rows == Apply(old(follows.rows), ToggleWrite(Edge(), old(isFollowing)), storeOk)
      ensures CanAct() && old(isFollowing == (Edge() in follows.rows)) ==>
        (isFollowing == (Edge() in follows.rows) <==> storeOk)
    {
      var w := BeginToggle();
      if w.Some? {
        FinishToggle(w.value, follows, storeOk);
      }
    }
  }

  /** From "not following" with no edge in the table, two toggles whose
      writes succeed leave the table as it was and the status "not following". */
  method ToggleTwice(hook: FollowStatusHook, follows: Table<Follow>)
    requires hook.CanAct() && !hook.isFollowing && hook.Edge() !in follows.rows
    modifies hook, follows
    ensures follows.rows == old(follows.rows)
    ensures !hook.isFollowing && !hook.isLoading
  {
    ghost var before := follows.rows;
    hook.ToggleFollow(follows, true);
    hook.ToggleFollow(follows, true);
    ToggleTwiceRestores(before, hook.Edge());
  }
}
