/** The home feed's post card backed by the `likes` table. It writes a like
    or unlike and then updates its local state without looking at the
    store's answer. */
module PostCardWithComments {
  import opened Wrappers
  import opened Seqs
  import opened Store
  import opened LikeCounter

  type UserId = string

  datatype Like = Like(postId: string, userId: UserId)

  /** Row filter `.eq("post_id", postId)`. */
  function OnPost(postId: string): Like -> bool
  {
    (l: Like) => l.postId == postId
  }

  /** Exact count of the likes of `postId`. */
  function LikesOf(rows: seq<Like>, postId: string): (n: nat)
    ensures n <= |rows|
    ensures n == 0 <==> forall l :: l in rows ==> l.postId != postId
  {
    Count(rows, OnPost(postId))
  }

  /** A like toggle that succeeds on a unique table moves the post's count by
      exactly the ±1 the card applies locally, when the card's heart matched
      the table. */
  lemma OptimisticLikeCount(rows: seq<Like>, like: Like, wasLiked: bool)
    requires Unique(rows)
    requires wasLiked == (like in rows)
    ensures LikesOf(Apply(rows, ToggleWrite(like, wasLiked), true), like.postId) ==
            LikesOf(rows, like.postId) + (if wasLiked then -1 else 1)
  {
    OptimisticCount(rows, like, wasLiked, OnPost(like.postId));
  }

  class LikeablePost {
    const postId: string
    /** The signed-in user's id, `None` when signed out. */
    const viewer: Option<UserId>
    var isLiked: bool
    var isSaved: bool
    var likesCount: int
    var commentsCount: int
    var showHeart: bool
    var showComments: bool

    constructor (postId: string, viewer: Option<UserId>)
      ensures this.postId == postId && this.viewer == viewer
      ensures !isLiked && !isSaved && likesCount == 0 && commentsCount == 0
      ensures !showHeart && !showComments
    {
      this.postId := postId;
      this.viewer := viewer;
      isLiked, isSaved := false, false;
      likesCount, commentsCount := 0, 0;
      showHeart, showComments := false, false;
    }

    function Likes(): LikeState
      reads this
    {
      LikeState(isLiked, likesCount)
    }

    function MyLike(): (l: Like)
      requires viewer.Some?
      ensures l.postId == postId && l.userId == viewer.value
    {
      Like(postId, viewer.value)
    }

    /** The card shows what the table holds: the post's like count and, for
        a signed-in viewer, whether the viewer's like is there. */
    ghost predicate Mirrors(rows: seq<Like>)
      reads this
    {
      likesCount == LikesOf(rows, postId) &&
      (viewer.Some? ==> isLiked == (MyLike() in rows))
    }

    method FetchLikeStatus(likes: Table<Like>, queryOk: bool)
      modifies this`isLiked
      ensures viewer.Some? ==> isLiked == MaybeSingle(likes.rows, MyLike(), queryOk)
      ensures viewer.None? ==> isLiked == old(isLiked)
    {
      if viewer.None? {
        return;
      }
      isLiked := MaybeSingle(likes.rows, MyLike(), queryOk);
    }

    /** The exact count of the post's likes; a failed count shows as 0. */
    method FetchLikesCount(likes: Table<Like>, queryOk: bool)
      modifies this`likesCount
      ensures likesCount == if queryOk then LikesOf(likes.rows, postId) else 0
    {
      likesCount := if queryOk then LikesOf(likes.rows, postId) else 0;
    }

    /** The mount effect: both fetches. */
    method OnMount(likes: Table<Like>, statusOk: bool, countOk: bool)
      modifies this`isLiked, this`likesCount
      ensures viewer.Some? ==> isLiked == MaybeSingle(likes.rows, MyLike(), statusOk)
      ensures viewer.None? ==> isLiked == old(isLiked)
      ensures likesCount == if countOk then LikesOf(likes.rows, postId) else 0
    {
      FetchLikeStatus(likes, statusOk);
      FetchLikesCount(likes, countOk);
    }

    /** The heart button. Signed out it does nothing; signed in it deletes or
        inserts the viewer's like and toggles the local state whatever the
        store answers. A card that mirrored a unique table keeps mirroring it
        when the write succeeds, and stops when the write fails. */
    method HandleLike(likes: Table<Like>, storeOk: bool)
      modifies this`isLiked, this`likesCount, likes
      ensures viewer.None? ==> Likes() == old(Likes()) && likes.rows == old(likes.rows)
      ensures viewer.Some? ==> Likes() == Toggled(old(Likes()))
      ensures viewer.Some? ==>
        likes.rows == Apply(old(likes.rows), ToggleWrite(MyLike(), old(isLiked)), storeOk)
      ensures viewer.Some? && old(Mirrors(likes.rows)) && old(Unique(likes.rows)) ==>
        (storeOk <==> Mirrors(likes.rows))
    {
      if viewer.None? {
        return;
      }
      ghost var rows0 := likes.rows;
      ghost var wasLiked := isLiked;
      if Mirrors(rows0) && Unique(rows0) {
        OptimisticLikeCount(rows0, MyLike(), wasLiked);
        LookupAfterWrite(rows0, ToggleWrite(MyLike(), wasLiked));
        ApplyKeepsUnique(rows0, ToggleWrite(MyLike(), wasLiked), true);
        MaybeSingleFindsUnique(Apply(rows0, ToggleWrite(MyLike(), wasLiked), true), MyLike(), true);
      }
      likes.Perform(ToggleWrite(MyLike(), isLiked), storeOk);
      if isLiked {
        isLiked := false;
        likesCount := likesCount - 1;
      } else {
        isLiked := true;
        likesCount := likesCount + 1;
      }
    }

    /** A double tap on the image: for a signed-in viewer on an unliked post,
        insert a like and like locally; the heart overlay turns on in every case. */
    method HandleDoubleTap(likes: Table<Like>, storeOk: bool)
      modifies this`isLiked, this`likesCount, this`showHeart, likes
      ensures viewer.Some? ==> Likes() == DoubleTapped(old(Likes()))
      ensures viewer.None? ==> Likes() == old(Likes())
      ensures likes.rows == if viewer.Some? && !old(isLiked)
                            then Apply(old(likes.rows), Insert(MyLike()), storeOk)
                            else old(likes.rows)
      ensures showHeart
    {
      if !isLiked && viewer.Some? {
        likes.Perform(Insert(MyLike()), storeOk);
        isLiked := true;
        likesCount := likesCount + 1;
      }
      showHeart := true;
    }

    method ToggleSaved()
      modifies this`isSaved
      ensures isSaved == !old(isSaved)
    {
      isSaved := !isSaved;
    }

    method ToggleComments()
      modifies this`showComments
      ensures showComments == !old(showComments)
    {
      showComments := !showComments;
    }

    /** The "View all comments" link. */
    method ViewComments()
      modifies this`showComments
      ensures showComments
    {
      showComments := true;
    }

    /** The comment section's `onCommentCountChange` callback. */
    method SetCommentsCount(n: int)
      modifies this`commentsCount
      ensures commentsCount == n
    {
      commentsCount := n;
    }
  }
}
