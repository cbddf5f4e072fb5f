/** The feed's post card, whose like and save state is local only: nothing
    is written to the store. */
module PostCard {
  import opened Wrappers
  import opened LikeCounter

  class PostCard {
    var isLiked: bool
    var isSaved: bool
    var likes: int
    var showHeart: bool

    /** The state starts from the props; absent flags default to false. */
    constructor (likesCount: int, initialIsLiked: Option<bool>, initialIsSaved: Option<bool>)
      ensures isLiked == initialIsLiked.GetOr(false) && isSaved == initialIsSaved.GetOr(false)
      ensures likes == likesCount && !showHeart
    {
      isLiked := initialIsLiked.GetOr(false);
      isSaved := initialIsSaved.GetOr(false);
      likes := likesCount;
      showHeart := false;
    }

    function Likes(): LikeState
      reads this
    {
      LikeState(isLiked, likes)
    }

    method HandleLike()
      modifies this`isLiked, this`likes
      ensures Likes() == Toggled(old(Likes()))
    {
      isLiked, likes := !isLiked, if isLiked then likes - 1 else likes + 1;
    }

    method HandleDoubleTap()
      modifies this`isLiked, this`likes, this`showHeart
      ensures Likes() == DoubleTapped(old(Likes()))
      ensures showHeart
    {
      if !isLiked {
        isLiked := true;
        likes := likes + 1;
      }
      showHeart := true;
    }

    /** The bookmark button; the like state is outside its frame. */
    method ToggleSaved()
      modifies this`isSaved
      ensures isSaved == !old(isSaved)
    {
      isSaved := !isSaved;
    }
  }
}
