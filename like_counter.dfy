/** The local like state both post cards keep: the heart and the counter
    shown next to it, and the two gestures that change them. */
module LikeCounter {

  datatype LikeState = LikeState(isLiked: bool, likes: int)

  /** A click on the heart: flip it, and move the counter down when it was
      on, up when it was off (both read from the state before the click). */
  function Toggled(s: LikeState): (r: LikeState)
    ensures r.isLiked != s.isLiked
    ensures OthersLikes(r) == OthersLikes(s)
  {
    LikeState(!s.isLiked, if s.isLiked then s.likes - 1 else s.likes + 1)
  }

  /** A double tap on the image: like an unliked post, leave a liked one. */
  function DoubleTapped(s: LikeState): (r: LikeState)
    ensures r.isLiked
    ensures OthersLikes(r) == OthersLikes(s)
    ensures s.isLiked ==> r == s
  {
    if s.isLiked then s else LikeState(true, s.likes + 1)
  }

  /** The likes of everyone else: the counter without the viewer's own. */
  function OthersLikes(s: LikeState): int
  {
    s.likes - (if s.isLiked then 1 else 0)
  }

  /** A heart click moves the counter by exactly one. */
  lemma ToggleMovesByOne(s: LikeState)
    ensures Toggled(s).likes == s.likes + (if s.isLiked then -1 else 1)
  {
  }

  lemma ToggleTwiceRestores(s: LikeState)
    ensures Toggled(Toggled(s)) == s
  {
  }

  /** A double tap adds exactly one like to an unliked post, and a second
      double tap changes nothing. */
  lemma DoubleTapOnlyLikes(s: LikeState)
    ensures !s.isLiked ==> DoubleTapped(s).likes == s.likes + 1
    ensures DoubleTapped(DoubleTapped(s)) == DoubleTapped(s)
  {
  }
}
