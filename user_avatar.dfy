/** The avatar badge: a picture with a fallback of the username's initials,
    drawn at one of four sizes. */
module UserAvatar {
  import opened Wrappers
  import opened Text

  /** The fallback text: the first two characters of the username, upper-cased. */
  function Initials(username: string): (r: string)
    ensures |r| == if |username| < 2 then |username| else 2
    ensures forall i :: 0 <= i < |r| ==> r[i] == UpperChar(username[i])
  {
    ToUpper(username[..if |username| < 2 then |username| else 2])
  }

  /** Nothing after the second character counts. */
  lemma InitialsIgnoreTail(username: string, tail: string)
    requires |username| >= 2
    ensures Initials(username + tail) == Initials(username)
  {
    assert (username + tail)[..2] == username[..2];
  }

  /** A name shorter than two characters is upper-cased whole; an empty one
      gives empty initials. */
  lemma ShortNameInitials(username: string)
    requires |username| < 2
    ensures Initials(username) == ToUpper(username)
    ensures username == "" ==> Initials(username) == ""
  {
    assert username[..|username|] == username;
  }

  /** Upper- and lower-case spellings of a name share their initials. */
  lemma InitialsIgnoreCase(username: string)
    ensures Initials(ToLower(username)) == Initials(username)
  {
    var n := if |username| < 2 then |username| else 2;
    forall i | 0 <= i < n
      ensures Initials(ToLower(username))[i] == Initials(username)[i]
    {
      assert ToLower(username)[i] == LowerChar(username[i]);
    }
  }

  datatype Size = Sm | Md | Lg | Xl

  /** The class string of each size: "h-8 w-8", "h-10 w-10", "h-14 w-14"
      and "h-20 w-20". */
  function SizeClass(size: Size): (c: string)
    ensures exists side :: c == "h-" + side + " w-" + side
  {
    var side := match size
      case Sm => "8"
      case Md => "10"
      case Lg => "14"
      case Xl => "20";
    "h-" + side + " w-" + side
  }

  /** The `size` prop with its default. */
  function ClassFor(size: Option<Size>): (c: string)
    ensures size.None? ==> c == SizeClass(Md)
    ensures size.Some? ==> c == SizeClass(size.value)
  {
    SizeClass(size.GetOr(Md))
  }

  /** Every size draws differently. */
  lemma SizeClassesDistinct(a: Size, b: Size)
    requires a != b
    ensures SizeClass(a) != SizeClass(b)
  {
    assert SizeClass(a)[2] != SizeClass(b)[2] || SizeClass(a)[3] != SizeClass(b)[3];
  }
}
