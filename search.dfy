/** The search page: a fixed list of users filtered by a case-insensitive
    substring match of the query against the username or the bio. A blank
    query shows everyone; a non-blank one is used untrimmed. */
module Search {
  import opened Wrappers
  import opened Seqs
  import opened Text

  /** A user card's data; the avatar URL is display-only. The follow flags
      are optional, as the search item's props are. */
  datatype SearchUser = SearchUser(id: string, username: string, bio: Option<string>,
                                   isFollowing: Option<bool>, isRequested: Option<bool>)

  const MockUsers: seq<SearchUser> := [
    SearchUser("1", "sarah.design", Some("Designer & photographer"), Some(true), None),
    SearchUser("2", "alex.captures", Some("Landscape photography"), Some(false), None),
    SearchUser("3", "maya.lens", Some("Travel \U{2022} Nature \U{2022} Life"), Some(false), None),
    SearchUser("4", "travel.with.emma", Some("Exploring the world one photo at a time"), Some(false), Some(true)),
    SearchUser("5", "photo.wanderer", Some("Mountain enthusiast"), Some(false), None),
    SearchUser("6", "nature.explorer", Some("Wildlife & nature photography"), Some(false), None),
    SearchUser("7", "sunset.chaser", Some("Chasing golden hours"), Some(true), None),
    SearchUser("8", "mountain.vibes", Some("Adventure seeker"), Some(false), None)
  ]

  /** The lower-cased query occurs in the lower-cased username, or in the
      lower-cased bio when there is one. */
  predicate MatchesQuery(u: SearchUser, q: string)
    ensures MatchesQuery(u, q) <==>
      (exists k :: OccursAtIgnoringCase(u.username, q, k)) ||
      (u.bio.Some? && exists k :: OccursAtIgnoringCase(u.bio.value, q, k))
  {
    IncludesIgnoringCase(u.username, q);
    if u.bio.Some? then
      IncludesIgnoringCase(u.bio.value, q);
      Includes(ToLower(u.username), ToLower(q)) || Includes(ToLower(u.bio.value), ToLower(q))
    else
      Includes(ToLower(u.username), ToLower(q))
  }

  function Matches(q: string): SearchUser -> bool
  {
    (u: SearchUser) => MatchesQuery(u, q)
  }

  /** The shown list: everyone for a blank query, otherwise exactly the
      matching users, in the list's order. */
  function FilteredUsers(users: seq<SearchUser>, q: string): (r: seq<SearchUser>)
    ensures IsSubsequence(r, users)
    ensures IsBlank(q) ==> r == users
    ensures !IsBlank(q) ==> forall u :: u in r ==> MatchesQuery(u, q)
    ensures !IsBlank(q) ==> forall i :: 0 <= i < |users| && MatchesQuery(users[i], q) ==> users[i] in r
    ensures !IsBlank(q) ==>
      forall u :: multiset(r)[u] == if MatchesQuery(u, q) then multiset(users)[u] else 0
  {
    if IsBlank(q) then
      SubsequenceReflexive(users);
      users
    else
      FilterMultiset(users, Matches(q));
      Filter(users, Matches(q))
  }

  /** The query's case does not matter: lower- or upper-casing it first
      shows the same list. */
  lemma QueryCaseIgnored(users: seq<SearchUser>, q: string)
    ensures FilteredUsers(users, ToLower(q)) == FilteredUsers(users, q)
    ensures FilteredUsers(users, ToUpper(q)) == FilteredUsers(users, q)
  {
    ToLowerKeepsBlank(q);
    ToLowerKeepsBlank(ToUpper(q));
    ToLowerOfUpper(q);
    forall i | 0 <= i < |users|
      ensures Matches(ToLower(q))(users[i]) == Matches(q)(users[i])
      ensures Matches(ToUpper(q))(users[i]) == Matches(q)(users[i])
    {
      QueryCaseIgnoredByOne(users[i], q);
    }
    FilterCongruent(users, Matches(ToLower(q)), Matches(q));
    FilterCongruent(users, Matches(ToUpper(q)), Matches(q));
  }

  lemma QueryCaseIgnoredByOne(u: SearchUser, q: string)
    ensures MatchesQuery(u, ToLower(q)) == MatchesQuery(u, q)
    ensures MatchesQuery(u, ToUpper(q)) == MatchesQuery(u, q)
  {
    ToLowerIdempotent(q);
    ToLowerOfUpper(q);
  }

  /** The fields' case does not matter either. */
  lemma FieldCaseIgnored(u: SearchUser, q: string)
    ensures MatchesQuery(u.(username := ToLower(u.username)), q) == MatchesQuery(u, q)
    ensures MatchesQuery(u.(username := ToUpper(u.username)), q) == MatchesQuery(u, q)
    ensures u.bio.Some? ==>
      MatchesQuery(u.(bio := Some(ToUpper(u.bio.value))), q) == MatchesQuery(u, q)
  {
    ToLowerIdempotent(u.username);
    ToLowerOfUpper(u.username);
    if u.bio.Some? {
      ToLowerOfUpper(u.bio.value);
    }
  }

  /** A user without a bio matches through the username alone. */
  lemma NoBioMatchesByName(u: SearchUser, q: string)
    requires u.bio.None?
    ensures MatchesQuery(u, q) <==> Includes(ToLower(u.username), ToLower(q))
  {
  }

  /** A non-blank query is not trimmed: a query that starts with a space
      only matches a user whose username or bio holds a space. */
  lemma LeadingSpaceIsSearched(u: SearchUser, q: string)
    requires q != [] && q[0] == ' '
    requires MatchesQuery(u, q)
    ensures ' ' in u.username || (u.bio.Some? && ' ' in u.bio.value)
  {
    if Includes(ToLower(u.username), ToLower(q)) {
      SpaceFound(u.username, q);
    } else {
      SpaceFound(u.bio.value, q);
    }
  }

  lemma SpaceFound(field: string, q: string)
    requires q != [] && q[0] == ' '
    requires Includes(ToLower(field), ToLower(q))
    ensures ' ' in field
  {
    IncludesIffOccurs(ToLower(field), ToLower(q));
    var k :| OccursAt(ToLower(field), ToLower(q), k);
    assert ToLower(field)[k] == ToLower(q)[0] == ' ';
    assert field[k] == ' ';
  }

  /** No mock username holds a space, so a query such as " sarah" finds
      nobody by name, while "sarah" finds sarah.design. */
  lemma UntrimmedQueryExample()
    ensures MatchesQuery(MockUsers[0], "sarah")
    ensures !Includes(ToLower(MockUsers[0].username), ToLower(" sarah"))
  {
    assert StartsWith(ToLower("sarah.design"), ToLower("sarah"));
    assert ' ' !in MockUsers[0].username;
    if Includes(ToLower(MockUsers[0].username), ToLower(" sarah")) {
      SpaceFound(MockUsers[0].username, " sarah");
      assert false;
    }
  }

  /** The query `handleClearSearch` sets. */
  function ClearedQuery(): (q: string)
    ensures IsBlank(q)
  {
    ""
  }

  /** After clearing the search every user is shown again, in order. */
  lemma ClearShowsAll(users: seq<SearchUser>)
    ensures FilteredUsers(users, ClearedQuery()) == users
  {
  }
}
