/** The follow-requests page: a list of pending requests (mock data) with
    accept and decline buttons, both of which drop the request from the
    list, and a header counting what is left. */
module Requests {
  import opened Wrappers
  import opened Seqs
  import opened Text
  import opened Toasts

  /** A pending request; the avatar URL and the "time ago" text are display-only. */
  datatype Request = Request(id: string, username: string)

  const InitialRequests: seq<Request> := [
    Request("1", "photo.wanderer"),
    Request("2", "nature.explorer"),
    Request("3", "sunset.chaser"),
    Request("4", "mountain.vibes")
  ]

  /** `requests.find(r => r.id === id)`: the first request with that id. */
  function Find(rs: seq<Request>, id: string): (r: Option<Request>)
    ensures r.None? <==> forall k :: 0 <= k < |rs| ==> rs[k].id != id
    ensures r.Some? ==> exists k :: 0 <= k < |rs| && rs[k] == r.value && r.value.id == id &&
                                    forall j :: 0 <= j < k ==> rs[j].id != id
  {
    if rs == [] then None
    else if rs[0].id == id then Some(rs[0])
    else
      var r := Find(rs[1..], id);
      if r.Some? then
        var k :| 0 <= k < |rs[1..]| && rs[1..][k] == r.value && r.value.id == id &&
                 forall j :: 0 <= j < k ==> rs[1..][j].id != id;
        assert rs[k + 1] == r.value;
        r
      else r
  }

  /** The row filter `r.id !== id`. */
  function OtherThan(id: string): Request -> bool
  {
    (r: Request) => r.id != id
  }

  /** The list without any request carrying `id`, the others in their order. */
  function RemoveRequest(rs: seq<Request>, id: string): (r: seq<Request>)
    ensures IsSubsequence(r, rs)
    ensures forall x :: x in r ==> x.id != id
    ensures forall x :: x in rs && x.id != id ==> x in r
    ensures forall x :: multiset(r)[x] == if x.id != id then multiset(rs)[x] else 0
  {
    FilterMultiset(rs, OtherThan(id));
    Filter(rs, OtherThan(id))
  }

  /** An id the list does not hold leaves it as it is. */
  lemma RemoveAbsent(rs: seq<Request>, id: string)
    requires Find(rs, id).None?
    ensures RemoveRequest(rs, id) == rs
  {
    FilterKeepsAll(rs, OtherThan(id));
  }

  /** How `${user?.username}` reads: the name, or "undefined" when no
      request had the id. */
  function Shown(user: Option<Request>): string
  {
    if user.Some? then user.value.username else "undefined"
  }

  /** The accept and decline notices name the first request with the clicked
      id, and read "undefined" when the list holds none. */
  lemma NoticeNamesRequester(rs: seq<Request>, id: string, i: int)
    requires 0 <= i < |rs| && rs[i].id == id
    requires forall j :: 0 <= j < i ==> rs[j].id != id
    ensures Shown(Find(rs, id)) == rs[i].username
  {
    assert Find(rs, id).Some?;
    var k :| 0 <= k < |rs| && rs[k] == Find(rs, id).value &&
             forall j :: 0 <= j < k ==> rs[j].id != id;
    assert !(k < i) && !(i < k);
  }

  /** The header: the count, " pending request", and a plural "s" unless
      exactly one is pending. */
  function PendingHeader(n: nat): (h: string)
    ensures |h| > |DecimalString(n)| && h[..|DecimalString(n)|] == DecimalString(n)
    ensures h[|h| - 1] == 's' <==> n != 1
  {
    DecimalString(n) + " pending request" + (if n != 1 then "s" else "")
  }

  /** The header's leading digits read back as the count, and stop at the space. */
  lemma PendingHeaderShowsCount(n: nat)
    ensures var d := |DecimalString(n)|;
            IsDigits(PendingHeader(n)[..d]) && DigitsValue(PendingHeader(n)[..d]) == n &&
            PendingHeader(n)[d] == ' '
  {
    DecimalRoundTrip(n);
  }

  /** The list after a run of accepts or declines with the given ids. */
  function RemoveAll(rs: seq<Request>, ids: seq<string>): seq<Request>
    decreases ids
  {
    if ids == [] then rs else RemoveAll(RemoveRequest(rs, ids[0]), ids[1..])
  }

  /** Whatever the buttons pressed, the list only shrinks: the result is an
      order-preserving sub-list of the start and holds none of the ids. */
  lemma {:induction false} RemovalsShrink(rs: seq<Request>, ids: seq<string>)
    ensures IsSubsequence(RemoveAll(rs, ids), rs)
    ensures forall x :: x in RemoveAll(rs, ids) ==> x.id !in ids
    decreases ids
  {
    if ids == [] {
      SubsequenceReflexive(rs);
    } else {
      var rest := RemoveRequest(rs, ids[0]);
      RemovalsShrink(rest, ids[1..]);
      SubsequenceTransitive(RemoveAll(rest, ids[1..]), rest, rs);
      forall x | x in RemoveAll(rs, ids)
        ensures x.id !in ids
      {
        SubsequenceShrinks(RemoveAll(rest, ids[1..]), rest);
        assert ids == [ids[0]] + ids[1..];
      }
    }
  }

  class RequestsPage {
    var requests: seq<Request>

    constructor ()
      ensures requests == InitialRequests
    {
      requests := InitialRequests;
    }

    function Header(): string
      reads this
    {
      PendingHeader(|requests|)
    }

    method HandleAccept(id: string) returns (notice: Toast)
      modifies this
      ensures requests == RemoveRequest(old(requests), id)
      ensures notice == Success("You accepted " + Shown(Find(old(requests), id)) + "'s request")
    {
      var user := Find(requests, id);
      requests := RemoveRequest(requests, id);
      notice := Success("You accepted " + Shown(user) + "'s request");
    }

    /** The same change to the list as `HandleAccept`; only the notice differs. */
    method HandleDecline(id: string) returns (notice: Toast)
      modifies this
      ensures requests == RemoveRequest(old(requests), id)
      ensures notice == Info("Declined " + Shown(Find(old(requests), id)) + "'s request")
    {
      var user := Find(requests, id);
      requests := RemoveRequest(requests, id);
      notice := Info("Declined " + Shown(user) + "'s request");
    }
  }
}
