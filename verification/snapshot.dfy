/** The membership snapshot: the ids of the target playlist, read page by
    page following `nextPageToken` until it is falsy. The ids go into the
    set only once the whole loop has succeeded; if any page request fails
    the snapshot degrades to the empty set and the run goes on. */
module Snapshot {
  import opened Values
  import opened Videos
  import opened Remote

  /** The ids of one page reply (an absent `items` field contributes none). */
  function PageIds(p: Reply<Page>): seq<Id> {
    if p.Ok? then p.data.items.GetOr([]) else []
  }

  /** The ids of consecutive page replies, concatenated in order. */
  function AllIds(ps: seq<Reply<Page>>): seq<Id> {
    if ps == [] then [] else PageIds(ps[0]) + AllIds(ps[1..])
  }

  /** The first `n` page replies are a complete listing: all succeeded, each
      but the last carried a truthy cursor, and the last carried none. */
  predicate Completes(pages: seq<Reply<Page>>, n: nat) {
    && 1 <= n <= |pages|
    && (forall j :: 0 <= j < n ==> pages[j].Ok?)
    && (forall j :: 0 <= j < n - 1 ==> Truthy(pages[j].data.nextPageToken))
    && !Truthy(pages[n - 1].data.nextPageToken)
  }

  datatype Listing = Listing(calls: seq<Call>, ids: Reply<seq<Id>>)

  /** The `do … while (nextPageToken)` loop from the request carrying
      `token` on: one request per reply consumed; the first failure ends the
      loop with `Err`. */
  function Collect(pages: seq<Reply<Page>>, token: Option<string>): (r: Listing)
    ensures 1 <= |r.calls| <= |pages| + 1
    ensures r.calls[0] == ListPlaylistPage(token, PlaylistPageSize)
    ensures forall c :: c in r.calls ==> c.ListPlaylistPage?
    decreases |pages|
  {
    var call := ListPlaylistPage(token, PlaylistPageSize);
    if pages == [] then Listing([call], Err)
    else
      match pages[0]
      case Err => Listing([call], Err)
      case Ok(p) =>
        var items := p.items.GetOr([]);
        if Truthy(p.nextPageToken) then
          var rest := Collect(pages[1..], p.nextPageToken);
          Listing([call] + rest.calls, if rest.ids.Ok? then Ok(items + rest.ids.data) else Err)
        else
          Listing([call], Ok(items))
  }

  /** Each request after the first carries the cursor of the reply before
      it, and that reply succeeded. */
  lemma {:induction false} CollectFollowsCursor(pages: seq<Reply<Page>>, token: Option<string>)
    ensures var r := Collect(pages, token);
      forall j :: 0 <= j < |r.calls| - 1 ==>
        pages[j].Ok? && r.calls[j + 1] == ListPlaylistPage(pages[j].data.nextPageToken, PlaylistPageSize)
    decreases |pages|
  {
    var r := Collect(pages, token);
    if pages != [] && pages[0].Ok? && Truthy(pages[0].data.nextPageToken) {
      var next := pages[0].data.nextPageToken;
      var rest := Collect(pages[1..], next);
      CollectFollowsCursor(pages[1..], next);
      forall j | 0 <= j < |r.calls| - 1
        ensures pages[j].Ok? && r.calls[j + 1] == ListPlaylistPage(pages[j].data.nextPageToken, PlaylistPageSize)
      {
        if j > 0 {
          assert pages[1..][j - 1] == pages[j];
          assert r.calls[j + 1] == rest.calls[j];
        }
      }
    }
  }

  /** The listing succeeds exactly when the replies hold a complete
      listing; it then made one request per page and returns their ids in
      page order. */
  lemma {:induction false} CollectMeaning(pages: seq<Reply<Page>>, token: Option<string>)
    ensures Collect(pages, token).ids.Ok? ==>
      && Completes(pages, |Collect(pages, token).calls|)
      && Collect(pages, token).ids.data == AllIds(pages[..|Collect(pages, token).calls|])
    ensures forall n: nat :: Completes(pages, n) ==> Collect(pages, token).ids.Ok? && |Collect(pages, token).calls| == n
    decreases |pages|
  {
    var r := Collect(pages, token);
    if pages != [] && pages[0].Ok? && Truthy(pages[0].data.nextPageToken) {
      var next := pages[0].data.nextPageToken;
      var rest := Collect(pages[1..], next);
      CollectMeaning(pages[1..], next);
      if r.ids.Ok? {
        var n := |rest.calls|;
        assert Completes(pages[1..], n);
        assert pages[..n + 1] == [pages[0]] + pages[1..][..n];
        assert Completes(pages, n + 1);
      }
      forall n: nat | Completes(pages, n)
        ensures r.ids.Ok? && |r.calls| == n
      {
        assert Completes(pages[1..], n - 1);
      }
    } else if pages != [] && pages[0].Ok? {
      assert pages[..1] == [pages[0]];
      assert Completes(pages, 1);
    }
  }

  datatype Membership = Membership(calls: seq<Call>, seen: set<Id>)

  /** Step 2 of the handler: the snapshot of playlist membership. Without a
      truthy access token the first request throws before it is issued. */
  function TakeSnapshot(token: Option<string>, pages: seq<Reply<Page>>): (r: Membership)
    ensures !Truthy(token) ==> r == Membership([], {})
    ensures forall c :: c in r.calls ==> c.ListPlaylistPage?
  {
    if !Truthy(token) then Membership([], {})
    else
      var listing := Collect(pages, None);
      Membership(listing.calls, if listing.ids.Ok? then set id | id in listing.ids.data else {})
  }

  /** With a token, a complete listing of `n` pages yields exactly the ids
      on those pages after `n` requests; without a complete listing the
      membership set is empty. */
  lemma SnapshotMeaning(token: Option<string>, pages: seq<Reply<Page>>)
    requires Truthy(token)
    ensures forall n: nat :: Completes(pages, n) ==>
      TakeSnapshot(token, pages).seen == (set id | id in AllIds(pages[..n])) && |TakeSnapshot(token, pages).calls| == n
    ensures (forall n: nat :: !Completes(pages, n)) ==> TakeSnapshot(token, pages).seen == {}
  {
    CollectMeaning(pages, None);
  }
}
