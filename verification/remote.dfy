/** The remote services as the job sees them. Every request is answered by
    an abstract reply, `Ok(data)` or `Err` (a non-2xx status, a transport
    failure or a reply whose shape makes the job throw); the replies of one
    run are supplied together as an `Env`. The requests the job issues are
    recorded, in order, as `Call`s. */
module Remote {
  import opened Values
  import opened Videos

  datatype Reply<+T> = Ok(data: T) | Err

  /** Results per playlist page and page size requested. */
  const PlaylistPageSize: nat := 50
  /** Results requested per channel search. */
  const SearchMaxResults: nat := 25
  /** The recency window: three days, in seconds. */
  const RecencyWindow: int := 3 * 24 * 60 * 60

  /** One page of the target playlist: the video ids (the `items` field may
      be absent) and the cursor of the next page. */
  datatype Page = Page(items: Option<seq<Id>>, nextPageToken: Option<string>)

  /** A search reply: for each item, its `id.videoId`, possibly absent. */
  datatype SearchPage = SearchPage(items: Option<seq<Option<Id>>>)

  /** A details reply: the videos, the `items` field possibly absent. */
  datatype DetailsPage = DetailsPage(items: Option<seq<Video>>)

  /** A request issued by the job. */
  datatype Call =
    | RefreshToken
    | ListPlaylistPage(pageToken: Option<string>, maxResults: nat)
    | SearchChannel(channelId: Option<string>, publishedAfter: int, maxResults: nat)
    | FetchDetails(ids: seq<Id>)
    | InsertAt(videoId: Id, position: nat)

  /** The replies the remote services give during one run.
      - `refresh`: the token endpoint's reply, carrying `access_token`;
      - `pages`: the replies to the successive playlist page requests; a
        request beyond the last supplied reply fails;
      - `search`, `details`: the replies to the search and details
        requests made for the configuration entry at a given position;
      - `insertOk`: whether inserting a given video succeeds;
      - `now`: the clock at the start of the run (seconds). */
  datatype Env = Env(
    refresh: Reply<Option<string>>,
    pages: seq<Reply<Page>>,
    search: nat -> Reply<SearchPage>,
    details: nat -> Reply<DetailsPage>,
    insertOk: Id -> bool,
    now: int)

  /** The channel ids of the search requests in a trace, in order. */
  function Searched(calls: seq<Call>): (r: seq<Option<string>>)
    ensures |r| <= |calls|
  {
    if calls == [] then []
    else (if calls[0].SearchChannel? then [calls[0].channelId] else []) + Searched(calls[1..])
  }

  /** The video ids of the insert requests in a trace, in order. */
  function Inserted(calls: seq<Call>): (r: seq<Id>)
    ensures |r| <= |calls|
  {
    if calls == [] then []
    else (if calls[0].InsertAt? then [calls[0].videoId] else []) + Inserted(calls[1..])
  }

  lemma {:induction false} SearchedAppend(a: seq<Call>, b: seq<Call>)
    ensures Searched(a + b) == Searched(a) + Searched(b)
  {
    if a != [] {
      assert (a + b)[1..] == a[1..] + b;
      SearchedAppend(a[1..], b);
    } else {
      assert a + b == b;
    }
  }

  lemma {:induction false} InsertedAppend(a: seq<Call>, b: seq<Call>)
    ensures Inserted(a + b) == Inserted(a) + Inserted(b)
  {
    if a != [] {
      assert (a + b)[1..] == a[1..] + b;
      InsertedAppend(a[1..], b);
    } else {
      assert a + b == b;
    }
  }
}
