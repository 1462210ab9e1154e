/** `exports.handler` of the scheduled job, with every remote call an
    abstract reply taken from an `Env`: the precondition check, the
    configuration check, the fatal token refresh, the degradable playlist
    snapshot, the per-channel fold (search, details, filter chain,
    de-duplication) and the publish loop. */
module Handler {
  import opened Values
  import opened Seqs
  import opened Videos
  import opened Remote
  import opened Filters
  import opened Dedup
  import opened Publish
  import opened Snapshot

  /** The environment variables the job reads. */
  datatype Settings = Settings(
    channelsConfigJson: Option<string>,
    targetPlaylistId: Option<string>,
    refreshToken: Option<string>,
    clientId: Option<string>,
    clientSecret: Option<string>,
    apiKey: Option<string>)

  /** Every essential setting is truthy. */
  predicate SettingsPresent(s: Settings) {
    && Truthy(s.channelsConfigJson) && Truthy(s.targetPlaylistId) && Truthy(s.refreshToken)
    && Truthy(s.clientId) && Truthy(s.clientSecret) && Truthy(s.apiKey)
  }

  /** The result of `JSON.parse` on the channels configuration: not JSON,
      JSON but not an array, or an array whose elements are rules or
      `null` (`None`). */
  datatype Config = Unparsable | NotAnArray | Entries(entries: seq<Option<ChannelRule>>)

  datatype Message = MissingSettings | InvalidConfig | TaskFailed | Completed

  /** What a run returns, together with the requests it issued and the
      block of videos it placed at the top of the playlist, top first. */
  datatype Report = Report(statusCode: int, message: Message, calls: seq<Call>, top: seq<Video>)

  /** `items.map(item => item.id.videoId).filter(id => id)`. */
  function SearchIds(items: seq<Option<Id>>): (ids: seq<Id>)
    ensures forall id :: id in ids <==> id != "" && Some(id) in items
  {
    if items == [] then []
    else
      assert forall o :: o in items <==> o == items[0] || o in items[1..];
      (if Truthy(items[0]) then [items[0].value] else []) + SearchIds(items[1..])
  }

  /** The videos of the details reply for entry `i`, if it succeeded. */
  function DetailsOf(i: nat, env: Env): seq<Video> {
    if env.details(i).Ok? then env.details(i).data.items.GetOr([]) else []
  }

  /** The channel at position `i` yields no candidate before filtering: its
      search failed or found no usable id, or its details request failed. */
  predicate ChannelFails(i: nat, env: Env) {
    || env.search(i).Err?
    || SearchIds(env.search(i).data.items.GetOr([])) == []
    || env.details(i).Err?
  }

  datatype Discovery = Discovery(calls: seq<Call>, found: seq<Video>)

  /** Steps A to C for one channel: search, details, filter chain. A failing
      request ends the channel's work with nothing found. */
  function Discover(i: nat, rule: ChannelRule, env: Env, cutoff: int): (d: Discovery)
    ensures Searched(d.calls) == [rule.channelId] && Inserted(d.calls) == []
    ensures d.calls[0] == SearchChannel(rule.channelId, cutoff, SearchMaxResults)
    ensures ChannelFails(i, env) ==> d.found == []
    ensures !ChannelFails(i, env) ==> d.found == FilterChain(rule, DetailsOf(i, env))
  {
    var search := [SearchChannel(rule.channelId, cutoff, SearchMaxResults)];
    assert Searched(search) == [rule.channelId] && Inserted(search) == [];
    match env.search(i)
    case Err => Discovery(search, [])
    case Ok(page) =>
      var ids := SearchIds(page.items.GetOr([]));
      if ids == [] then Discovery(search, [])
      else
        var calls := search + [FetchDetails(ids)];
        assert calls[1..] == [FetchDetails(ids)];
        match env.details(i)
        case Err => Discovery(calls, [])
        case Ok(details) => Discovery(calls, FilterChain(rule, details.items.GetOr([])))
  }

  /** What a channel that does not fail yields: the videos of its details
      reply that pass its rule, in reply order. */
  lemma DiscoverFinds(i: nat, rule: ChannelRule, env: Env, cutoff: int)
    requires !ChannelFails(i, env)
    ensures IsSubsequence(Discover(i, rule, env, cutoff).found, DetailsOf(i, env))
    ensures forall v :: v in Discover(i, rule, env, cutoff).found <==> v in DetailsOf(i, env) && PassesRule(rule, v)
  {
  }

  /** The state of the channel loop: still running with its trace, the
      membership set and the accepted videos, or aborted by an exception
      outside the per-channel `try`. */
  datatype Progress =
    | Running(calls: seq<Call>, seen: set<Id>, added: seq<Video>)
    | Aborted(calls: seq<Call>)

  /** What each configuration entry yields when the loop reaches it: the
      requests and the filtered videos of its channel, or `None` for a
      `null` entry. A channel's work depends only on its own entry and on
      the replies for its position, never on the loop's state, so it is
      computed here once per entry; the loop below decides which entries
      are reached. */
  function Outcomes(entries: seq<Option<ChannelRule>>, env: Env, cutoff: int): (os: seq<Option<Discovery>>)
    ensures |os| == |entries|
    ensures forall i :: 0 <= i < |entries| ==> os[i].Some? == entries[i].Some?
    ensures forall i :: 0 <= i < |entries| && entries[i].Some? ==> os[i].value == Discover(i, entries[i].value, env, cutoff)
  {
    seq(|entries|, i requires 0 <= i < |entries| =>
      if entries[i].Some? then Some(Discover(i, entries[i].value, env, cutoff)) else None)
  }

  /** The loop over the entries' outcomes from position `from` on: each
      channel's requests join the trace and its videos go through
      de-duplication. A `null` entry makes the log line before the
      per-channel `try` throw, which aborts the whole run. */
  function Channels(os: seq<Option<Discovery>>, from: nat, calls: seq<Call>, seen: set<Id>, added: seq<Video>): Progress
    decreases |os| - from
  {
    if from >= |os| then Running(calls, seen, added)
    else
      match os[from]
      case None => Aborted(calls)
      case Some(d) =>
        var a := Deduplicate(d.found, seen);
        Channels(os, from + 1, calls + d.calls, a.seen, added + a.added)
  }

  /** The handler. */
  function Run(settings: Settings, config: Config, env: Env): (r: Report)
    ensures r.statusCode == 200 <==> r.message == Completed
    ensures r.statusCode == 200 || r.statusCode == 500
  {
    if !SettingsPresent(settings) then Report(500, MissingSettings, [], [])
    else if !config.Entries? then Report(500, InvalidConfig, [], [])
    else if env.refresh.Err? then Report(500, TaskFailed, [RefreshToken], [])
    else Finish(ChannelLoop(Outcomes(config.entries, env, env.now - RecencyWindow), TakeSnapshot(env.refresh.data, env.pages)), env)
  }

  /** After a successful refresh and the snapshot `snap`: the channel loop
      over the outcomes `os`, started from the snapshot's membership set
      with the refresh and the page reads already in the trace. The run
      searches back `RecencyWindow` seconds from its clock. */
  function ChannelLoop(os: seq<Option<Discovery>>, snap: Membership): Progress
  {
    Channels(os, 0, [RefreshToken] + snap.calls, snap.seen, [])
  }

  /** The end of a run: an aborted loop fails the run; otherwise the
      accepted videos are sorted oldest first and inserted one by one. */
  function Finish(p: Progress, env: Env): (r: Report)
    requires env.refresh.Ok?
    ensures r.statusCode == 200 <==> r.message == Completed
    ensures r.statusCode == 200 || r.statusCode == 500
    ensures r.statusCode == 200 <==> p.Running?
    ensures p.Aborted? ==> r.calls == p.calls && r.top == []
  {
    match p
    case Aborted(calls) => Report(500, TaskFailed, calls, [])
    case Running(calls, _, added) =>
      var published := InsertAll(SortByDate(added), env.refresh.data, env.insertOk, []);
      Report(200, Completed, calls + published.calls, published.top)
  }
}
