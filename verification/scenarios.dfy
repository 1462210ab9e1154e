/** Concrete runs of the job: an empty configuration, one channel whose
    two videos are half known already, and three videos published one
    after another. */
module Scenarios {
  import opened Values
  import opened Seqs
  import opened Videos
  import opened Remote
  import opened Filters
  import opened Dedup
  import opened Publish
  import opened Snapshot
  import opened Handler
  import opened Properties

  /** With no channel rule the run still refreshes and reads the playlist,
      then succeeds without searching or inserting anything. */
  lemma NoRulesNoSearch(settings: Settings, env: Env)
    requires SettingsPresent(settings) && env.refresh.Ok?
    ensures Run(settings, Entries([]), env).statusCode == 200
    ensures Searched(Run(settings, Entries([]), env).calls) == []
    ensures Inserted(Run(settings, Entries([]), env).calls) == []
  {
    var snap := TakeSnapshot(env.refresh.data, env.pages);
    var os := Outcomes([], env, env.now - RecencyWindow);
    EveryChannelSearched(settings, [], env);
    LoopInvariant(os, snap);
    FinishNothing(ChannelLoop(os, snap), env);
    RunLoops(settings, Entries([]), env);
  }

  /** A loop that accepted nothing publishes nothing. */
  lemma FinishNothing(p: Progress, env: Env)
    requires env.refresh.Ok? && p.Running? && p.added == []
    ensures Finish(p, env).calls == p.calls
  {
    assert SortByDate([]) == [];
    assert p.calls + [] == p.calls;
  }

  /** A loop that accepted only `b` publishes `b` with one insert. */
  lemma FinishOne(p: Progress, env: Env, b: Video)
    requires env.refresh.Ok? && Truthy(env.refresh.data) && p.Running? && p.added == [b]
    ensures Finish(p, env).calls == p.calls + [InsertAt(b.id, 0)]
  {
    assert SortByDate([b]) == [b] by {
      assert [b][1..] == [];
    }
    assert InsertAll([b], env.refresh.data, env.insertOk, []).calls == [InsertAt(b.id, 0)];
  }

  /** Of two videos, the one whose id is already known is skipped. */
  lemma SkipKnown(a: Video, b: Video, seen: set<Id>)
    requires a.id in seen && b.id !in seen
    ensures Deduplicate([a, b], seen).added == [b]
  {
    assert [a, b][1..] == [b];
    assert Deduplicate([b], seen).added == [b] + [];
  }

  /** A loop over a single outcome `d` makes its requests and accepts what
      de-duplication against the snapshot lets through. */
  lemma LoopOverOne(os: seq<Option<Discovery>>, snap: Membership, d: Discovery)
    requires os == [Some(d)]
    ensures ChannelLoop(os, snap)
         == Running([RefreshToken] + snap.calls + d.calls, Deduplicate(d.found, snap.seen).seen, Deduplicate(d.found, snap.seen).added)
  {
    var a := Deduplicate(d.found, snap.seen);
    var start := [RefreshToken] + snap.calls;
    assert Channels(os, 1, start + d.calls, a.seen, [] + a.added) == Running(start + d.calls, a.seen, [] + a.added);
    assert [] + a.added == a.added;
  }

  /** One channel with no filter whose search finds `a` and `b`, where the
      playlist already holds `a` and not `b`: the run succeeds and makes
      exactly one insert request, for `b`. */
  lemma OneOfTwoAlreadyPresent(settings: Settings, channelId: Option<string>, env: Env, a: Video, b: Video)
    requires SettingsPresent(settings) && env.refresh.Ok? && Truthy(env.refresh.data)
    requires a.id != "" && b.id != "" && a.id != b.id
    requires env.pages == [Ok(Page(Some([a.id]), None))]
    requires env.search(0) == Ok(SearchPage(Some([Some(a.id), Some(b.id)])))
    requires env.details(0) == Ok(DetailsPage(Some([a, b])))
    ensures Run(settings, Entries([Some(ChannelRule(channelId, None, None, None, None))]), env).statusCode == 200
    ensures Inserted(Run(settings, Entries([Some(ChannelRule(channelId, None, None, None, None))]), env).calls) == [b.id]
  {
    var rule := ChannelRule(channelId, None, None, None, None);
    OnePageSnapshot(env.refresh.data, a.id);
    NoFilterKeepsAll(rule, [a, b]);
    assert a.id in SearchIds([Some(a.id), Some(b.id)]);
    OneChannelOneNew(settings, rule, env, a, b);
  }

  /** A playlist of one page, holding `id` and no cursor, gives the
      known set `{id}`. */
  lemma OnePageSnapshot(token: Option<string>, id: Id)
    requires Truthy(token)
    ensures TakeSnapshot(token, [Ok(Page(Some([id]), None))]).seen == {id}
  {
    var pages := [Ok(Page(Some([id]), None))];
    assert Collect(pages, None).ids == Ok([id]);
  }

  /** A rule with no keyword string and no bound keeps every video. */
  lemma NoFilterKeepsAll(rule: ChannelRule, vs: seq<Video>)
    requires rule.keywords.None? && rule.negativeKeywords.None?
    requires rule.minDuration.None? && rule.maxDuration.None?
    ensures FilterChain(rule, vs) == vs
  {
  }

  /** The same run stated over any environment whose one channel searches
      successfully and whose filtered videos are `a`, known, then `b`, new. */
  lemma OneChannelOneNew(settings: Settings, rule: ChannelRule, env: Env, a: Video, b: Video)
    requires SettingsPresent(settings) && env.refresh.Ok? && Truthy(env.refresh.data)
    requires !ChannelFails(0, env) && FilterChain(rule, DetailsOf(0, env)) == [a, b]
    requires a.id in TakeSnapshot(env.refresh.data, env.pages).seen
    requires b.id !in TakeSnapshot(env.refresh.data, env.pages).seen
    ensures Run(settings, Entries([Some(rule)]), env).statusCode == 200
    ensures Inserted(Run(settings, Entries([Some(rule)]), env).calls) == [b.id]
  {
    var snap := TakeSnapshot(env.refresh.data, env.pages);
    var os := Outcomes([Some(rule)], env, env.now - RecencyWindow);
    var d := Discover(0, rule, env, env.now - RecencyWindow);
    assert os == [Some(d)];
    KeepsOnlyNew(os, snap, d, a, b);
    var p := ChannelLoop(os, snap);
    FinishOne(p, env, b);
    InsertedAppend(p.calls, [InsertAt(b.id, 0)]);
    RunLoops(settings, Entries([Some(rule)]), env);
  }

  /** A loop over one outcome finding `a`, already known, then `b`, new,
      accepts `b` alone and issues no insert. */
  lemma KeepsOnlyNew(os: seq<Option<Discovery>>, snap: Membership, d: Discovery, a: Video, b: Video)
    requires os == [Some(d)] && d.found == [a, b] && Inserted(d.calls) == []
    requires forall c :: c in snap.calls ==> c.ListPlaylistPage?
    requires a.id in snap.seen && b.id !in snap.seen
    ensures ChannelLoop(os, snap).Running? && ChannelLoop(os, snap).added == [b]
    ensures Inserted(ChannelLoop(os, snap).calls) == []
  {
    SkipKnown(a, b, snap.seen);
    LoopOverOne(os, snap, d);
    LoopPrefix(snap);
    InsertedAppend([RefreshToken] + snap.calls, d.calls);
  }

  /** Three accepted videos published at T1 < T2 < T3, found in any order
      `s`: after sorting and inserting each at the head, with every insert
      succeeding, the playlist's top reads T3, T2, T1. */
  lemma ThreeNewestOnTop(s: seq<Video>, a: Video, b: Video, c: Video, token: Option<string>, insertOk: Id -> bool)
    requires multiset(s) == multiset{a, b, c}
    requires a.publishedAt < b.publishedAt < c.publishedAt
    requires Truthy(token) && insertOk(a.id) && insertOk(b.id) && insertOk(c.id)
    ensures InsertAll(SortByDate(s), token, insertOk, []).top == [c, b, a]
  {
    SortByDateSorts(s);
    AscendingThree(SortByDate(s), a, b, c);
    FilterKeepsAll([a, b, c], Succeeds(token, insertOk));
    InsertAllStack([a, b, c], token, insertOk, []);
    ReverseThree(a, b, c);
  }

  /** The only ascending arrangement of three videos with distinct publish
      times. */
  lemma AscendingThree(t: seq<Video>, a: Video, b: Video, c: Video)
    requires SortedAscending(t) && multiset(t) == multiset{a, b, c}
    requires a.publishedAt < b.publishedAt < c.publishedAt
    ensures t == [a, b, c]
  {
    assert |t| == 3 by {
      assert |multiset(t)| == |t|;
    }
    assert t[0] in multiset(t) && t[1] in multiset(t) && t[2] in multiset(t);
    assert a in multiset(t) && b in multiset(t) && c in multiset(t);
    assert a in t && b in t && c in t;
  }

  lemma ReverseThree<T>(a: T, b: T, c: T)
    ensures Reverse([a, b, c]) + [] == [c, b, a]
  {
    var r := Reverse([a, b, c]);
    assert r[0] == c && r[1] == b && r[2] == a;
    assert r + [] == r;
  }
}
