/** What a run of the handler guarantees: which failures are fatal and
    which are isolated, that every channel is searched, and that no video
    id already in the playlist, or accepted earlier in the run, is ever
    submitted for insertion twice. */
module Properties {
  import opened Values
  import opened Seqs
  import opened Videos
  import opened Remote
  import opened Filters
  import opened Dedup
  import opened Publish
  import opened Snapshot
  import opened Handler

  /** The channel ids of the rule entries at positions `lo` to `hi` - 1,
      in order (null entries have none). */
  function RuleIds(entries: seq<Option<ChannelRule>>, lo: nat, hi: nat): seq<Option<string>>
    requires hi <= |entries|
    decreases hi - lo
  {
    if lo >= hi then []
    else (if entries[lo].Some? then [entries[lo].value.channelId] else []) + RuleIds(entries, lo + 1, hi)
  }

  lemma NoSearchIn(calls: seq<Call>)
    requires forall c :: c in calls ==> !c.SearchChannel?
    ensures Searched(calls) == []
  {
    if calls != [] {
      NoSearchIn(calls[1..]);
    }
  }

  // ---------------------------------------------------------------------
  // the channel loop

  /** The channels searched by the outcomes at positions `lo` to `hi` - 1,
      in order (null entries search none). */
  function OutcomeSearches(os: seq<Option<Discovery>>, lo: nat, hi: nat): seq<Option<string>>
    requires hi <= |os|
    decreases hi - lo
  {
    if lo >= hi then []
    else (if os[lo].Some? then Searched(os[lo].value.calls) else []) + OutcomeSearches(os, lo + 1, hi)
  }

  /** No outcome issues an insert request. */
  predicate InsertsNothing(os: seq<Option<Discovery>>) {
    forall k :: 0 <= k < |os| && os[k].Some? ==> Inserted(os[k].value.calls) == []
  }

  /** The outcomes of a run's entries search exactly the configured
      channels, each once and in order, and insert nothing. */
  lemma OutcomesSearchRules(entries: seq<Option<ChannelRule>>, env: Env, cutoff: int, lo: nat, hi: nat)
    requires hi <= |entries|
    ensures OutcomeSearches(Outcomes(entries, env, cutoff), lo, hi) == RuleIds(entries, lo, hi)
    ensures InsertsNothing(Outcomes(entries, env, cutoff))
  {
    var os := Outcomes(entries, env, cutoff);
    assert SearchesItsRule(os, entries) by {
      forall k | 0 <= k < |entries| && entries[k].Some?
        ensures Searched(os[k].value.calls) == [entries[k].value.channelId]
      {
        assert os[k].value == Discover(k, entries[k].value, env, cutoff);
      }
    }
    SearchesFollowRules(os, entries, lo, hi);
  }

  /** What the entry at position `k` yields: a rule entry searches its own
      channel alone, inserts nothing, and finds, in reply order, exactly
      the detailed videos that pass its rule, or nothing when the channel
      fails; a null entry yields no outcome. */
  lemma OutcomesMeaning(entries: seq<Option<ChannelRule>>, env: Env, cutoff: int, k: nat)
    requires k < |entries|
    ensures |Outcomes(entries, env, cutoff)| == |entries|
    ensures Outcomes(entries, env, cutoff)[k].Some? <==> entries[k].Some?
    ensures entries[k].Some? ==>
      var d := Outcomes(entries, env, cutoff)[k].value;
      && Searched(d.calls) == [entries[k].value.channelId]
      && Inserted(d.calls) == []
      && IsSubsequence(d.found, DetailsOf(k, env))
      && forall v :: v in d.found <==> !ChannelFails(k, env) && v in DetailsOf(k, env) && PassesRule(entries[k].value, v)
  {
    var os := Outcomes(entries, env, cutoff);
    if entries[k].Some? {
      var d := Discover(k, entries[k].value, env, cutoff);
      assert os[k].value == d;
      if !ChannelFails(k, env) {
        DiscoverFinds(k, entries[k].value, env, cutoff);
      }
    }
  }

  /** Each outcome belongs to the entry at its position and searches that
      entry's channel alone. */
  predicate SearchesItsRule(os: seq<Option<Discovery>>, entries: seq<Option<ChannelRule>>) {
    && |os| == |entries|
    && (forall k :: 0 <= k < |entries| ==> os[k].Some? == entries[k].Some?)
    && (forall k :: 0 <= k < |entries| && entries[k].Some? ==> Searched(os[k].value.calls) == [entries[k].value.channelId])
  }

  lemma {:induction false} SearchesFollowRules(os: seq<Option<Discovery>>, entries: seq<Option<ChannelRule>>, lo: nat, hi: nat)
    requires hi <= |entries| && SearchesItsRule(os, entries)
    ensures OutcomeSearches(os, lo, hi) == RuleIds(entries, lo, hi)
    decreases hi - lo
  {
    if lo < hi {
      SearchesFollowRules(os, entries, lo + 1, hi);
    }
  }

  /** The loop keeps the de-duplication invariant: the membership set is
      the snapshot plus the accepted ids, no accepted id repeats and none
      was in the snapshot; and a loop over outcomes that insert nothing
      issues no insert. */
  lemma {:induction false} ChannelsKeepInvariant(os: seq<Option<Discovery>>, from: nat,
                                                 calls: seq<Call>, seen: set<Id>, added: seq<Video>, snapshot: set<Id>)
    requires InsertsNothing(os)
    requires seen == snapshot + IdsOf(added) && UniqueIds(added) && IdsOf(added) !! snapshot
    requires Inserted(calls) == []
    ensures Inserted(Channels(os, from, calls, seen, added).calls) == []
    ensures Channels(os, from, calls, seen, added).Running? ==>
      var p := Channels(os, from, calls, seen, added);
      p.seen == snapshot + IdsOf(p.added) && UniqueIds(p.added) && IdsOf(p.added) !! snapshot
    decreases |os| - from
  {
    if from < |os| && os[from].Some? {
      var d := os[from].value;
      var a := Deduplicate(d.found, seen);
      InsertedAppend(calls, d.calls);
      DeduplicateKeepsOrder(d.found, seen);
      IdsOfAppend(added, a.added);
      UniqueIdsAppend(added, a.added);
      ChannelsKeepInvariant(os, from + 1, calls + d.calls, a.seen, added + a.added, snapshot);
    }
  }

  /** With no null entry, the loop never aborts and makes every outcome's
      searches, in order. */
  lemma {:induction false} ChannelsSearchAll(os: seq<Option<Discovery>>, from: nat,
                                             calls: seq<Call>, seen: set<Id>, added: seq<Video>)
    requires from <= |os|
    requires forall k :: from <= k < |os| ==> os[k].Some?
    ensures Channels(os, from, calls, seen, added).Running?
    ensures Searched(Channels(os, from, calls, seen, added).calls) == Searched(calls) + OutcomeSearches(os, from, |os|)
    decreases |os| - from
  {
    if from < |os| {
      var d := os[from].value;
      var a := Deduplicate(d.found, seen);
      SearchedAppend(calls, d.calls);
      ChannelsSearchAll(os, from + 1, calls + d.calls, a.seen, added + a.added);
      AppendAssoc(Searched(calls), Searched(d.calls), OutcomeSearches(os, from + 1, |os|));
    }
  }

  /** A null entry at position `k` aborts the loop there, after the
      outcomes before it made their searches. */
  lemma {:induction false} ChannelsAbortAtNull(os: seq<Option<Discovery>>, from: nat, k: nat,
                                               calls: seq<Call>, seen: set<Id>, added: seq<Video>)
    requires from <= k < |os| && os[k].None?
    requires forall j :: from <= j < k ==> os[j].Some?
    ensures Channels(os, from, calls, seen, added).Aborted?
    ensures Searched(Channels(os, from, calls, seen, added).calls) == Searched(calls) + OutcomeSearches(os, from, k)
    decreases k - from
  {
    if from < k {
      var d := os[from].value;
      var a := Deduplicate(d.found, seen);
      var next := Channels(os, from + 1, calls + d.calls, a.seen, added + a.added);
      assert Channels(os, from, calls, seen, added) == next;
      ChannelsAbortAtNull(os, from + 1, k, calls + d.calls, a.seen, added + a.added);
      SearchedAppend(calls, d.calls);
      AppendAssoc(Searched(calls), Searched(d.calls), OutcomeSearches(os, from + 1, k));
      assert OutcomeSearches(os, from, k) == Searched(d.calls) + OutcomeSearches(os, from + 1, k);
      assert Searched(next.calls) == Searched(calls) + OutcomeSearches(os, from, k);
    } else {
      assert Channels(os, from, calls, seen, added) == Aborted(calls);
      assert OutcomeSearches(os, from, k) == [];
      assert Searched(calls) + [] == Searched(calls);
    }
  }

  /** The ids found by the outcomes at positions `lo` to `hi` - 1. */
  function FoundIds(os: seq<Option<Discovery>>, lo: nat, hi: nat): set<Id>
    requires hi <= |os|
    decreases hi - lo
  {
    if lo >= hi then {}
    else (if os[lo].Some? then IdsOf(os[lo].value.found) else {}) + FoundIds(os, lo + 1, hi)
  }

  /** With no null entry the loop accepts every found id that is not yet
      in the membership set, and no other. */
  lemma {:induction false} ChannelsAcceptNew(os: seq<Option<Discovery>>, from: nat,
                                             calls: seq<Call>, seen: set<Id>, added: seq<Video>)
    requires from <= |os|
    requires forall k :: from <= k < |os| ==> os[k].Some?
    ensures Channels(os, from, calls, seen, added).Running?
    ensures IdsOf(Channels(os, from, calls, seen, added).added) == IdsOf(added) + (FoundIds(os, from, |os|) - seen)
    decreases |os| - from
  {
    if from < |os| {
      var d := os[from].value;
      var a := Deduplicate(d.found, seen);
      assert Channels(os, from, calls, seen, added) == Channels(os, from + 1, calls + d.calls, a.seen, added + a.added);
      ChannelsAcceptNew(os, from + 1, calls + d.calls, a.seen, added + a.added);
      IdsOfAppend(added, a.added);
      assert FoundIds(os, from, |os|) == IdsOf(d.found) + FoundIds(os, from + 1, |os|);
    } else {
      assert FoundIds(os, from, |os|) == {};
    }
  }

  /** A failing channel contributes nothing: the loop goes on to the next
      channel with its requests recorded and the membership set and the
      accepted list untouched. */
  lemma FailedChannelAddsNothing(entries: seq<Option<ChannelRule>>, env: Env, cutoff: int, from: nat,
                                 calls: seq<Call>, seen: set<Id>, added: seq<Video>)
    requires from < |entries| && entries[from].Some? && ChannelFails(from, env)
    ensures var os := Outcomes(entries, env, cutoff);
      Channels(os, from, calls, seen, added)
      == Channels(os, from + 1, calls + Discover(from, entries[from].value, env, cutoff).calls, seen, added)
  {
    var os := Outcomes(entries, env, cutoff);
    assert os[from].value.found == [];
    assert added + [] == added;
  }

  // ---------------------------------------------------------------------
  // the handler

  /** A missing setting or a configuration that is not an array ends the
      run with status 500 before any request. */
  lemma AbortBeforeAnyRequest(settings: Settings, config: Config, env: Env)
    requires !SettingsPresent(settings) || !config.Entries?
    ensures Run(settings, config, env).statusCode == 500
    ensures Run(settings, config, env).calls == []
  {
  }

  /** A failed token refresh ends the run with status 500 before any
      search: the refresh is the only request made. */
  lemma RefreshFailureIsFatal(settings: Settings, config: Config, env: Env)
    requires SettingsPresent(settings) && config.Entries? && env.refresh.Err?
    ensures Run(settings, config, env).statusCode == 500
    ensures Run(settings, config, env).calls == [RefreshToken]
    ensures Searched(Run(settings, config, env).calls) == []
  {
    assert Searched([RefreshToken]) == [] + Searched([]);
  }

  /** The requests before the channel loop are the refresh and the
      playlist page reads: no search and no insert. */
  lemma LoopPrefix(snap: Membership)
    requires forall c :: c in snap.calls ==> c.ListPlaylistPage?
    ensures Searched([RefreshToken] + snap.calls) == [] && Inserted([RefreshToken] + snap.calls) == []
  {
    NoSearchIn([RefreshToken] + snap.calls);
    InsertedNone([RefreshToken] + snap.calls);
  }

  /** The loop started from a snapshot keeps the de-duplication invariant
      against the snapshot's membership set. */
  lemma LoopInvariant(os: seq<Option<Discovery>>, snap: Membership)
    requires InsertsNothing(os)
    requires forall c :: c in snap.calls ==> c.ListPlaylistPage?
    ensures Inserted(ChannelLoop(os, snap).calls) == []
    ensures ChannelLoop(os, snap).Running? ==>
      var p := ChannelLoop(os, snap);
      p.seen == snap.seen + IdsOf(p.added) && UniqueIds(p.added) && IdsOf(p.added) !! snap.seen
  {
    LoopPrefix(snap);
    assert IdsOf([]) == {};
    ChannelsKeepInvariant(os, 0, [RefreshToken] + snap.calls, snap.seen, [], snap.seen);
  }

  /** With no null entry the loop completes, having made every outcome's
      searches in order. */
  lemma LoopSearches(os: seq<Option<Discovery>>, snap: Membership)
    requires forall c :: c in snap.calls ==> c.ListPlaylistPage?
    requires forall k :: 0 <= k < |os| ==> os[k].Some?
    ensures ChannelLoop(os, snap).Running?
    ensures Searched(ChannelLoop(os, snap).calls) == OutcomeSearches(os, 0, |os|)
  {
    LoopPrefix(snap);
    ChannelsSearchAll(os, 0, [RefreshToken] + snap.calls, snap.seen, []);
    EmptyAppend(OutcomeSearches(os, 0, |os|));
  }

  /** A null entry at position `k` aborts the loop once the outcomes before
      it have made their searches; the loop inserted nothing. */
  lemma LoopAbortsAtNull(os: seq<Option<Discovery>>, snap: Membership, k: nat)
    requires InsertsNothing(os)
    requires forall c :: c in snap.calls ==> c.ListPlaylistPage?
    requires k < |os| && os[k].None?
    requires forall j :: 0 <= j < k ==> os[j].Some?
    ensures ChannelLoop(os, snap).Aborted?
    ensures Searched(ChannelLoop(os, snap).calls) == OutcomeSearches(os, 0, k)
    ensures Inserted(ChannelLoop(os, snap).calls) == []
  {
    LoopPrefix(snap);
    LoopInvariant(os, snap);
    ChannelsAbortAtNull(os, 0, k, [RefreshToken] + snap.calls, snap.seen, []);
    EmptyAppend(OutcomeSearches(os, 0, k));
  }

  /** With no null entry the loop started from the snapshot accepts
      exactly the found ids that the snapshot did not hold. */
  lemma LoopAccepts(os: seq<Option<Discovery>>, snap: Membership)
    requires forall k :: 0 <= k < |os| ==> os[k].Some?
    ensures ChannelLoop(os, snap).Running?
    ensures IdsOf(ChannelLoop(os, snap).added) == FoundIds(os, 0, |os|) - snap.seen
  {
    assert IdsOf([]) == {};
    ChannelsAcceptNew(os, 0, [RefreshToken] + snap.calls, snap.seen, []);
  }

  /** Once the refresh succeeds and no entry is null, the run succeeds and
      searches every configured channel in order, whatever the playlist
      snapshot, the searches, the details and the inserts reply: snapshot
      and channel failures are not fatal. In particular an empty
      configuration makes a successful run with no search. */
  lemma EveryChannelSearched(settings: Settings, entries: seq<Option<ChannelRule>>, env: Env)
    requires SettingsPresent(settings) && env.refresh.Ok?
    requires forall k :: 0 <= k < |entries| ==> entries[k].Some?
    ensures Run(settings, Entries(entries), env).statusCode == 200
    ensures Searched(Run(settings, Entries(entries), env).calls) == RuleIds(entries, 0, |entries|)
  {
    var snap := TakeSnapshot(env.refresh.data, env.pages);
    var os := Outcomes(entries, env, env.now - RecencyWindow);
    var p := ChannelLoop(os, snap);
    OutcomesSearchRules(entries, env, env.now - RecencyWindow, 0, |entries|);
    LoopSearches(os, snap);
    FinishSearchesNothing(p, env);
    RunLoops(settings, Entries(entries), env);
  }

  /** A null configuration entry aborts the whole run with status 500 once
      the channels before it have been searched; nothing is inserted. */
  lemma NullEntryAborts(settings: Settings, entries: seq<Option<ChannelRule>>, env: Env, k: nat)
    requires SettingsPresent(settings) && env.refresh.Ok?
    requires k < |entries| && entries[k].None?
    requires forall j :: 0 <= j < k ==> entries[j].Some?
    ensures Run(settings, Entries(entries), env).statusCode == 500
    ensures Searched(Run(settings, Entries(entries), env).calls) == RuleIds(entries, 0, k)
    ensures Inserted(Run(settings, Entries(entries), env).calls) == []
  {
    var snap := TakeSnapshot(env.refresh.data, env.pages);
    var os := Outcomes(entries, env, env.now - RecencyWindow);
    OutcomesSearchRules(entries, env, env.now - RecencyWindow, 0, k);
    LoopAbortsAtNull(os, snap, k);
    RunLoops(settings, Entries(entries), env);
  }

  /** The ids the channels from position `lo` on put forward: those of
      the videos of each non-failing rule entry's details reply that pass
      the entry's rule. */
  ghost function Passing(entries: seq<Option<ChannelRule>>, env: Env, lo: nat): set<Id> {
    set k, v | lo <= k < |entries| && entries[k].Some? && !ChannelFails(k, env)
                 && v in DetailsOf(k, env) && PassesRule(entries[k].value, v) :: v.id
  }

  /** The ids put forward by the entry at position `lo` alone. */
  ghost function PassingAt(entries: seq<Option<ChannelRule>>, env: Env, lo: nat): set<Id>
    requires lo < |entries|
  {
    set v | entries[lo].Some? && !ChannelFails(lo, env) && v in DetailsOf(lo, env) && PassesRule(entries[lo].value, v) :: v.id
  }

  lemma PassingSplit(entries: seq<Option<ChannelRule>>, env: Env, lo: nat)
    requires lo < |entries|
    ensures Passing(entries, env, lo) == PassingAt(entries, env, lo) + Passing(entries, env, lo + 1)
  {
    forall id | id in Passing(entries, env, lo)
      ensures id in PassingAt(entries, env, lo) + Passing(entries, env, lo + 1)
    {
      var k, v :| lo <= k < |entries| && entries[k].Some? && !ChannelFails(k, env)
                  && v in DetailsOf(k, env) && PassesRule(entries[k].value, v) && v.id == id;
      if k == lo {
        assert id in PassingAt(entries, env, lo);
      } else {
        assert id in Passing(entries, env, lo + 1);
      }
    }
  }

  /** The ids found by the outcome at position `lo`. */
  function FoundAt(os: seq<Option<Discovery>>, lo: nat): set<Id>
    requires lo < |os|
  {
    if os[lo].Some? then IdsOf(os[lo].value.found) else {}
  }

  /** The outcomes' found ids are exactly the ids put forward by the
      entries' rules. */
  lemma FoundIdsArePassing(entries: seq<Option<ChannelRule>>, env: Env, cutoff: int, lo: nat)
    requires lo <= |entries|
    ensures FoundIds(Outcomes(entries, env, cutoff), lo, |entries|) == Passing(entries, env, lo)
  {
    var os := Outcomes(entries, env, cutoff);
    forall k | lo <= k < |entries|
      ensures FoundAt(os, k) == PassingAt(entries, env, k)
    {
      FoundAtIsPassingAt(entries, env, cutoff, k);
    }
    FoundIdsMatch(os, entries, env, lo);
  }

  /** Outcomes that each find the ids their entry puts forward find, from
      position `lo` on, the ids the entries put forward from there. */
  lemma {:induction false} FoundIdsMatch(os: seq<Option<Discovery>>, entries: seq<Option<ChannelRule>>, env: Env, lo: nat)
    requires |os| == |entries| && lo <= |os|
    requires forall k :: lo <= k < |os| ==> FoundAt(os, k) == PassingAt(entries, env, k)
    ensures FoundIds(os, lo, |os|) == Passing(entries, env, lo)
    decreases |os| - lo
  {
    if lo < |os| {
      FoundIdsMatch(os, entries, env, lo + 1);
      PassingSplit(entries, env, lo);
      assert FoundIds(os, lo, |os|) == FoundAt(os, lo) + FoundIds(os, lo + 1, |os|);
    } else {
      assert Passing(entries, env, lo) == {};
    }
  }

  /** The ids the outcome at position `lo` finds are those its entry puts
      forward. */
  lemma FoundAtIsPassingAt(entries: seq<Option<ChannelRule>>, env: Env, cutoff: int, lo: nat)
    requires lo < |entries|
    ensures FoundAt(Outcomes(entries, env, cutoff), lo) == PassingAt(entries, env, lo)
  {
    var os := Outcomes(entries, env, cutoff);
    OutcomesMeaning(entries, env, cutoff, lo);
    forall id
      ensures id in FoundAt(os, lo) <==> id in PassingAt(entries, env, lo)
    {
      if id in PassingAt(entries, env, lo) {
        var v :| entries[lo].Some? && !ChannelFails(lo, env) && v in DetailsOf(lo, env)
                 && PassesRule(entries[lo].value, v) && v.id == id;
        assert v in os[lo].value.found;
      }
    }
  }

  /** Once the refresh gives a truthy access token and no entry is null,
      the run succeeds, submits for insertion exactly the ids that pass
      some channel's rule and that the snapshot did not hold, and leaves
      at the top of the playlist exactly those whose insert was
      accepted. */
  lemma NewVideosSubmitted(settings: Settings, entries: seq<Option<ChannelRule>>, env: Env)
    requires SettingsPresent(settings) && env.refresh.Ok? && Truthy(env.refresh.data)
    requires forall k :: 0 <= k < |entries| ==> entries[k].Some?
    ensures Run(settings, Entries(entries), env).statusCode == 200
    ensures forall id ::
              id in Inserted(Run(settings, Entries(entries), env).calls)
              <==> id in Passing(entries, env, 0) && id !in TakeSnapshot(env.refresh.data, env.pages).seen
    ensures forall id ::
              id in IdsOf(Run(settings, Entries(entries), env).top)
              <==> id in Passing(entries, env, 0) && id !in TakeSnapshot(env.refresh.data, env.pages).seen && env.insertOk(id)
  {
    var snap := TakeSnapshot(env.refresh.data, env.pages);
    var cutoff := env.now - RecencyWindow;
    var os := Outcomes(entries, env, cutoff);
    var p := ChannelLoop(os, snap);
    OutcomesSearchRules(entries, env, cutoff, 0, 0);
    LoopInvariant(os, snap);
    LoopAccepts(os, snap);
    FoundIdsArePassing(entries, env, cutoff, 0);
    FinishSubmitsAll(p, env);
    RunLoops(settings, Entries(entries), env);
  }

  lemma InsertedNone(calls: seq<Call>)
    requires forall c :: c in calls ==> !c.InsertAt?
    ensures Inserted(calls) == []
  {
    if calls != [] {
      InsertedNone(calls[1..]);
    }
  }

  /** After a successful refresh a run is the channel loop over its
      entries' outcomes from its snapshot, then the publish stage. */
  lemma RunLoops(settings: Settings, config: Config, env: Env)
    requires SettingsPresent(settings) && config.Entries? && env.refresh.Ok?
    ensures Run(settings, config, env)
         == Finish(ChannelLoop(Outcomes(config.entries, env, env.now - RecencyWindow), TakeSnapshot(env.refresh.data, env.pages)), env)
  {
  }

  /** The invariant of the whole job: no id is submitted for insertion
      twice in a run, and none that the playlist snapshot already held.
      A failed run submits nothing, and the videos a successful run placed
      at the top are newest first, each one submitted and accepted. */
  lemma NoDuplicateInsertion(settings: Settings, config: Config, env: Env)
    ensures NoRepeats(Inserted(Run(settings, config, env).calls))
    ensures env.refresh.Ok? ==>
      forall id :: id in Inserted(Run(settings, config, env).calls) ==> id !in TakeSnapshot(env.refresh.data, env.pages).seen
    ensures Run(settings, config, env).statusCode == 500 ==> Inserted(Run(settings, config, env).calls) == []
    ensures SortedDescending(Run(settings, config, env).top)
    ensures forall v :: v in Run(settings, config, env).top ==>
      v.id in Inserted(Run(settings, config, env).calls) && env.insertOk(v.id)
  {
    if SettingsPresent(settings) && config.Entries? && env.refresh.Ok? {
      var snap := TakeSnapshot(env.refresh.data, env.pages);
      var os := Outcomes(config.entries, env, env.now - RecencyWindow);
      OutcomesSearchRules(config.entries, env, env.now - RecencyWindow, 0, 0);
      LoopInvariant(os, snap);
      var p := ChannelLoop(os, snap);
      RunLoops(settings, config, env);
      if p.Running? {
        FinishSubmitsOnce(p, env, snap.seen);
        FinishTop(p, env);
      }
    }
  }

  /** The publish stage issues no search and ends the run successfully. */
  lemma FinishSearchesNothing(p: Progress, env: Env)
    requires env.refresh.Ok? && p.Running?
    ensures Finish(p, env).statusCode == 200
    ensures Searched(Finish(p, env).calls) == Searched(p.calls)
  {
    var published := InsertAll(SortByDate(p.added), env.refresh.data, env.insertOk, []);
    assert Finish(p, env).calls == p.calls + published.calls;
    InsertAllCalls(SortByDate(p.added), env.refresh.data, env.insertOk, []);
    NoSearchIn(published.calls);
    SearchedAppend(p.calls, published.calls);
  }

  /** Publishing accepted videos that are unique and new to the snapshot
      submits each once and none from the snapshot. */
  lemma FinishSubmitsOnce(p: Progress, env: Env, snapshot: set<Id>)
    requires env.refresh.Ok? && p.Running?
    requires Inserted(p.calls) == [] && UniqueIds(p.added) && IdsOf(p.added) !! snapshot
    ensures var ins := Inserted(Finish(p, env).calls);
      && (NoRepeats(ins))
      && (forall id :: id in ins ==> id !in snapshot)
  {
    var sorted := SortByDate(p.added);
    var published := InsertAll(sorted, env.refresh.data, env.insertOk, []);
    var ins := Inserted(published.calls);
    assert Inserted(Finish(p, env).calls) == ins by {
      assert Finish(p, env).calls == p.calls + published.calls;
      InsertedAppend(p.calls, published.calls);
    }
    assert IdsOf(sorted) == IdsOf(p.added) && UniqueIds(sorted) by {
      SortKeepsIds(p.added);
    }
    PublishedOnce(sorted, env.refresh.data, env.insertOk);
    PublishedIds(sorted, env.refresh.data, env.insertOk);
  }

  /** With a truthy access token the publish stage submits every accepted
      id, and leaves at the top exactly the accepted ids whose insert
      succeeded. */
  lemma FinishSubmitsAll(p: Progress, env: Env)
    requires env.refresh.Ok? && Truthy(env.refresh.data) && p.Running? && Inserted(p.calls) == []
    ensures forall id :: id in Inserted(Finish(p, env).calls) <==> id in IdsOf(p.added)
    ensures forall id :: id in IdsOf(Finish(p, env).top) <==> id in IdsOf(p.added) && env.insertOk(id)
  {
    var sorted := SortByDate(p.added);
    var published := InsertAll(sorted, env.refresh.data, env.insertOk, []);
    assert Finish(p, env).calls == p.calls + published.calls && Finish(p, env).top == published.top;
    InsertedAppend(p.calls, published.calls);
    SortKeepsIds(p.added);
    PublishedAllIds(sorted, env.refresh.data, env.insertOk);
    PublishedTopIds(sorted, env.refresh.data, env.insertOk);
  }

  /** The videos a successful run leaves at the top are newest first, and
      each was submitted and accepted. */
  lemma FinishTop(p: Progress, env: Env)
    requires env.refresh.Ok? && p.Running? && Inserted(p.calls) == []
    ensures SortedDescending(Finish(p, env).top)
    ensures forall v :: v in Finish(p, env).top ==> v.id in Inserted(Finish(p, env).calls) && env.insertOk(v.id)
  {
    var sorted := SortByDate(p.added);
    var published := InsertAll(sorted, env.refresh.data, env.insertOk, []);
    assert Finish(p, env).top == published.top;
    SortByDateSorts(p.added);
    assert Inserted(Finish(p, env).calls) == Inserted(published.calls) by {
      assert Finish(p, env).calls == p.calls + published.calls;
      InsertedAppend(p.calls, published.calls);
    }
    PublishedTop(sorted, env.refresh.data, env.insertOk);
  }
}
