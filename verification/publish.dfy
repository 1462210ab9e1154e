/** Publishing: the accumulated videos are sorted oldest first by publish
    time, then each is inserted at position 0 of the target playlist, so
    the successfully inserted ones end up newest first at the top. */
module Publish {
  import opened Values
  import opened Seqs
  import opened Videos
  import opened Remote

  /** Insert `x` into a list before the first video that is not older than
      it (so equal timestamps keep their input order). */
  function InsertByDate(x: Video, s: seq<Video>): seq<Video> {
    if s == [] then [x]
    else if x.publishedAt <= s[0].publishedAt then [x] + s
    else [s[0]] + InsertByDate(x, s[1..])
  }

  /** Inserting adds `x` and nothing else, and keeps an ascending list
      ascending. */
  lemma {:induction false} InsertByDateSorts(x: Video, s: seq<Video>)
    ensures multiset(InsertByDate(x, s)) == multiset(s) + multiset{x}
    ensures SortedAscending(s) ==> SortedAscending(InsertByDate(x, s))
  {
    if s != [] && s[0].publishedAt < x.publishedAt {
      var rest := InsertByDate(x, s[1..]);
      InsertByDateSorts(x, s[1..]);
      assert InsertByDate(x, s) == [s[0]] + rest;
      assert s == [s[0]] + s[1..];
      if SortedAscending(s) {
        InsertTail(x, s, rest);
      }
    } else if s != [] && SortedAscending(s) {
      SortedTail(s);
      ConsSorted(x, s);
    }
  }

  /** The step of `InsertByDate` that keeps the head in front. */
  lemma InsertTail(x: Video, s: seq<Video>, rest: seq<Video>)
    requires s != [] && s[0].publishedAt < x.publishedAt && SortedAscending(s)
    requires multiset(rest) == multiset(s[1..]) + multiset{x}
    requires SortedAscending(rest)
    ensures SortedAscending([s[0]] + rest)
  {
    SortedTail(s);
    forall y | y in rest
      ensures s[0].publishedAt <= y.publishedAt
    {
      assert y in multiset(rest);
      if y != x {
        assert y in multiset(s[1..]);
      }
    }
    ConsSorted(s[0], rest);
  }

  lemma ConsSorted(a: Video, rest: seq<Video>)
    requires SortedAscending(rest)
    requires forall y :: y in rest ==> a.publishedAt <= y.publishedAt
    ensures SortedAscending([a] + rest)
  {
    var r := [a] + rest;
    forall i, j | 0 <= i < j < |r|
      ensures r[i].publishedAt <= r[j].publishedAt
    {
      assert r[j] == rest[j - 1];
      if i > 0 {
        assert r[i] == rest[i - 1];
      } else {
        assert rest[j - 1] in rest;
      }
    }
  }

  /** `videos.sort((a, b) => a.publishedAt - b.publishedAt)`, as an
      insertion sort. */
  function SortByDate(s: seq<Video>): seq<Video> {
    if s == [] then [] else InsertByDate(s[0], SortByDate(s[1..]))
  }

  /** Sorting gives a permutation of the input in ascending publish
      order. */
  lemma {:induction false} SortByDateSorts(s: seq<Video>)
    ensures multiset(SortByDate(s)) == multiset(s)
    ensures SortedAscending(SortByDate(s))
  {
    if s != [] {
      SortByDateSorts(s[1..]);
      InsertByDateSorts(s[0], SortByDate(s[1..]));
      assert s == [s[0]] + s[1..];
    }
  }

  /** Sorting neither adds nor loses an id and creates no repeated id. */
  lemma {:induction false} SortKeepsIds(s: seq<Video>)
    ensures IdsOf(SortByDate(s)) == IdsOf(s)
    ensures UniqueIds(s) ==> UniqueIds(SortByDate(s))
  {
    SortByDateSorts(s);
    SameMultisetSameIds(SortByDate(s), s);
    if s != [] {
      var tail := SortByDate(s[1..]);
      SortKeepsIds(s[1..]);
      assert s == [s[0]] + s[1..];
      if UniqueIds(s) {
        UniqueIdsCons(s[0], s[1..]);
        InsertKeepsUnique(s[0], tail);
      }
    }
  }

  lemma SameMultisetSameIds(a: seq<Video>, b: seq<Video>)
    requires multiset(a) == multiset(b)
    ensures IdsOf(a) == IdsOf(b)
  {
    assert forall v :: v in a <==> v in multiset(a);
    assert forall v :: v in b <==> v in multiset(b);
  }

  lemma {:induction false} InsertKeepsUnique(x: Video, s: seq<Video>)
    requires UniqueIds(s) && x.id !in IdsOf(s)
    ensures UniqueIds(InsertByDate(x, s))
  {
    if s == [] {
    } else if x.publishedAt <= s[0].publishedAt {
      UniqueIdsCons(x, s);
    } else {
      var rest := InsertByDate(x, s[1..]);
      assert s == [s[0]] + s[1..];
      UniqueIdsCons(s[0], s[1..]);
      IdsOfCons(s[0], s[1..]);
      InsertKeepsUnique(x, s[1..]);
      InsertByDateSorts(x, s[1..]);
      SameMultisetSameIds(rest, [x] + s[1..]);
      IdsOfCons(x, s[1..]);
      UniqueIdsCons(s[0], rest);
    }
  }

  /** The outcome of the publish loop: the insert requests issued, and the
      block of successfully inserted videos now at the top of the playlist,
      top to bottom. */
  datatype Published = Published(calls: seq<Call>, top: seq<Video>)

  /** Whether the insert request for a video is made and succeeds. */
  function Succeeds(token: Option<string>, insertOk: Id -> bool): Video -> bool {
    (v: Video) => Truthy(token) && insertOk(v.id)
  }

  /** The publish loop over `vs` in order, `top` being the block inserted so
      far. Each insert is a request at position 0; one that fails is skipped
      and the loop goes on. Without a truthy access token every insert
      fails before any request is made. */
  function InsertAll(vs: seq<Video>, token: Option<string>, insertOk: Id -> bool, top: seq<Video>): Published
  {
    if vs == [] then Published([], top)
    else
      var v := vs[0];
      var ok := Truthy(token) && insertOk(v.id);
      var rest := InsertAll(vs[1..], token, insertOk, if ok then [v] + top else top);
      if Truthy(token) then Published([InsertAt(v.id, 0)] + rest.calls, rest.top)
      else rest
  }

  /** The publish loop issues one insert at position 0 per video, in list
      order, exactly when the token is truthy. */
  lemma {:induction false} InsertAllCalls(vs: seq<Video>, token: Option<string>, insertOk: Id -> bool, top: seq<Video>)
    ensures var r := InsertAll(vs, token, insertOk, top);
      && (Truthy(token) ==> |r.calls| == |vs| && forall i :: 0 <= i < |vs| ==> r.calls[i] == InsertAt(vs[i].id, 0))
      && (!Truthy(token) ==> r.calls == [])
    decreases |vs|
  {
    if vs != [] {
      var r := InsertAll(vs, token, insertOk, top);
      var next := if Truthy(token) && insertOk(vs[0].id) then [vs[0]] + top else top;
      var rest := InsertAll(vs[1..], token, insertOk, next);
      InsertAllCalls(vs[1..], token, insertOk, next);
      if Truthy(token) {
        assert r.calls == [InsertAt(vs[0].id, 0)] + rest.calls;
        forall i | 0 < i < |vs|
          ensures r.calls[i] == InsertAt(vs[i].id, 0)
        {
          assert r.calls[i] == rest.calls[i - 1];
          assert vs[1..][i - 1] == vs[i];
        }
      } else {
        assert r.calls == rest.calls;
      }
    }
  }

  /** The publish loop puts the videos whose insert succeeded on top of
      `top`, in reverse list order. */
  lemma {:induction false} InsertAllStack(vs: seq<Video>, token: Option<string>, insertOk: Id -> bool, top: seq<Video>)
    ensures InsertAll(vs, token, insertOk, top).top == Reverse(Filter(vs, Succeeds(token, insertOk))) + top
    decreases |vs|
  {
    if vs != [] {
      var v := vs[0];
      var ok := Truthy(token) && insertOk(v.id);
      var next := if ok then [v] + top else top;
      var f := Filter(vs[1..], Succeeds(token, insertOk));
      assert InsertAll(vs, token, insertOk, top).top == InsertAll(vs[1..], token, insertOk, next).top;
      InsertAllStack(vs[1..], token, insertOk, next);
      if ok {
        assert Filter(vs, Succeeds(token, insertOk)) == [v] + f;
        assert Reverse([v] + f) == Reverse(f) + [v];
        AppendAssoc(Reverse(f), [v], top);
      } else {
        assert Filter(vs, Succeeds(token, insertOk)) == f;
      }
    }
  }

  /** With a truthy token the publish loop submits every video once, in
      list order, whether or not an earlier insert failed; without one it
      submits nothing. */
  lemma InsertAllSubmits(vs: seq<Video>, token: Option<string>, insertOk: Id -> bool)
    ensures var ins := Inserted(InsertAll(vs, token, insertOk, []).calls);
      Truthy(token) ==> |ins| == |vs| && forall i :: 0 <= i < |vs| ==> ins[i] == vs[i].id
    ensures !Truthy(token) ==> Inserted(InsertAll(vs, token, insertOk, []).calls) == []
  {
    InsertAllCalls(vs, token, insertOk, []);
    InsertedOfInserts(InsertAll(vs, token, insertOk, []).calls);
  }

  /** Each video the publish loop leaves at the top was in its list and was
      accepted by the insert request. */
  lemma InsertAllTop(vs: seq<Video>, token: Option<string>, insertOk: Id -> bool)
    ensures forall v :: v in InsertAll(vs, token, insertOk, []).top ==> v in vs && Truthy(token) && insertOk(v.id)
  {
    var f := Filter(vs, Succeeds(token, insertOk));
    InsertAllStack(vs, token, insertOk, []);
    ReverseMembers(f);
  }

  /** Publishing an ascending list leaves the inserted videos newest first. */
  lemma InsertAllNewestFirst(vs: seq<Video>, token: Option<string>, insertOk: Id -> bool)
    requires SortedAscending(vs)
    ensures SortedDescending(InsertAll(vs, token, insertOk, []).top)
  {
    var f := Filter(vs, Succeeds(token, insertOk));
    InsertAllStack(vs, token, insertOk, []);
    NewestFirst(vs, Succeeds(token, insertOk));
  }

  /** Every video a publish run leaves at the top was submitted and
      accepted, and the block is newest first when the list was oldest
      first. */
  lemma PublishedTop(vs: seq<Video>, token: Option<string>, insertOk: Id -> bool)
    requires SortedAscending(vs)
    ensures var r := InsertAll(vs, token, insertOk, []);
      && SortedDescending(r.top)
      && forall v :: v in r.top ==> v.id in Inserted(r.calls) && insertOk(v.id)
  {
    var r := InsertAll(vs, token, insertOk, []);
    InsertAllNewestFirst(vs, token, insertOk);
    InsertAllTop(vs, token, insertOk);
    InsertAllSubmits(vs, token, insertOk);
    forall v | v in r.top
      ensures v.id in Inserted(r.calls)
    {
      var i :| 0 <= i < |vs| && vs[i] == v;
      assert Inserted(r.calls)[i] == v.id;
    }
  }

  /** A publish run submits only ids from its list. */
  lemma PublishedIds(vs: seq<Video>, token: Option<string>, insertOk: Id -> bool)
    ensures forall id :: id in Inserted(InsertAll(vs, token, insertOk, []).calls) ==> id in IdsOf(vs)
  {
    var ins := Inserted(InsertAll(vs, token, insertOk, []).calls);
    InsertAllSubmits(vs, token, insertOk);
    forall id | id in ins
      ensures id in IdsOf(vs)
    {
      var i :| 0 <= i < |ins| && ins[i] == id;
      assert vs[i] in vs;
    }
  }

  /** With a truthy token a publish run submits exactly the ids of its
      list. */
  lemma PublishedAllIds(vs: seq<Video>, token: Option<string>, insertOk: Id -> bool)
    requires Truthy(token)
    ensures forall id :: id in Inserted(InsertAll(vs, token, insertOk, []).calls) <==> id in IdsOf(vs)
  {
    var ins := Inserted(InsertAll(vs, token, insertOk, []).calls);
    InsertAllSubmits(vs, token, insertOk);
    forall id
      ensures id in ins <==> id in IdsOf(vs)
    {
      if id in ins {
        var i :| 0 <= i < |ins| && ins[i] == id;
        assert vs[i] in vs;
      }
      if id in IdsOf(vs) {
        var v :| v in vs && v.id == id;
        var i :| 0 <= i < |vs| && vs[i] == v;
        assert ins[i] == id;
      }
    }
  }

  /** The ids a publish run leaves at the top are exactly those of its list
      whose insert was made and accepted. */
  lemma PublishedTopIds(vs: seq<Video>, token: Option<string>, insertOk: Id -> bool)
    ensures forall id :: id in IdsOf(InsertAll(vs, token, insertOk, []).top) <==> id in IdsOf(vs) && Truthy(token) && insertOk(id)
  {
    var top := InsertAll(vs, token, insertOk, []).top;
    var f := Filter(vs, Succeeds(token, insertOk));
    InsertAllStack(vs, token, insertOk, []);
    ReverseMembers(f);
    assert top == Reverse(f) + [];
    forall id
      ensures id in IdsOf(top) <==> id in IdsOf(vs) && Truthy(token) && insertOk(id)
    {
      if id in IdsOf(vs) && Truthy(token) && insertOk(id) {
        var v :| v in vs && v.id == id;
        assert v in f;
        assert v in top;
      }
    }
  }

  /** A publish run over a list with distinct ids submits no id twice. */
  lemma PublishedOnce(vs: seq<Video>, token: Option<string>, insertOk: Id -> bool)
    requires UniqueIds(vs)
    ensures NoRepeats(Inserted(InsertAll(vs, token, insertOk, []).calls))
  {
    InsertAllSubmits(vs, token, insertOk);
  }

  lemma InsertedOfInserts(calls: seq<Call>)
    requires forall c :: c in calls ==> c.InsertAt?
    ensures |Inserted(calls)| == |calls|
    ensures forall i :: 0 <= i < |calls| ==> Inserted(calls)[i] == calls[i].videoId
  {
    if calls != [] {
      InsertedOfInserts(calls[1..]);
    }
  }

  /** Inserting an ascending list one by one at the head leaves it newest
      first, whichever inserts fail. */
  lemma {:induction false} NewestFirst(vs: seq<Video>, p: Video -> bool)
    requires SortedAscending(vs)
    ensures SortedDescending(Reverse(Filter(vs, p)))
  {
    FilterKeepsSorted(vs, p);
  }

  lemma {:induction false} FilterKeepsSorted(vs: seq<Video>, p: Video -> bool)
    requires SortedAscending(vs)
    ensures SortedAscending(Filter(vs, p))
  {
    if vs != [] {
      var rest := Filter(vs[1..], p);
      SortedTail(vs);
      FilterKeepsSorted(vs[1..], p);
      if p(vs[0]) {
        assert Filter(vs, p) == [vs[0]] + rest;
        ConsSorted(vs[0], rest);
      } else {
        assert Filter(vs, p) == rest;
      }
    }
  }

  /** The tail of an ascending list is ascending and not older than its
      head. */
  lemma SortedTail(vs: seq<Video>)
    requires vs != [] && SortedAscending(vs)
    ensures SortedAscending(vs[1..])
    ensures forall w :: w in vs[1..] ==> vs[0].publishedAt <= w.publishedAt
    ensures forall w :: w in vs ==> vs[0].publishedAt <= w.publishedAt
  {
    assert forall w :: w in vs ==> w == vs[0] || w in vs[1..];
    forall w | w in vs[1..]
      ensures vs[0].publishedAt <= w.publishedAt
    {
      var k :| 0 <= k < |vs[1..]| && vs[1..][k] == w;
      assert vs[k + 1] == w;
    }
  }
}
