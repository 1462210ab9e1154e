/** The entities of one ingestion run: a candidate video as built from
    the details reply, a per-channel filter rule as read from the
    configuration array, and the id-level notions the de-duplication and
    publishing steps are stated with. Publish times are integer
    timestamps. */
module Videos {
  import opened Values

  type Id = string

  /** A candidate video. A missing title or description is "" (no keyword
      is ever empty, so the source's `title && …` guard agrees with that);
      `duration` is the raw ISO 8601 string, possibly absent. */
  datatype Video = Video(
    id: Id,
    title: string,
    description: string,
    publishedAt: int,
    thumbnail: string,
    duration: Option<string>)

  /** One element of the channels configuration array. Keyword fields are
      strings or absent; a bound that is not a number is absent. */
  datatype ChannelRule = ChannelRule(
    channelId: Option<string>,
    keywords: Option<string>,
    negativeKeywords: Option<string>,
    minDuration: Option<int>,
    maxDuration: Option<int>)

  /** The ids carried by a list of videos. */
  function IdsOf(vs: seq<Video>): set<Id> {
    set v | v in vs :: v.id
  }

  /** No id occurs twice. */
  predicate UniqueIds(vs: seq<Video>) {
    forall i, j :: 0 <= i < j < |vs| ==> vs[i].id != vs[j].id
  }

  predicate SortedAscending(vs: seq<Video>) {
    forall i, j :: 0 <= i < j < |vs| ==> vs[i].publishedAt <= vs[j].publishedAt
  }

  predicate SortedDescending(vs: seq<Video>) {
    forall i, j :: 0 <= i < j < |vs| ==> vs[i].publishedAt >= vs[j].publishedAt
  }

  lemma IdsOfAppend(a: seq<Video>, b: seq<Video>)
    ensures IdsOf(a + b) == IdsOf(a) + IdsOf(b)
  {
    assert forall v :: v in a + b <==> v in a || v in b;
  }

  lemma IdsOfCons(v: Video, b: seq<Video>)
    ensures IdsOf([v] + b) == {v.id} + IdsOf(b)
  {
    IdsOfAppend([v], b);
  }

  /** Two lists with no id in common and no repeats within either have no
      repeats together. */
  lemma UniqueIdsAppend(a: seq<Video>, b: seq<Video>)
    requires UniqueIds(a) && UniqueIds(b) && IdsOf(a) !! IdsOf(b)
    ensures UniqueIds(a + b)
  {
    var ab := a + b;
    forall i, j | 0 <= i < j < |ab|
      ensures ab[i].id != ab[j].id
    {
      if j < |a| {
        assert ab[i] == a[i] && ab[j] == a[j];
      } else if i < |a| {
        assert ab[i] == a[i] && ab[j] == b[j - |a|];
        assert ab[i].id in IdsOf(a) && ab[j].id in IdsOf(b);
      } else {
        assert ab[i] == b[i - |a|] && ab[j] == b[j - |a|];
      }
    }
  }

  lemma UniqueIdsCons(v: Video, b: seq<Video>)
    ensures UniqueIds([v] + b) <==> v.id !in IdsOf(b) && UniqueIds(b)
  {
    var vb := [v] + b;
    if UniqueIds(vb) {
      forall i, j | 0 <= i < j < |b|
        ensures b[i].id != b[j].id
      {
        assert vb[i + 1] == b[i] && vb[j + 1] == b[j];
      }
      forall w | w in b
        ensures w.id != v.id
      {
        var k :| 0 <= k < |b| && b[k] == w;
        assert vb[0] == v && vb[k + 1] == w;
      }
    }
    if v.id !in IdsOf(b) && UniqueIds(b) {
      IdsOfCons(v, []);
      UniqueIdsAppend([v], b);
    }
  }
}
