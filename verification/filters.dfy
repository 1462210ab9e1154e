/** The per-channel filter chain: positive keywords, then negative
    keywords, then duration bounds in minutes. Each stage is switched on
    by its rule field and otherwise passes the list through unchanged. */
module Filters {
  import opened Values
  import opened Text
  import opened Seqs
  import opened Duration
  import opened Videos

  /** The source's `field && field.trim() !== ""` guard. */
  predicate Enabled(raw: Option<string>) {
    raw.Some? && Trim(raw.value) != ""
  }

  /** `raw.toLowerCase().split(',').map(k => k.trim()).filter(k => k)`:
      the non-empty trimmed comma-separated pieces of the lower-cased text. */
  function Keywords(raw: string): (ks: seq<string>)
    ensures forall k :: k in ks ==> k != [] && ',' !in k && IsTrimmed(k)
  {
    TrimmedPieces(Split(Lower(raw), ','));
    NonEmpty(TrimAll(Split(Lower(raw), ',')))
  }

  /** The keywords are exactly the non-empty trimmed pieces between the
      commas of the lower-cased text. */
  lemma KeywordsMeaning(raw: string)
    ensures forall k :: k in Keywords(raw) <==> k != [] && exists p :: p in Split(Lower(raw), ',') && Trim(p) == k
  {
    var pieces := Split(Lower(raw), ',');
    assert Keywords(raw) == NonEmpty(TrimAll(pieces));
    TrimAllMeaning(pieces);
  }

  /** `filter(k => k)` on strings: the non-empty ones, in order. */
  function NonEmpty(ks: seq<string>): (r: seq<string>)
    ensures forall k :: k in r <==> k in ks && k != []
  {
    Filter(ks, (k: string) => k != [])
  }

  function TrimAll(pieces: seq<string>): (r: seq<string>)
    ensures |r| == |pieces|
    ensures forall i :: 0 <= i < |pieces| ==> r[i] == Trim(pieces[i])
  {
    seq(|pieces|, i requires 0 <= i < |pieces| => Trim(pieces[i]))
  }

  /** Trimming pieces that hold no comma gives trimmed pieces with no
      comma. */
  lemma TrimmedPieces(pieces: seq<string>)
    requires forall p :: p in pieces ==> ',' !in p
    ensures forall k :: k in TrimAll(pieces) ==> ',' !in k && IsTrimmed(k)
  {
    var trimmed := TrimAll(pieces);
    forall k | k in trimmed
      ensures ',' !in k
    {
      var i :| 0 <= i < |pieces| && trimmed[i] == k;
      assert pieces[i] in pieces;
    }
  }

  lemma TrimAllMeaning(pieces: seq<string>)
    ensures forall k :: k in TrimAll(pieces) <==> exists p :: p in pieces && Trim(p) == k
  {
    var r := TrimAll(pieces);
    forall k | k in r
      ensures exists p :: p in pieces && Trim(p) == k
    {
      var i :| 0 <= i < |r| && r[i] == k;
      assert pieces[i] in pieces;
    }
    forall p | p in pieces
      ensures Trim(p) in r
    {
      var i :| 0 <= i < |pieces| && pieces[i] == p;
      assert r[i] == Trim(p);
    }
  }

  /** `text.toLowerCase().includes(k)` for the title or the description. */
  ghost predicate Mentions(v: Video, k: string) {
    Occurs(k, Lower(v.title)) || Occurs(k, Lower(v.description))
  }

  /** Some keyword of `ks` is mentioned by `v`: the source's `ks.some(…)`. */
  ghost predicate KeywordHit(ks: seq<string>, v: Video) {
    exists k :: k in ks && Mentions(v, k)
  }

  /** The executable `some`, scanning the keywords in order. */
  function AnyMentioned(ks: seq<string>, v: Video): (b: bool)
    ensures b <==> KeywordHit(ks, v)
  {
    if ks == [] then false
    else
      var here := Contains(Lower(v.title), ks[0]) || Contains(Lower(v.description), ks[0]);
      assert here <==> Mentions(v, ks[0]);
      assert KeywordHit(ks, v) ==> Mentions(v, ks[0]) || KeywordHit(ks[1..], v) by {
        if KeywordHit(ks, v) {
          var k :| k in ks && Mentions(v, k);
          if k != ks[0] {
            assert k in ks[1..];
          }
        }
      }
      here || AnyMentioned(ks[1..], v)
  }

  /** The test of the positive filter: some keyword is mentioned. */
  function Mentioning(ks: seq<string>): Video -> bool {
    (v: Video) => AnyMentioned(ks, v)
  }

  /** The test of the negative filter: no keyword is mentioned. */
  function Avoiding(ks: seq<string>): Video -> bool {
    (v: Video) => !AnyMentioned(ks, v)
  }

  /** Positive keywords: with a non-blank keyword string, exactly the
      videos mentioning one of its keywords survive, in order; otherwise
      all of them. */
  function KeywordFilter(raw: Option<string>, vs: seq<Video>): (r: seq<Video>)
    ensures IsSubsequence(r, vs)
    ensures !Enabled(raw) ==> r == vs
    ensures Enabled(raw) ==> forall v :: v in r <==> v in vs && KeywordHit(Keywords(raw.value), v)
  {
    if Enabled(raw) then Filter(vs, Mentioning(Keywords(raw.value)))
    else
      SubsequenceReflexive(vs);
      vs
  }

  /** Negative keywords: with a non-blank string, exactly the videos
      mentioning none of its keywords survive, in order; otherwise all. */
  function NegativeFilter(raw: Option<string>, vs: seq<Video>): (r: seq<Video>)
    ensures IsSubsequence(r, vs)
    ensures !Enabled(raw) ==> r == vs
    ensures Enabled(raw) ==> forall v :: v in r <==> v in vs && !KeywordHit(Keywords(raw.value), v)
  {
    if Enabled(raw) then Filter(vs, Avoiding(Keywords(raw.value)))
    else
      SubsequenceReflexive(vs);
      vs
  }

  /** A blank negative keyword string, or one that yields no keyword (such
      as ","), drops nothing. */
  lemma NoNegativeKeywordDropsNothing(raw: Option<string>, vs: seq<Video>)
    requires !Enabled(raw) || Keywords(raw.value) == []
    ensures NegativeFilter(raw, vs) == vs
  {
    if Enabled(raw) {
      FilterKeepsAll(vs, Avoiding(Keywords(raw.value)));
    }
  }

  /** The source's test `durationInMinutes >= min && durationInMinutes <= max`
      with `durationInMinutes = seconds / 60` computed exactly. */
  ghost predicate MinutesWithin(seconds: nat, minD: Option<int>, maxD: Option<int>) {
    && (minD.None? || (seconds as real) / 60.0 >= minD.value as real)
    && (maxD.None? || (seconds as real) / 60.0 <= maxD.value as real)
  }

  /** The same test on integers. */
  predicate WithinBounds(seconds: nat, minD: Option<int>, maxD: Option<int>)
    ensures WithinBounds(seconds, minD, maxD) <==> MinutesWithin(seconds, minD, maxD)
  {
    && (minD.None? || seconds >= 60 * minD.value)
    && (maxD.None? || seconds <= 60 * maxD.value)
  }

  /** Duration bounds: with at least one numeric bound, exactly the videos
      whose parsed duration in minutes lies within the bounds survive, in
      order; with none, the list is unchanged. */
  function DurationFilter(minD: Option<int>, maxD: Option<int>, vs: seq<Video>): (r: seq<Video>)
    ensures IsSubsequence(r, vs)
    ensures minD.None? && maxD.None? ==> r == vs
    ensures forall v :: v in r <==> v in vs && MinutesWithin(ParseDuration(v.duration), minD, maxD)
  {
    if minD.Some? || maxD.Some? then
      Filter(vs, (v: Video) => WithinBounds(ParseDuration(v.duration), minD, maxD))
    else
      SubsequenceReflexive(vs);
      vs
  }

  /** A video passes a channel's rule. */
  ghost predicate PassesRule(rule: ChannelRule, v: Video) {
    && (Enabled(rule.keywords) ==> KeywordHit(Keywords(rule.keywords.value), v))
    && (Enabled(rule.negativeKeywords) ==> !KeywordHit(Keywords(rule.negativeKeywords.value), v))
    && MinutesWithin(ParseDuration(v.duration), rule.minDuration, rule.maxDuration)
  }

  /** The whole chain in the source's order: the result keeps the input's
      order and holds exactly the input videos that pass the rule. */
  function FilterChain(rule: ChannelRule, vs: seq<Video>): (r: seq<Video>)
    ensures IsSubsequence(r, vs)
    ensures forall v :: v in r <==> v in vs && PassesRule(rule, v)
  {
    var afterKeywords := KeywordFilter(rule.keywords, vs);
    var afterNegative := NegativeFilter(rule.negativeKeywords, afterKeywords);
    var r := DurationFilter(rule.minDuration, rule.maxDuration, afterNegative);
    SubsequenceTransitive(afterNegative, afterKeywords, vs);
    SubsequenceTransitive(r, afterNegative, vs);
    r
  }

  /** A keyword string made only of commas passes the non-blank guard but
      yields no keyword, so it keeps no video at all. */
  lemma CommaOnlyKeepsNothing(vs: seq<Video>)
    ensures Enabled(Some(","))
    ensures KeywordFilter(Some(","), vs) == []
  {
    TrimOfTrimmed(",");
    CommaHasNoKeywords();
    var r := KeywordFilter(Some(","), vs);
    assert forall v :: !KeywordHit([], v);
  }

  lemma CommaHasNoKeywords()
    ensures Keywords(",") == []
  {
    var low := Lower(",");
    assert low == ",";
    assert Split(low, ',') == [[]] + Split([], ',');
    assert Split(low, ',') == [[], []];
    assert Trim([]) == [];
    var trimmed := TrimAll(Split(low, ','));
    assert trimmed == [[], []];
    assert forall k :: k in NonEmpty(trimmed) ==> k in trimmed && k != [];
    assert Keywords(",") == NonEmpty(trimmed);
  }
}
