/** De-duplication of one channel's filtered videos against the
    membership set, which grows as videos are accepted so that a later
    video, from this channel or a later one, cannot repeat an id. */
module Dedup {
  import opened Seqs
  import opened Videos

  datatype Accepted = Accepted(added: seq<Video>, seen: set<Id>)

  /** Walk `vs` in order: a video whose id is not yet in `seen` is appended
      to the accepted list and its id added to `seen`; any other is
      skipped. */
  function Deduplicate(vs: seq<Video>, seen: set<Id>): (r: Accepted)
    ensures r.seen == seen + IdsOf(r.added)
    ensures IdsOf(r.added) == IdsOf(vs) - seen
    ensures forall i :: 0 <= i < |vs| && vs[i].id !in seen && vs[i].id !in IdsOf(vs[..i]) ==> vs[i] in r.added
  {
    if vs == [] then Accepted([], seen)
    else
      var v := vs[0];
      IdsOfCons(v, vs[1..]);
      assert [v] + vs[1..] == vs;
      if v.id in seen then
        var rest := Deduplicate(vs[1..], seen);
        KeepsFirstStep(vs, seen, seen, rest.added, rest.added);
        rest
      else
        var rest := Deduplicate(vs[1..], seen + {v.id});
        IdsOfCons(v, rest.added);
        KeepsFirstStep(vs, seen, seen + {v.id}, rest.added, [v] + rest.added);
        Accepted([v] + rest.added, rest.seen)
  }

  /** One step of `Deduplicate`: if the walk over the tail keeps each first
      occurrence of an id new to `next`, the walk over `vs` keeps each first
      occurrence of an id new to `seen`. */
  lemma KeepsFirstStep(vs: seq<Video>, seen: set<Id>, next: set<Id>, rest: seq<Video>, r: seq<Video>)
    requires vs != []
    requires next == if vs[0].id in seen then seen else seen + {vs[0].id}
    requires forall j :: 0 <= j < |vs[1..]| && vs[1..][j].id !in next && vs[1..][j].id !in IdsOf(vs[1..][..j]) ==> vs[1..][j] in rest
    requires r == if vs[0].id in seen then rest else [vs[0]] + rest
    ensures forall i :: 0 <= i < |vs| && vs[i].id !in seen && vs[i].id !in IdsOf(vs[..i]) ==> vs[i] in r
  {
    forall i | 0 <= i < |vs| && vs[i].id !in seen && vs[i].id !in IdsOf(vs[..i])
      ensures vs[i] in r
    {
      if i > 0 {
        var j := i - 1;
        assert vs[1..][j] == vs[i];
        assert vs[..i] == [vs[0]] + vs[1..][..j];
        IdsOfCons(vs[0], vs[1..][..j]);
      }
    }
  }

  /** The accepted videos keep their relative order from `vs` and carry no
      id twice. */
  lemma {:induction false} DeduplicateKeepsOrder(vs: seq<Video>, seen: set<Id>)
    ensures UniqueIds(Deduplicate(vs, seen).added)
    ensures IsSubsequence(Deduplicate(vs, seen).added, vs)
  {
    if vs != [] {
      var v := vs[0];
      if v.id in seen {
        DeduplicateKeepsOrder(vs[1..], seen);
      } else {
        var rest := Deduplicate(vs[1..], seen + {v.id});
        DeduplicateKeepsOrder(vs[1..], seen + {v.id});
        UniqueIdsCons(v, rest.added);
        assert ([v] + rest.added)[1..] == rest.added;
      }
    }
  }
}
