/** The string operations the keyword filters rely on: JavaScript's
    `trim`, `split(',')`, `toLowerCase` (ASCII letters only) and
    `includes`/`indexOf`, each with an independent characterisation.
 */
module Text {

  /** The characters JavaScript's `String.prototype.trim` removes:
      WhiteSpace (tab, VT, FF, space, NBSP, BOM, category Zs) and
      LineTerminator (LF, CR, LS, PS). */
  predicate IsSpace(c: char) {
    || c == '\t' || c == '\n' || c == '\U{000B}' || c == '\U{000C}' || c == '\r'
    || c == ' ' || c == '\U{00A0}' || c == '\U{1680}'
    || ('\U{2000}' <= c <= '\U{200A}')
    || c == '\U{2028}' || c == '\U{2029}' || c == '\U{202F}' || c == '\U{205F}'
    || c == '\U{3000}' || c == '\U{FEFF}'
  }

  predicate AllSpace(s: string) {
    forall k :: 0 <= k < |s| ==> IsSpace(s[k])
  }

  /** Neither end of `s` is a whitespace character. */
  predicate IsTrimmed(s: string) {
    s == [] || (!IsSpace(s[0]) && !IsSpace(s[|s| - 1]))
  }

  /** `s` with its leading whitespace removed. */
  function TrimStart(s: string): (r: string)
    ensures |r| <= |s| && r == s[|s| - |r|..]
    ensures AllSpace(s[..|s| - |r|])
    ensures r == [] || !IsSpace(r[0])
  {
    if s != [] && IsSpace(s[0]) then TrimStart(s[1..]) else s
  }

  /** `s` with its trailing whitespace removed. */
  function TrimEnd(s: string): (r: string)
    ensures |r| <= |s| && r == s[..|r|]
    ensures AllSpace(s[|r|..])
    ensures r == [] || !IsSpace(r[|r| - 1])
  {
    if s != [] && IsSpace(s[|s| - 1]) then TrimEnd(s[..|s| - 1]) else s
  }

  /** JavaScript's `s.trim()`: the result starts and ends with a
      non-whitespace character, and `TrimSurroundings` places it in `s`. */
  function Trim(s: string): (r: string)
    ensures IsTrimmed(r)
    ensures forall c :: c in r ==> c in s
  {
    TrimEnd(TrimStart(s))
  }

  /** `s` is some whitespace, then `Trim(s)`, then some more whitespace. */
  lemma TrimSurroundings(s: string)
    ensures var r := Trim(s);
      exists i :: 0 <= i <= |s| - |r| && s[i..i + |r|] == r && AllSpace(s[..i]) && AllSpace(s[i + |r|..])
  {
    Surrounded(s, TrimStart(s), Trim(s));
  }

  /** `r` is a prefix of a suffix `t` of `s`, with whitespace cut off on
      both sides. */
  lemma Surrounded(s: string, t: string, r: string)
    requires |t| <= |s| && t == s[|s| - |t|..] && AllSpace(s[..|s| - |t|])
    requires |r| <= |t| && r == t[..|r|] && AllSpace(t[|r|..])
    ensures exists i :: 0 <= i <= |s| - |r| && s[i..i + |r|] == r && AllSpace(s[..i]) && AllSpace(s[i + |r|..])
  {
    var i := |s| - |t|;
    SliceOfSuffix(s, i, |r|);
    SpaceAfter(s, t, i, |r|);
    assert s[i..i + |r|] == r;
  }

  lemma SliceOfSuffix<T>(s: seq<T>, i: nat, n: nat)
    requires i + n <= |s|
    ensures s[i..i + n] == s[i..][..n] && s[i + n..] == s[i..][n..]
  {
  }

  /** Whitespace after position `n` of a suffix `t` of `s` is whitespace
      after the matching position of `s`. */
  lemma SpaceAfter(s: string, t: string, i: nat, n: nat)
    requires i <= |s| && t == s[i..] && n <= |t|
    requires AllSpace(t[n..])
    ensures AllSpace(s[i + n..])
  {
    forall k | i + n <= k < |s|
      ensures IsSpace(s[k])
    {
      assert s[k] == t[n..][k - i - n];
    }
  }

  lemma {:induction false} TrimOfTrimmed(s: string)
    requires IsTrimmed(s)
    ensures Trim(s) == s
  {
    if s != [] {
      assert TrimStart(s) == s;
      assert TrimEnd(s) == s;
    }
  }

  /** ASCII lower-casing of one character. */
  function LowerChar(c: char): char {
    if 'A' <= c <= 'Z' then (c as int + 32) as char else c
  }

  /** `s.toLowerCase()` restricted to ASCII letters. */
  function Lower(s: string): (r: string)
    ensures |r| == |s|
    ensures forall i :: 0 <= i < |s| ==> r[i] == LowerChar(s[i])
  {
    seq(|s|, i requires 0 <= i < |s| => LowerChar(s[i]))
  }

  /** Lower-casing is idempotent and leaves no ASCII capital behind. */
  lemma LowerIsIdempotent(s: string)
    ensures Lower(Lower(s)) == Lower(s)
    ensures forall i :: 0 <= i < |s| ==> !('A' <= Lower(s)[i] <= 'Z')
  {
  }

  // ---------------------------------------------------------------------
  // split / join on a single separator character

  /** JavaScript's `s.split(sep)` for a one-character separator: the maximal
      separator-free pieces, in order; "" splits into [""] and a separator
      at either end yields an empty piece there. */
  function Split(s: string, sep: char): (parts: seq<string>)
    ensures |parts| >= 1
    ensures forall p :: p in parts ==> sep !in p
    decreases |s|
  {
    if s == [] then [[]]
    else
      var rest := Split(s[1..], sep);
      if s[0] == sep then [[]] + rest
      else
        assert sep !in rest[0];
        [[s[0]] + rest[0]] + rest[1..]
  }

  /** `parts.join(sep)`. */
  function Join(parts: seq<string>, sep: char): string
    requires |parts| >= 1
  {
    if |parts| == 1 then parts[0] else parts[0] + [sep] + Join(parts[1..], sep)
  }

  /** Splitting loses nothing: the pieces joined back give the input. */
  lemma {:induction false} JoinSplit(s: string, sep: char)
    ensures Join(Split(s, sep), sep) == s
    decreases |s|
  {
    if s != [] {
      var rest := Split(s[1..], sep);
      JoinSplit(s[1..], sep);
      if s[0] == sep {
        assert Split(s, sep) == [[]] + rest;
        assert ([[]] + rest)[1..] == rest;
      } else {
        var parts := Split(s, sep);
        assert parts == [[s[0]] + rest[0]] + rest[1..];
        if |rest| == 1 {
          assert parts == [[s[0]] + rest[0]];
        } else {
          assert parts[1..] == rest[1..];
          assert Join(rest, sep) == rest[0] + [sep] + Join(rest[1..], sep);
        }
      }
    }
  }

  /** The converse: separator-free pieces are recovered from their join. */
  lemma {:induction false} SplitJoin(parts: seq<string>, sep: char)
    requires |parts| >= 1
    requires forall p :: p in parts ==> sep !in p
    ensures Split(Join(parts, sep), sep) == parts
    decreases |Join(parts, sep)|, |parts[0]|
  {
    if |parts| == 1 {
      SplitPiece(parts[0], [], sep);
      assert parts[0] + [] == parts[0];
      assert parts == [parts[0]];
    } else {
      var tail := Join(parts[1..], sep);
      SplitJoin(parts[1..], sep);
      SplitPiece(parts[0], [sep] + tail, sep);
      assert parts[0] + [sep] + tail == parts[0] + ([sep] + tail);
      assert ([sep] + tail)[1..] == tail;
    }
  }

  /** Splitting `p + rest` where `p` holds no separator and `rest` is empty
      or starts with one: `p` is the first piece. */
  lemma {:induction false} SplitPiece(p: string, rest: string, sep: char)
    requires sep !in p
    requires rest == [] || rest[0] == sep
    ensures rest == [] ==> Split(p + rest, sep) == [p]
    ensures rest != [] ==> Split(p + rest, sep) == [p] + Split(rest[1..], sep)
    decreases |p|
  {
    if p == [] {
      assert p + rest == rest;
    } else {
      SplitPiece(p[1..], rest, sep);
      assert (p + rest)[1..] == p[1..] + rest;
      assert [p[0]] + p[1..] == p;
    }
  }

  // ---------------------------------------------------------------------
  // substring search

  /** `pat` occurs in `text` starting at index `j`. */
  predicate OccursAt(text: string, pat: string, j: nat) {
    j + |pat| <= |text| && text[j..j + |pat|] == pat
  }

  /** Reference meaning of `text.includes(pat)`. */
  ghost predicate Occurs(pat: string, text: string) {
    exists j: nat :: OccursAt(text, pat, j)
  }

  /** The first occurrence of `pat` in `text` at or after `from`, scanning
      left to right as `indexOf` does. */
  function IndexFrom(text: string, pat: string, from: nat): (r: Option<nat>)
    ensures r.Some? ==> from <= r.value && OccursAt(text, pat, r.value)
    ensures r.Some? ==> forall j: nat :: from <= j < r.value ==> !OccursAt(text, pat, j)
    ensures r.None? ==> forall j: nat :: from <= j ==> !OccursAt(text, pat, j)
    decreases |text| - from
  {
    if from + |pat| > |text| then None
    else if text[from..from + |pat|] == pat then Some(from)
    else IndexFrom(text, pat, from + 1)
  }

  /** `text.indexOf(pat)`, with -1 as `None`. */
  function IndexOf(text: string, pat: string): (r: Option<nat>)
    ensures r.Some? <==> Occurs(pat, text)
    ensures r.Some? ==> OccursAt(text, pat, r.value) && forall j: nat :: j < r.value ==> !OccursAt(text, pat, j)
  {
    var r := IndexFrom(text, pat, 0);
    if r.Some? then
      assert OccursAt(text, pat, r.value);
      r
    else r
  }

  /** `text.includes(pat)`. */
  predicate Contains(text: string, pat: string) {
    IndexOf(text, pat).Some?
  }

  import opened Values
}
