/** `parseISO8601Duration`: the `PTnHnMnS` time form of an ISO 8601
    duration (section 4.4.3.2 of ISO 8601:2004) read the way the job reads
    it, with the unanchored pattern `PT(?:(\d+)H)?(?:(\d+)M)?(?:(\d+)S)?`.
    The match starts at the first "PT" anywhere in the string, each
    component is optional, and `parseInt` reads each digit run in base 10.
 */
module Duration {
  import opened Values
  import opened Text

  predicate IsDigit(c: char) {
    '0' <= c <= '9'
  }

  predicate AllDigits(s: string) {
    forall k :: 0 <= k < |s| ==> IsDigit(s[k])
  }

  /** `parseInt` of a run of decimal digits. */
  function DecimalValue(ds: string): nat
    requires AllDigits(ds)
  {
    if ds == [] then 0
    else DecimalValue(ds[..|ds| - 1]) * 10 + (ds[|ds| - 1] as int - '0' as int)
  }

  /** The decimal numeral of `n`, without leading zeros. */
  function Decimal(n: nat): (ds: string)
    ensures ds != [] && AllDigits(ds)
  {
    var d := ('0' as int + n % 10) as char;
    if n < 10 then [d] else Decimal(n / 10) + [d]
  }

  /** Reading a numeral back gives the number. */
  lemma {:induction false} DecimalRoundTrip(n: nat)
    ensures DecimalValue(Decimal(n)) == n
  {
    var ds := Decimal(n);
    if n >= 10 {
      DecimalRoundTrip(n / 10);
      assert ds[..|ds| - 1] == Decimal(n / 10);
    }
  }

  /** The length of the longest all-digit prefix of `s`: what the greedy
      `\d+` consumes. */
  function DigitRun(s: string): (k: nat)
    ensures k <= |s| && AllDigits(s[..k])
    ensures k == |s| || !IsDigit(s[k])
  {
    if s != [] && IsDigit(s[0]) then
      var k := 1 + DigitRun(s[1..]);
      assert s[..k] == [s[0]] + s[1..][..k - 1];
      k
    else 0
  }

  /** One optional group `(?:(\d+)U)?` of the pattern: when a digit run
      followed by the unit letter `unit` starts `s`, its value and the rest
      of `s`; otherwise no value and `s` untouched. */
  datatype Component = Component(value: Option<nat>, rest: string)

  function TakeComponent(s: string, unit: char): Component {
    var k := DigitRun(s);
    if 0 < k < |s| && s[k] == unit then Component(Some(DecimalValue(s[..k])), s[k + 1..])
    else Component(None, s)
  }

  /** `parseISO8601Duration(isoDuration)`: seconds; a falsy input or one with
      no "PT" gives 0, and a missing component counts as 0. */
  function ParseDuration(iso: Option<string>): (seconds: nat)
  {
    if !Truthy(iso) then 0
    else
      match IndexOf(iso.value, "PT")
      case None => 0
      case Some(i) => ReadComponents(iso.value[i + 2..])
  }

  /** The three optional groups after "PT", in the order H, M, S. */
  function ReadComponents(t: string): nat {
    var h := TakeComponent(t, 'H');
    var m := TakeComponent(h.rest, 'M');
    var s := TakeComponent(m.rest, 'S');
    h.value.GetOr(0) * 3600 + m.value.GetOr(0) * 60 + s.value.GetOr(0)
  }

  /** The duration string "PT[h H][m M][s S]" with the given components. */
  function Render(h: Option<nat>, m: Option<nat>, s: Option<nat>): string {
    "PT" + Part(h, 'H') + Part(m, 'M') + Part(s, 'S')
  }

  function Part(n: Option<nat>, unit: char): string {
    if n.Some? then Decimal(n.value) + [unit] else []
  }

  /** Absent, empty and unmatched inputs are zero seconds. */
  lemma UnmatchedIsZero(iso: Option<string>)
    requires iso.None? || !Occurs("PT", iso.value)
    ensures ParseDuration(iso) == 0
  {
  }

  /** The duration form is read back exactly: with any subset of the hour,
      minute and second components present, the result is
      h*3600 + m*60 + s with missing components counted as zero. */
  lemma {:induction false} ParseRender(h: Option<nat>, m: Option<nat>, s: Option<nat>)
    ensures ParseDuration(Some(Render(h, m, s))) == h.GetOr(0) * 3600 + m.GetOr(0) * 60 + s.GetOr(0)
  {
    var body := Part(h, 'H') + (Part(m, 'M') + Part(s, 'S'));
    assert Render(h, m, s) == "PT" + body;
    ReadAfterPT(body);
    ReadRendered(h, m, s);
  }

  /** A string that starts with "PT" is read from just after it. */
  lemma ReadAfterPT(body: string)
    ensures ParseDuration(Some("PT" + body)) == ReadComponents(body)
  {
    var str := "PT" + body;
    assert OccursAt(str, "PT", 0);
    assert str[2..] == body;
  }

  lemma {:induction false} ReadRendered(h: Option<nat>, m: Option<nat>, s: Option<nat>)
    ensures ReadComponents(Part(h, 'H') + (Part(m, 'M') + Part(s, 'S'))) == h.GetOr(0) * 3600 + m.GetOr(0) * 60 + s.GetOr(0)
  {
    var sRest := Part(s, 'S');
    var mRest := Part(m, 'M') + sRest;
    assert sRest + [] == sRest;
    NothingStartsEmpty('M');
    NothingStartsEmpty('H');
    PartStartsOnlyItself(s, 'S', [], 'M');
    PartStartsOnlyItself(s, 'S', [], 'H');
    PartStartsOnlyItself(m, 'M', sRest, 'H');
    TakeThenRest(h, 'H', mRest);
    TakeThenRest(m, 'M', sRest);
    TakeThenRest(s, 'S', []);
    var hc := TakeComponent(Part(h, 'H') + mRest, 'H');
    var mc := TakeComponent(hc.rest, 'M');
    var sc := TakeComponent(mc.rest, 'S');
    assert hc == Component(h, mRest) && mc == Component(m, sRest) && sc == Component(s, []);
  }

  lemma NothingStartsEmpty(unit: char)
    ensures !StartsComponent([], unit)
  {
    assert DigitRun([]) == 0;
  }

  /** A rendered component, or when it is absent whatever follows, does not
      start with a group for a different unit letter. */
  lemma PartStartsOnlyItself(n: Option<nat>, unit: char, rest: string, other: char)
    requires !IsDigit(unit) && other != unit
    requires n.None? ==> !StartsComponent(rest, other)
    ensures !StartsComponent(Part(n, unit) + rest, other)
  {
    if n.Some? {
      PartDigitRun(n, unit, rest);
    } else {
      assert Part(n, unit) + rest == rest;
    }
  }

  /** `s` starts with a group `(\d+)U` for the unit letter `unit`. */
  predicate StartsComponent(s: string, unit: char) {
    var k := DigitRun(s);
    0 < k < |s| && s[k] == unit
  }

  /** The digit run of a rendered component ends at its unit letter. */
  lemma PartDigitRun(n: Option<nat>, unit: char, rest: string)
    requires n.Some? && !IsDigit(unit)
    ensures DigitRun(Part(n, unit) + rest) == |Decimal(n.value)|
    ensures (Part(n, unit) + rest)[|Decimal(n.value)|] == unit
  {
    var ds := Decimal(n.value);
    assert Part(n, unit) + rest == ds + ([unit] + rest);
    DigitRunPrefix(ds, [unit] + rest);
  }

  /** Reading the group for `unit` off `Part(n, unit) + rest` gives `n`
      back and leaves `rest`, provided that when `n` is absent `rest` does
      not itself start with a group for `unit`. */
  lemma {:induction false} TakeThenRest(n: Option<nat>, unit: char, rest: string)
    requires !IsDigit(unit)
    requires n.None? ==> !StartsComponent(rest, unit)
    ensures TakeComponent(Part(n, unit) + rest, unit) == Component(n, rest)
  {
    if n.Some? {
      var ds := Decimal(n.value);
      var str := ds + [unit] + rest;
      PartDigitRun(n, unit, rest);
      assert str[..|ds|] == ds;
      DecimalRoundTrip(n.value);
      assert str[|ds| + 1..] == rest;
    } else {
      assert Part(n, unit) + rest == rest;
    }
  }

  /** The digit run of `ds + rest` is exactly `ds` when `rest` does not
      start with a digit. */
  lemma {:induction false} DigitRunPrefix(ds: string, rest: string)
    requires AllDigits(ds)
    requires rest == [] || !IsDigit(rest[0])
    ensures DigitRun(ds + rest) == |ds|
    decreases |ds|
  {
    if ds != [] {
      DigitRunPrefix(ds[1..], rest);
      assert (ds + rest)[1..] == ds[1..] + rest;
    } else {
      assert ds + rest == rest;
    }
  }

  /** A duration with a day part, such as "P1DT2H", contains no "PT" and so
      is read as zero seconds. */
  lemma DayPartReadsAsZero()
    ensures ParseDuration(Some("P1DT2H")) == 0
  {
    var s := "P1DT2H";
    assert s == ['P', '1', 'D', 'T', '2', 'H'];
    forall j: nat
      ensures !OccursAt(s, "PT", j)
    {
      if j + 2 <= |s| {
        assert s[j..j + 2][0] == s[j] && s[j..j + 2][1] == s[j + 1];
        assert s[j] != 'P' || s[j + 1] != 'T';
      }
    }
    assert !Occurs("PT", s);
  }
}
