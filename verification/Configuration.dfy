/** The plugin's configuration: the daily times it parses and when two configurations agree. */
module Configuration {
  import opened Text
  import opened Civil

  // ----- daily times -----

  const MAX_TIME_POINTS := 64

  function SplitColons(s: string): (parts: seq<string>)
    ensures parts != []
  {
    if s == [] then [[]]
    else
      var rest := SplitColons(s[1..]);
      if s[0] == ':' then [[]] + rest else [[s[0]] + rest[0]] + rest[1..]
  }

  /** One or two characters that strconv.Atoi accepts, within range. */
  function TimePart(text: string, max: int): Option<nat> {
    if |text| < 1 || |text| > 2 then None
    else
      match ParseInt(text)
      case None => None
      case Some(v) => if v < 0 || v > max then None else Some(v)
  }

  function ParseDailyTime(value: string): (r: Option<DailyTime>)
    ensures r.Some? ==> Canonical(r.value)
  {
    var parts := SplitColons(Trim(value));
    if |parts| != 2 && |parts| != 3 then None
    else
      var hour, minute := TimePart(parts[0], 23), TimePart(parts[1], 59);
      var second := if |parts| == 3 then TimePart(parts[2], 59) else Some(0);
      if hour.None? || minute.None? || second.None? then None
      else
        Some(DailyTime(hour.value, minute.value, second.value, TimeText(hour.value, minute.value, second.value)))
  }

  lemma {:induction false} SplitWithoutColon(s: string)
    requires ':' !in s
    ensures SplitColons(s) == [s]
  {
    if s != [] {
      SplitWithoutColon(s[1..]);
      assert s[0] in s && [s[0]] + s[1..] == s;
    }
  }

  lemma {:induction false} SplitAfterColon(a: string, b: string)
    requires ':' !in a
    ensures SplitColons(a + ":" + b) == [a] + SplitColons(b)
  {
    var s := a + ":" + b;
    if a == [] {
      assert s[1..] == b;
    } else {
      SplitAfterColon(a[1..], b);
      assert s[1..] == a[1..] + ":" + b;
      assert a[0] in a && s[0] == a[0] && [a[0]] + a[1..] == a;
      assert ([a[1..]] + SplitColons(b))[1..] == SplitColons(b);
    }
  }

  /** Splitting off the first part. */
  lemma {:induction false} SplitFirst(s: string) returns (rest: string)
    ensures |SplitColons(s)| == 1 ==> s == SplitColons(s)[0]
    ensures |SplitColons(s)| > 1 ==> s == SplitColons(s)[0] + ":" + rest && SplitColons(rest) == SplitColons(s)[1..]
  {
    rest := "";
    if s != [] {
      if s[0] == ':' {
        rest := s[1..];
      } else {
        rest := SplitFirst(s[1..]);
      }
    }
  }

  /** The spellings of a number that a time may use: one digit, two, or a sign and one. */
  predicate Spells(text: string, n: nat) {
    || (n < 10 && (text == [Digit(n)] || text == ['+', Digit(n)]))
    || (n < 100 && text == TwoDigits(n))
    || (n == 0 && text == "-0")
  }

  lemma PartSpells(text: string, max: nat, n: nat)
    requires max < 100
    ensures TimePart(text, max) == Some(n) <==> n <= max && Spells(text, n)
    ensures Spells(text, n) ==> ':' !in text
  {
    if |text| == 1 {
      ShortSpells(text, n);
    } else if |text| == 2 && (text[0] == '-' || text[0] == '+') {
      SignedSpells(text, n);
    } else if |text| == 2 {
      LongSpells(text, n);
    }
    hide ParseInt;
    if Spells(text, n) {
      NoColon(text, n);
    }
    hide Spells;
  }

  lemma NoColon(text: string, n: nat)
    requires Spells(text, n)
    ensures ':' !in text && 1 <= |text| <= 2
  {
  }

  lemma ShortSpells(text: string, n: nat)
    requires |text| == 1
    ensures ParseInt(text) == Some(n) <==> Spells(text, n)
    ensures ParseInt(text).Some? ==> ParseInt(text).value >= 0
  {
    OneDigit(text);
  }

  lemma SignedSpells(text: string, n: nat)
    requires |text| == 2 && (text[0] == '-' || text[0] == '+')
    ensures ParseInt(text) == Some(n) <==> Spells(text, n)
  {
    OneDigit(text[1..]);
    assert text == [text[0]] + text[1..];
  }

  lemma LongSpells(text: string, n: nat)
    requires |text| == 2 && text[0] != '-' && text[0] != '+'
    ensures ParseInt(text) == Some(n) <==> Spells(text, n)
    ensures ParseInt(text).Some? ==> ParseInt(text).value >= 0
  {
    TwoDigitsValue(text);
    hide DigitsValue;
    if n < 100 && text == TwoDigits(n) && DigitsValue(text) < 100 {
      TwoDigitsInjective(n, DigitsValue(text));
    }
  }

  lemma OneDigit(text: string)
    requires |text| == 1
    ensures AllDigits(text) ==> DigitsValue(text) == DigitValue(text[0]) && text == [Digit(DigitValue(text[0]))]
  {
    assert text[..0] == [];
  }

  lemma TwoDigitsValue(text: string)
    requires |text| == 2
    ensures AllDigits(text) ==>
              && DigitsValue(text) == DigitValue(text[0]) * 10 + DigitValue(text[1]) < 100
              && text == TwoDigits(DigitsValue(text))
  {
    if AllDigits(text) {
      assert text[..1][..0] == [] && text[..|text| - 1] == text[..1];
      assert DigitsValue(text[..1]) == DigitValue(text[0]);
    }
  }

  ghost predicate TwoParts(text: string, t: DailyTime) {
    t.second == 0 && exists h, m :: Spells(h, t.hour) && Spells(m, t.minute) && text == h + ":" + m
  }

  ghost predicate ThreeParts(text: string, t: DailyTime) {
    exists h, m, s :: Spells(h, t.hour) && Spells(m, t.minute) && Spells(s, t.second) && text == h + ":" + (m + ":" + s)
  }

  /** Exactly the texts that are accepted as a time of day: the hour and the minute, or those and the
      second, each spelled out, with white space around it all. */
  lemma AcceptedTimes(value: string, t: DailyTime)
    ensures ParseDailyTime(value) == Some(t) <==> Canonical(t) && (TwoParts(Trim(value), t) || ThreeParts(Trim(value), t))
  {
    hide TimePart, Trim, Spells, TimeText;
    var text := Trim(value);
    if ParseDailyTime(value) == Some(t) {
      PartsAreSpelled(text, t);
    }
    if Canonical(t) && TwoParts(text, t) {
      var h, m :| Spells(h, t.hour) && Spells(m, t.minute) && text == h + ":" + m;
      PartSpells(h, 23, t.hour);
      PartSpells(m, 59, t.minute);
      SplitWithoutColon(m);
      SplitAfterColon(h, m);
    } else if Canonical(t) && ThreeParts(text, t) {
      var h, m, s :| Spells(h, t.hour) && Spells(m, t.minute) && Spells(s, t.second) && text == h + ":" + (m + ":" + s);
      PartSpells(h, 23, t.hour);
      PartSpells(m, 59, t.minute);
      PartSpells(s, 59, t.second);
      SplitWithoutColon(s);
      SplitAfterColon(m, s);
      SplitAfterColon(h, m + ":" + s);
    }
  }

  lemma PartsAreSpelled(text: string, t: DailyTime)
    requires var parts := SplitColons(text);
      && (|parts| == 2 || |parts| == 3)
      && TimePart(parts[0], 23) == Some(t.hour) && TimePart(parts[1], 59) == Some(t.minute)
      && (if |parts| == 3 then TimePart(parts[2], 59) == Some(t.second) else t.second == 0)
    ensures TwoParts(text, t) || ThreeParts(text, t)
  {
    hide TimePart, Spells;
    var parts := SplitColons(text);
    var rest := SplitFirst(text);
    var last := SplitFirst(rest);
    PartSpells(parts[0], 23, t.hour);
    PartSpells(parts[1], 59, t.minute);
    if |parts| == 3 {
      var end := SplitFirst(last);
      PartSpells(parts[2], 59, t.second);
      assert text == parts[0] + ":" + (parts[1] + ":" + parts[2]);
    } else {
      assert text == parts[0] + ":" + parts[1];
    }
  }

  lemma ParseTwoDigits(n: nat, max: int)
    requires n < 100 && n <= max
    ensures TimePart(TwoDigits(n), max) == Some(n)
    ensures ':' !in TwoDigits(n)
  {
    var s := TwoDigits(n);
    assert s[..1][..0] == [] && s[..|s| - 1] == s[..1];
    assert DigitsValue(s[..1]) == n / 10;
  }

  /** The canonical text of a time of day is parsed back to it. */
  lemma ParseCanonicalText(t: DailyTime)
    requires Canonical(t)
    ensures ParseDailyTime(t.text) == Some(t)
  {
    hide TimePart, TwoDigits;
    ParseTwoDigits(t.hour, 23);
    ParseTwoDigits(t.minute, 59);
    ParseTwoDigits(t.second, 59);
    var h, m, s := TwoDigits(t.hour), TwoDigits(t.minute), TwoDigits(t.second);
    assert t.text == h + ":" + (m + ":" + s);
    SplitWithoutColon(s);
    SplitAfterColon(m, s);
    SplitAfterColon(h, m + ":" + s);
    NoSpaceAtEnds(t.text, t.hour, t.second);
  }

  lemma NoSpaceAtEnds(text: string, hour: nat, second: nat)
    requires |text| == 8 && hour < 100 && second < 100
    requires text[0] == TwoDigits(hour)[0] && text[7] == TwoDigits(second)[1]
    ensures Trim(text) == text
  {
  }

  predicate Increasing(times: seq<DailyTime>) {
    forall i, j | 0 <= i < j < |times| :: SecondsSinceMidnight(times[i]) < SecondsSinceMidnight(times[j])
  }

  /** A configuration's times: canonical, and strictly increasing through the day. */
  predicate Normalized(times: seq<DailyTime>) {
    (forall t | t in times :: Canonical(t)) && Increasing(times)
  }

  function InsertTime(t: DailyTime, times: seq<DailyTime>): (r: seq<DailyTime>)
    ensures multiset(r) == multiset(times) + multiset{t}
  {
    if times == [] || SecondsSinceMidnight(t) < SecondsSinceMidnight(times[0]) then [t] + times
    else
      assert times == [times[0]] + times[1..];
      [times[0]] + InsertTime(t, times[1..])
  }

  lemma {:induction false} InsertTimeIncreasing(t: DailyTime, times: seq<DailyTime>)
    requires Increasing(times)
    requires forall u | u in times :: SecondsSinceMidnight(u) != SecondsSinceMidnight(t)
    ensures Increasing(InsertTime(t, times))
  {
    hide SecondsSinceMidnight;
    if times != [] && SecondsSinceMidnight(t) > SecondsSinceMidnight(times[0]) {
      InsertTimeIncreasing(t, times[1..]);
      var tail := InsertTime(t, times[1..]);
      forall j | 0 <= j < |tail|
        ensures SecondsSinceMidnight(times[0]) < SecondsSinceMidnight(tail[j])
      {
        assert tail[j] in multiset(tail);
        assert tail[j] == t || tail[j] in times[1..];
      }
    }
  }

  /** The library sort, on times whose seconds of day differ. */
  method SortTimes(times: seq<DailyTime>) returns (out: seq<DailyTime>)
    requires forall i, j | 0 <= i < j < |times| :: SecondsSinceMidnight(times[i]) != SecondsSinceMidnight(times[j])
    ensures multiset(out) == multiset(times) && Increasing(out)
  {
    hide SecondsSinceMidnight;
    out := [];
    for i := 0 to |times|
      invariant multiset(out) == multiset(times[..i]) && Increasing(out)
    {
      forall u | u in out
        ensures SecondsSinceMidnight(u) != SecondsSinceMidnight(times[i])
      {
        assert u in multiset(out);
      }
      InsertTimeIncreasing(times[i], out);
      assert times[..i + 1] == times[..i] + [times[i]];
      out := InsertTime(times[i], out);
    }
    assert times[..|times|] == times;
  }

  predicate AllParse(values: seq<string>) {
    forall v | v in values :: ParseDailyTime(v).Some?
  }

  /** One of the values parses to the time. */
  predicate Names(values: seq<string>, t: DailyTime) {
    exists v | v in values :: ParseDailyTime(v) == Some(t)
  }

  lemma NamesOneMore(values: seq<string>, v: string)
    ensures forall t :: Names(values + [v], t) <==> Names(values, t) || ParseDailyTime(v) == Some(t)
    ensures AllParse(values + [v]) <==> AllParse(values) && ParseDailyTime(v).Some?
  {
  }

  function Texts(times: seq<DailyTime>): set<string> { set t | t in times :: t.text }

  predicate TextsDiffer(times: seq<DailyTime>) {
    forall j, k | 0 <= j < k < |times| :: times[j].text != times[k].text
  }

  lemma OneMoreText(times: seq<DailyTime>, t: DailyTime)
    ensures Texts(times + [t]) == Texts(times) + {t.text}
    ensures TextsDiffer(times) && t.text !in Texts(times) ==> TextsDiffer(times + [t])
    ensures forall u :: u in times + [t] <==> u in times || u == t
  {
  }

  /** All values parse, `out` has each time they name, once, and `seen` the texts of those. */
  ghost predicate Collected(values: seq<string>, seen: set<string>, out: seq<DailyTime>) {
    && AllParse(values) && seen == Texts(out) && TextsDiffer(out)
    && (forall t | t in out :: Canonical(t))
    && (forall t :: t in out <==> Names(values, t))
  }

  lemma NothingCollected()
    ensures Collected([], {}, [])
  {
  }

  lemma SeenIsCollected(values: seq<string>, seen: set<string>, out: seq<DailyTime>, t: DailyTime)
    requires Collected(values, seen, out) && Canonical(t) && t.text in seen
    ensures t in out
  {
    hide Canonical, Names, AllParse, TextsDiffer;
    var u :| u in out && u.text == t.text;
    CanonicalTimeIsDetermined(u, t);
  }

  lemma CollectOneMore(values: seq<string>, v: string, seen: set<string>, out: seq<DailyTime>, t: DailyTime)
    requires Collected(values, seen, out) && ParseDailyTime(v) == Some(t)
    ensures if t.text in seen then Collected(values + [v], seen, out)
            else Collected(values + [v], seen + {t.text}, out + [t])
  {
    hide ParseDailyTime, Canonical, Names, AllParse, Texts, TextsDiffer;
    NamesOneMore(values, v);
    ParsedIsCanonical(v);
    if t.text in seen {
      SeenIsCollected(values, seen, out, t);
    } else {
      OneMoreText(out, t);
    }
  }

  lemma CollectedDiffer(values: seq<string>, seen: set<string>, out: seq<DailyTime>)
    requires Collected(values, seen, out)
    ensures forall t :: t in out <==> Names(values, t)
    ensures forall t | t in out :: Canonical(t)
    ensures forall j, k | 0 <= j < k < |out| :: SecondsSinceMidnight(out[j]) != SecondsSinceMidnight(out[k])
    ensures AllParse(values)
  {
    hide Canonical, Names, AllParse, Texts, TextsDiffer;
    DifferentSeconds(out);
  }

  /** normalizeTimes: refused exactly when there are too many or one does not parse; otherwise
      each parsed time once, in the order of the day. */
  method NormalizeTimes(values: seq<string>) returns (r: Option<seq<DailyTime>>)
    ensures r.Some? <==> |values| <= MAX_TIME_POINTS && AllParse(values)
    ensures r.Some? ==> Normalized(r.value)
    ensures r.Some? ==> forall t :: t in r.value <==> Names(values, t)
  {
    if |values| > MAX_TIME_POINTS {
      return None;
    }
    hide ParseDailyTime, TimeText, Canonical, SecondsSinceMidnight, Names, AllParse, Collected;
    var seen: set<string> := {};
    var out: seq<DailyTime> := [];
    NothingCollected();
    for i := 0 to |values|
      invariant Collected(values[..i], seen, out)
    {
      assert values[..i + 1] == values[..i] + [values[i]];
      var parsed := ParseDailyTime(values[i]);
      if parsed.None? {
        SomeDoesNotParse(values, i);
        return None;
      }
      CollectOneMore(values[..i], values[i], seen, out, parsed.value);
      if parsed.value.text !in seen {
        seen := seen + {parsed.value.text};
        out := out + [parsed.value];
      }
    }
    assert values[..|values|] == values;
    CollectedDiffer(values, seen, out);
    var sorted := SortTimes(out);
    forall t
      ensures t in sorted <==> t in out
    {
      assert t in multiset(sorted) <==> t in multiset(out);
    }
    r := Some(sorted);
  }

  lemma SomeDoesNotParse(values: seq<string>, i: nat)
    requires i < |values| && ParseDailyTime(values[i]).None?
    ensures !AllParse(values)
  {
  }

  lemma DifferentSeconds(times: seq<DailyTime>)
    requires forall t | t in times :: Canonical(t)
    requires TextsDiffer(times)
    ensures forall j, k | 0 <= j < k < |times| :: SecondsSinceMidnight(times[j]) != SecondsSinceMidnight(times[k])
  {
    hide Canonical, SecondsSinceMidnight;
    forall j, k | 0 <= j < k < |times|
      ensures SecondsSinceMidnight(times[j]) != SecondsSinceMidnight(times[k])
    {
      CanonicalTimeIsDetermined(times[j], times[k]);
    }
  }

  lemma ParsedIsCanonical(v: string)
    requires ParseDailyTime(v).Some?
    ensures Canonical(ParseDailyTime(v).value)
  {
  }

  // ----- the configuration -----

  datatype Config = Config(
    hostEnabled: bool,
    scheduleEnabled: bool,
    timezone: string,
    zone: Option<Zone>,
    times: seq<DailyTime>,
    model: string,
    message: string,
    entryProtocol: string,
    exitProtocol: string,
    maxTokens: Int64,
    providers: seq<string>,
    includeAuthIndices: seq<string>,
    excludeAuthIndices: seq<string>,
    physicalFilesOnly: bool,
    skipUnavailable: bool,
    delayBetweenAuths: Int64,
    temporaryPriority: bool,
    prioritySyncTimeout: Int64,
    requestTimeout: Int64)

  /** The same configuration, up to the zone object, which the time zone name stands for. */
  ghost predicate SameConfig(a: Config, b: Config) { a == b.(zone := a.zone) }

  method EqualStrings(left: seq<string>, right: seq<string>) returns (equal: bool)
    ensures equal <==> left == right
  {
    if |left| != |right| {
      return false;
    }
    for i := 0 to |left|
      invariant forall j | 0 <= j < i :: left[j] == right[j]
    {
      if left[i] != right[i] {
        return false;
      }
    }
    return true;
  }

  method Equivalent(c: Config, other: Config) returns (same: bool)
    ensures same <==> SameConfig(c, other)
  {
    if c.hostEnabled != other.hostEnabled || c.scheduleEnabled != other.scheduleEnabled
       || c.timezone != other.timezone || c.model != other.model || c.message != other.message
       || c.entryProtocol != other.entryProtocol || c.exitProtocol != other.exitProtocol
       || c.maxTokens != other.maxTokens || c.physicalFilesOnly != other.physicalFilesOnly
       || c.skipUnavailable != other.skipUnavailable || c.delayBetweenAuths != other.delayBetweenAuths
       || c.temporaryPriority != other.temporaryPriority || c.prioritySyncTimeout != other.prioritySyncTimeout
       || c.requestTimeout != other.requestTimeout {
      return false;
    }
    if |c.times| != |other.times| || |c.providers| != |other.providers|
       || |c.includeAuthIndices| != |other.includeAuthIndices|
       || |c.excludeAuthIndices| != |other.excludeAuthIndices| {
      return false;
    }
    for i := 0 to |c.times|
      invariant forall j | 0 <= j < i :: c.times[j] == other.times[j]
    {
      if c.times[i] != other.times[i] {
        return false;
      }
    }
    var providers := EqualStrings(c.providers, other.providers);
    var included := EqualStrings(c.includeAuthIndices, other.includeAuthIndices);
    var excluded := EqualStrings(c.excludeAuthIndices, other.excludeAuthIndices);
    return providers && included && excluded;
  }
}
