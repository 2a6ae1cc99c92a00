/** Civil time: the zone the schedule runs in and the daily times it names. */
module Civil {
  import opened Text

  /** An instant is a number of nanoseconds. A wall time is a civil day number and a second of
      that day. `local` reads the clock on the wall at an instant, and `date` is the one
      instant the standard library picks for a wall time, existing or not. */
  datatype Wall = Wall(day: int, second: int)

  datatype Zone = Zone(name: string, local: int -> Wall, date: Wall -> int, dateText: int -> string)

  /** What is assumed of a zone: its civil date never moves backwards, and different days are
      printed differently. */
  ghost predicate ZoneOk(zone: Zone) {
    && (forall t, u :: t <= u ==> zone.local(t).day <= zone.local(u).day)
    && (forall d, e :: zone.dateText(d) == zone.dateText(e) ==> d == e)
  }

  datatype DailyTime = DailyTime(hour: nat, minute: nat, second: nat, text: string)

  function SecondsSinceMidnight(t: DailyTime): nat { t.hour * 60 * 60 + t.minute * 60 + t.second }

  /** What parsing produces: fields in range, and the canonical text of those fields. */
  predicate Canonical(t: DailyTime) {
    t.hour < 24 && t.minute < 60 && t.second < 60 && t.text == TimeText(t.hour, t.minute, t.second)
  }

  function TimeText(hour: nat, minute: nat, second: nat): (s: string)
    requires hour < 100 && minute < 100 && second < 100
    ensures |s| == 8
  {
    TwoDigits(hour) + ":" + TwoDigits(minute) + ":" + TwoDigits(second)
  }

  lemma TimeTextInjective(h: nat, m: nat, s: nat, h': nat, m': nat, s': nat)
    requires h < 100 && m < 100 && s < 100 && h' < 100 && m' < 100 && s' < 100
    requires TimeText(h, m, s) == TimeText(h', m', s')
    ensures h == h' && m == m' && s == s'
  {
    var t, t' := TimeText(h, m, s), TimeText(h', m', s');
    assert TwoDigits(h) == t[0..2] == t'[0..2] == TwoDigits(h');
    assert TwoDigits(m) == t[3..5] == t'[3..5] == TwoDigits(m');
    assert TwoDigits(s) == t[6..8] == t'[6..8] == TwoDigits(s');
    TwoDigitsInjective(h, h');
    TwoDigitsInjective(m, m');
    TwoDigitsInjective(s, s');
  }

  lemma SecondsInjective(a: DailyTime, b: DailyTime)
    requires Canonical(a) && Canonical(b) && SecondsSinceMidnight(a) == SecondsSinceMidnight(b)
    ensures a.hour == b.hour && a.minute == b.minute && a.second == b.second
  {
  }

  /** Canonical texts are in string order exactly as the times are in the order of the day. */
  lemma TextsInOrderOfDay(a: DailyTime, b: DailyTime)
    requires Canonical(a) && Canonical(b)
    ensures Before(a.text, b.text) <==> SecondsSinceMidnight(a) < SecondsSinceMidnight(b)
  {
    TextBefore(a.hour, a.minute, a.second, b.hour, b.minute, b.second);
    SecondsBefore(a, b);
    hide SecondsSinceMidnight, TimeText, Before;
  }

  /** Every second of the day is that of one canonical time, and no canonical time has another. */
  lemma EverySecondOfTheDay(second: nat) returns (t: DailyTime)
    requires second < 86_400
    ensures Canonical(t) && SecondsSinceMidnight(t) == second
    ensures forall u | Canonical(u) :: SecondsSinceMidnight(u) < 86_400
  {
    var hour, minute, rest := second / 3600, second / 60 % 60, second % 60;
    t := DailyTime(hour, minute, rest, TimeText(hour, minute, rest));
    hide TimeText;
  }

  lemma SecondsBefore(a: DailyTime, b: DailyTime)
    requires Canonical(a) && Canonical(b)
    ensures SecondsSinceMidnight(a) < SecondsSinceMidnight(b)
            <==> a.hour < b.hour || (a.hour == b.hour && (a.minute < b.minute || (a.minute == b.minute && a.second < b.second)))
  {
    hide TimeText;
  }

  lemma TextBefore(h: nat, m: nat, s: nat, h': nat, m': nat, s': nat)
    requires h < 100 && m < 100 && s < 100 && h' < 100 && m' < 100 && s' < 100
    ensures Before(TimeText(h, m, s), TimeText(h', m', s')) <==> h < h' || (h == h' && (m < m' || (m == m' && s < s')))
  {
    PartsBefore(h, ":" + (TwoDigits(m) + (":" + TwoDigits(s))), h', ":" + (TwoDigits(m') + (":" + TwoDigits(s'))));
    ColonBefore(TwoDigits(m) + (":" + TwoDigits(s)), TwoDigits(m') + (":" + TwoDigits(s')));
    PartsBefore(m, ":" + TwoDigits(s), m', ":" + TwoDigits(s'));
    ColonBefore(TwoDigits(s), TwoDigits(s'));
    TwoDigitsOrdered(s, s');
    hide Before, TwoDigits;
    assert TimeText(h, m, s) == TwoDigits(h) + (":" + (TwoDigits(m) + (":" + TwoDigits(s))));
    assert TimeText(h', m', s') == TwoDigits(h') + (":" + (TwoDigits(m') + (":" + TwoDigits(s'))));
  }

  lemma PartsBefore(a: nat, rest: string, b: nat, rest': string)
    requires a < 100 && b < 100
    ensures Before(TwoDigits(a) + rest, TwoDigits(b) + rest') <==> a < b || (a == b && Before(rest, rest'))
  {
    BeforeByParts(TwoDigits(a), rest, TwoDigits(b), rest');
    TwoDigitsOrdered(a, b);
    if TwoDigits(a) == TwoDigits(b) {
      TwoDigitsInjective(a, b);
    }
  }

  lemma ColonBefore(a: string, b: string)
    ensures Before(":" + a, ":" + b) <==> Before(a, b)
  {
    BeforeByParts(":", a, ":", b);
    BeforeChars(':', ':');
  }

  /** The text and the second of day each determine a canonical time. */
  lemma CanonicalTimeIsDetermined(a: DailyTime, b: DailyTime)
    requires Canonical(a) && Canonical(b)
    ensures a == b <==> a.text == b.text
    ensures a == b <==> SecondsSinceMidnight(a) == SecondsSinceMidnight(b)
  {
    if a.text == b.text {
      TimeTextInjective(a.hour, a.minute, a.second, b.hour, b.minute, b.second);
    }
    if SecondsSinceMidnight(a) == SecondsSinceMidnight(b) {
      SecondsInjective(a, b);
    }
  }
}
