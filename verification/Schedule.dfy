/** When the next daily time comes round, and what the occurrence is called. */
module Schedule {
  import opened Text
  import opened Civil
  import opened Configuration

  const SEARCHED_DAYS := 370

  function WallAt(day: int, t: DailyTime): Wall { Wall(day, SecondsSinceMidnight(t)) }

  /** The wall time exists: the instant picked for it reads back as that wall time. */
  predicate Exists(zone: Zone, day: int, t: DailyTime) {
    zone.local(zone.date(WallAt(day, t))) == WallAt(day, t)
  }

  /** An instant at which one of the times comes round on the given civil day. */
  predicate Occurs(zone: Zone, times: seq<DailyTime>, day: int, at: int, t: DailyTime) {
    t in times && Exists(zone, day, t) && at == zone.date(WallAt(day, t))
  }

  predicate InWindow(zone: Zone, now: int, day: int) {
    zone.local(now).day <= day < zone.local(now).day + SEARCHED_DAYS
  }

  /** A valid occurrence strictly after now, on one of the days searched. */
  predicate Candidate(zone: Zone, now: int, times: seq<DailyTime>, day: int, at: int, t: DailyTime) {
    InWindow(zone, now, day) && Occurs(zone, times, day, at, t) && at > now
  }

  ghost predicate IsNext(zone: Zone, now: int, times: seq<DailyTime>, at: int, text: string) {
    && (exists day, t :: Candidate(zone, now, times, day, at, t) && t.text == text)
    && (forall day, u, t | Candidate(zone, now, times, day, u, t) :: at <= u)
  }

  ghost predicate NoNext(zone: Zone, now: int, times: seq<DailyTime>) {
    forall day, u, t :: !Candidate(zone, now, times, day, u, t)
  }

  /** The least valid instant strictly after now among the civil days searched; it fails exactly
      when there is none. */
  method NextOccurrence(now: int, location: Option<Zone>, times: seq<DailyTime>)
    returns (at: int, text: string, ok: bool)
    requires location.Some? ==> ZoneOk(location.value)
    ensures ok ==> location.Some? && IsNext(location.value, now, times, at, text)
    ensures !ok ==> location.None? || NoNext(location.value, now, times)
  {
    if location.None? || times == [] {
      return 0, "", false;
    }
    var zone := location.value;
    var today := zone.local(now).day;
    for dayOffset := 0 to SEARCHED_DAYS
      invariant forall day, u, t | Candidate(zone, now, times, day, u, t) :: day >= today + dayOffset
    {
      var day := today + dayOffset;
      var best: Option<int> := None;
      var bestLabel := "";
      for i := 0 to |times|
        invariant best.Some? ==> exists t :: Candidate(zone, now, times, day, best.value, t) && t.text == bestLabel
        invariant forall j | 0 <= j < i && Exists(zone, day, times[j]) && zone.date(WallAt(day, times[j])) > now ::
                    best.Some? && best.value <= zone.date(WallAt(day, times[j]))
      {
        var item := times[i];
        var candidate := zone.date(WallAt(day, item));
        if zone.local(candidate) != WallAt(day, item) {
          continue;
        }
        if candidate > now && (best.None? || candidate < best.value) {
          best, bestLabel := Some(candidate), item.text;
          assert Candidate(zone, now, times, day, candidate, item);
        }
      }
      if best.Some? {
        FirstDayIsLeast(zone, now, times, day, best.value);
        return best.value, bestLabel, true;
      }
    }
    return 0, "", false;
  }

  lemma FirstDayIsLeast(zone: Zone, now: int, times: seq<DailyTime>, day: int, best: int)
    requires ZoneOk(zone)
    requires forall d, u, t | Candidate(zone, now, times, d, u, t) :: d >= day
    requires zone.local(best).day == day
    requires forall u, t | Candidate(zone, now, times, day, u, t) :: best <= u
    ensures forall d, u, t | Candidate(zone, now, times, d, u, t) :: best <= u
  {
  }

  /** Neither the instant nor the label depends on the order in which the times are given. */
  lemma NextIsUnique(zone: Zone, now: int, times: seq<DailyTime>, times': seq<DailyTime>,
                     at: int, text: string, at': int, text': string)
    requires forall t | t in times :: Canonical(t)
    requires forall t :: t in times <==> t in times'
    requires IsNext(zone, now, times, at, text) && IsNext(zone, now, times', at', text')
    ensures at == at' && text == text'
    ensures !NoNext(zone, now, times)
  {
    var day, t :| Candidate(zone, now, times, day, at, t) && t.text == text;
    var day', t' :| Candidate(zone, now, times', day', at', t') && t'.text == text';
    assert Candidate(zone, now, times', day, at, t) && Candidate(zone, now, times, day', at', t');
    CanonicalTimeIsDetermined(t, t');
  }

  /** A time of day that exists on some day of the coming year is not missed: there is a next
      occurrence, and it is no later. */
  lemma NextIsNoLater(zone: Zone, now: int, times: seq<DailyTime>, t: DailyTime, days: nat)
    requires ZoneOk(zone) && t in times && 1 <= days <= 366 && Exists(zone, zone.local(now).day + days, t)
    ensures !NoNext(zone, now, times)
    ensures forall at, text | IsNext(zone, now, times, at, text) ::
              now < at <= zone.date(WallAt(zone.local(now).day + days, t))
  {
    var day := zone.local(now).day + days;
    assert Candidate(zone, now, times, day, zone.date(WallAt(day, t)), t);
  }

  // ----- occurrence IDs -----

  /** OccurrenceID, whose missing location is time.Local; the caller passes the zone in force. */
  function OccurrenceID(at: int, zone: Zone, text: string): string {
    zone.dateText(zone.local(at).day) + "|" + text + "|" + zone.name
  }

  /** An instant at which a time comes round on the day the wall shows. */
  predicate Scheduled(zone: Zone, at: int, t: DailyTime) {
    Canonical(t) && Exists(zone, zone.local(at).day, t) && at == zone.date(WallAt(zone.local(at).day, t))
  }

  lemma NextIsScheduled(zone: Zone, now: int, times: seq<DailyTime>, at: int, text: string) returns (t: DailyTime)
    requires IsNext(zone, now, times, at, text) && forall t | t in times :: Canonical(t)
    ensures t in times && Scheduled(zone, at, t) && t.text == text && at > now
  {
    var day, t' :| Candidate(zone, now, times, day, at, t') && t'.text == text;
    t := t';
  }

  lemma SameLengthSplit(a: string, b: string, c: string, d: string)
    requires |b| == |d| && a + b == c + d
    ensures a == c && b == d
  {
    assert |a| == |c|;
    assert (a + b)[..|a|] == a && (c + d)[..|c|] == c;
    assert (a + b)[|a|..] == b && (c + d)[|c|..] == d;
  }

  /** In one zone, different scheduled instants have different occurrence IDs. */
  lemma OccurrenceIDsDistinct(zone: Zone, at: int, t: DailyTime, at': int, t': DailyTime)
    requires ZoneOk(zone) && Scheduled(zone, at, t) && Scheduled(zone, at', t')
    requires OccurrenceID(at, zone, t.text) == OccurrenceID(at', zone, t'.text)
    ensures at == at' && t == t'
  {
    hide TimeText;
    var day, day' := zone.local(at).day, zone.local(at').day;
    var tail, tail' := "|" + t.text + "|" + zone.name, "|" + t'.text + "|" + zone.name;
    assert OccurrenceID(at, zone, t.text) == zone.dateText(day) + tail;
    assert OccurrenceID(at', zone, t'.text) == zone.dateText(day') + tail';
    SameLengthSplit(zone.dateText(day), tail, zone.dateText(day'), tail');
    assert t.text == tail[1..9] == tail'[1..9] == t'.text;
    CanonicalTimeIsDetermined(t, t');
  }

  /** Occurrence IDs of zones that print their days alike tell the zones and the times of day apart. */
  lemma OccurrenceIDsTellZones(zone: Zone, at: int, t: DailyTime, zone': Zone, at': int, t': DailyTime)
    requires Canonical(t) && Canonical(t')
    requires |zone.dateText(zone.local(at).day)| == |zone'.dateText(zone'.local(at').day)|
    requires OccurrenceID(at, zone, t.text) == OccurrenceID(at', zone', t'.text)
    ensures zone.name == zone'.name && t == t'
  {
    var date, date' := zone.dateText(zone.local(at).day), zone'.dateText(zone'.local(at').day);
    var id, id' := OccurrenceID(at, zone, t.text), OccurrenceID(at', zone', t'.text);
    var n := |date|;
    assert t.text == id[n + 1..n + 9] == id'[n + 1..n + 9] == t'.text;
    assert zone.name == id[n + 10..] == id'[n + 10..] == zone'.name;
    hide TimeText;
    CanonicalTimeIsDetermined(t, t');
  }
}
