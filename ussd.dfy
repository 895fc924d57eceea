/** The USSD analytics card (src/components/services/ussd/USSDAnalytics.tsx):
    the summary its query function computes from the sessions of the
    selected range. The local hour of each session is an input, the clock
    reading too. */
module Ussd {
  import opened Common
  import opened DateRange
  import opened TopK
  import opened Counters

  /** What `Date.prototype.getHours` can return. */
  type HourOfDay = h: int | 0 <= h < 24

  /** The columns of a `ussd_sessions` row that the summary reads.
      `inputPathLength` is `input_path?.length`; `hour` is the local hour
      of `created_at`. */
  datatype UssdSession = UssdSession(
    phoneNumber: string,
    status: string,
    navigationPath: Option<seq<string>>,
    inputPathLength: Option<int>,
    hour: HourOfDay)

  datatype PathCount = PathCount(path: string, count: nat)
  datatype HourCount = HourCount(hour: int, sessions: nat)

  /** The card's data. The two rates are exact quotients; formatting is not modelled. */
  datatype Analytics = Analytics(
    totalSessions: nat,
    uniqueUsers: nat,
    avgSessionDuration: Ratio,
    topMenuPaths: seq<PathCount>,
    completionRate: Ratio,
    peakHours: seq<HourCount>)

  const EmptyAnalytics := Analytics(0, 0, Ratio(0, 1), [], Ratio(0, 1), [])

  const PathSeparator := " \U{2192} "
  const TopPathCount: nat := 5
  const PeakHourCount: nat := 6

  /** `(s.navigation_path || []).join(' → ')`. */
  function PathKey(s: UssdSession): string {
    Join(s.navigationPath.GetOr([]), PathSeparator)
  }

  /** Every session's path key, empty ones included, in session order. */
  function SessionPathKeys(sessions: seq<UssdSession>): (keys: seq<string>)
    ensures |keys| == |sessions|
    ensures forall i :: 0 <= i < |sessions| ==> keys[i] == PathKey(sessions[i])
    decreases |sessions|
  {
    if |sessions| == 0 then []
    else SessionPathKeys(sessions[..|sessions| - 1]) + [PathKey(sessions[|sessions| - 1])]
  }

  predicate NonEmptyKey(k: string) { k != "" }

  /** The path keys counted: one per session with a non-empty path, in
      session order. */
  function PathKeys(sessions: seq<UssdSession>): (keys: seq<string>)
    ensures keys == Filter(SessionPathKeys(sessions), NonEmptyKey)
    ensures |keys| <= |sessions|
    ensures forall i :: 0 <= i < |keys| ==> keys[i] != ""
    decreases |sessions|
  {
    if |sessions| == 0 then []
    else
      var init := sessions[..|sessions| - 1];
      var k := PathKey(sessions[|sessions| - 1]);
      FilterAppend(SessionPathKeys(init), k, NonEmptyKey);
      PathKeys(init) + (if k != "" then [k] else [])
  }

  /** Every session's hour, in session order. */
  function Hours(sessions: seq<UssdSession>): (hours: seq<int>)
    ensures |hours| == |sessions|
    ensures forall i :: 0 <= i < |sessions| ==> hours[i] == sessions[i].hour
    decreases |sessions|
  {
    if |sessions| == 0 then []
    else
      var init := sessions[..|sessions| - 1];
      assert forall i :: 0 <= i < |init| ==> init[i] == sessions[i];
      Hours(init) + [sessions[|sessions| - 1].hour]
  }

  /** The `pathCounts` loop. */
  method TallyPaths(sessions: seq<UssdSession>) returns (counts: map<string, nat>, order: seq<string>)
    ensures Tally(counts, order) == TallyOf(PathKeys(sessions))
  {
    counts, order := map[], [];
    for i := 0 to |sessions|
      invariant Tally(counts, order) == TallyOf(PathKeys(sessions[..i]))
    {
      var key := PathKey(sessions[i]);
      PathKeysSnoc(sessions, i);
      if key != "" {
        ghost var before := Tally(counts, order);
        if key in counts {
          counts := counts[key := counts[key] + 1];
        } else {
          counts := counts[key := 1];
          order := order + [key];
        }
        assert Tally(counts, order) == Bump(before, key);
        TallyOfAppend(PathKeys(sessions[..i]), key);
      } else {
        assert PathKeys(sessions[..i]) + [] == PathKeys(sessions[..i]);
      }
    }
    assert sessions[..|sessions|] == sessions;
  }

  /** One more session adds its path key, when it has one. */
  lemma PathKeysSnoc(sessions: seq<UssdSession>, i: nat)
    requires i < |sessions|
    ensures var k := PathKey(sessions[i]);
      PathKeys(sessions[..i + 1]) == PathKeys(sessions[..i]) + (if k != "" then [k] else [])
  {
    assert sessions[..i + 1][..i] == sessions[..i];
    assert sessions[..i + 1][i] == sessions[i];
  }

  /** The `hourCounts` loop. */
  method TallyHours(sessions: seq<UssdSession>) returns (counts: map<int, nat>, order: seq<int>)
    ensures Tally(counts, order) == TallyOf(Hours(sessions))
  {
    counts, order := map[], [];
    for i := 0 to |sessions|
      invariant Tally(counts, order) == TallyOf(Hours(sessions[..i]))
    {
      assert sessions[..i + 1][..i] == sessions[..i];
      var hour := sessions[i].hour;
      if hour in counts {
        counts := counts[hour := counts[hour] + 1];
      } else {
        counts := counts[hour := 1];
        order := order + [hour];
      }
      assert sessions[..i + 1][i] == sessions[i];
      assert Hours(sessions[..i + 1]) == Hours(sessions[..i]) + [hour];
      TallyOfAppend(Hours(sessions[..i]), hour);
    }
    assert sessions[..|sessions|] == sessions;
  }

  // ---------------------------------------------------------------------
  // Object.entries order

  predicate AllDigits(k: string) {
    forall i :: 0 <= i < |k| ==> IsAsciiDigit(k[i])
  }

  /** A canonical numeral below 2^32 - 1: a key an object lists first. */
  predicate IsArrayIndex(k: string) {
    |k| > 0 && AllDigits(k) && (k[0] != '0' || |k| == 1) && DigitsValue(k) < 0xFFFF_FFFF
  }

  function IndexValue(k: string): int {
    if AllDigits(k) then DigitsValue(k) else 0
  }

  /** `Object.entries` key order (OrdinaryOwnPropertyKeys, section 10.1.11.1
      of ECMA-262): array-index keys in ascending numeric order, then the
      other keys in insertion order. */
  function EntryOrder(order: seq<string>): seq<string> {
    SortDesc(Filter(order, IsArrayIndex), (k: string) => -IndexValue(k))
    + Filter(order, (k: string) => !IsArrayIndex(k))
  }

  /** The entry order lists exactly the keys inserted. */
  lemma EntryOrderKeys(order: seq<string>)
    ensures forall k :: k in EntryOrder(order) <==> k in order
  {
    var idx := Filter(order, IsArrayIndex);
    var sorted := SortDesc(idx, (k: string) => -IndexValue(k));
    forall k ensures k in EntryOrder(order) <==> k in order {
      if k in sorted {
        assert k in multiset(sorted);
        assert k in multiset(idx);
      }
      if k in order && IsArrayIndex(k) {
        assert k in idx;
        assert k in multiset(idx);
        assert k in multiset(sorted);
      }
    }
  }

  function PathEntries(t: Tally<string>): (r: seq<PathCount>)
    ensures |r| == |EntryOrder(t.order)|
    ensures forall i :: 0 <= i < |r| ==> r[i] == PathCount(EntryOrder(t.order)[i], CountOf(t, EntryOrder(t.order)[i]))
  {
    var keys := EntryOrder(t.order);
    seq(|keys|, i requires 0 <= i < |keys| => PathCount(keys[i], CountOf(t, keys[i])))
  }

  /** Hours are always array-index keys, so `Object.entries` lists them in
      ascending order. */
  function HourOrder(t: Tally<int>): (hours: seq<int>)
    ensures |hours| == |t.order| && multiset(hours) == multiset(t.order)
    ensures forall i, j :: 0 <= i < j < |hours| ==> hours[i] <= hours[j]
  {
    var hours := SortDesc(t.order, (h: int) => -h);
    assert forall i, j :: 0 <= i < j < |hours| ==> -hours[i] >= -hours[j];
    hours
  }

  /** Each hour with its count, in ascending hour order. */
  function HourEntries(t: Tally<int>): (r: seq<HourCount>)
    ensures |r| == |t.order|
    ensures forall i :: 0 <= i < |r| ==> r[i] == HourCount(HourOrder(t)[i], CountOf(t, HourOrder(t)[i]))
    ensures forall i :: 0 <= i < |r| ==> r[i].hour in t.order
  {
    var hours := HourOrder(t);
    forall i | 0 <= i < |hours| ensures hours[i] in t.order {
      assert hours[i] in multiset(hours);
    }
    seq(|hours|, i requires 0 <= i < |hours| => HourCount(hours[i], CountOf(t, hours[i])))
  }

  function PathCountKey(p: PathCount): int { p.count }
  function HourCountKey(h: HourCount): int { h.sessions }

  /** `sort` by count, largest first, then `slice(0, 5)`. */
  function TopMenuPaths(t: Tally<string>): seq<PathCount> {
    Top(PathEntries(t), TopPathCount, PathCountKey)
  }

  /** `sort` by sessions, largest first, then `slice(0, 6)`. */
  function PeakHours(t: Tally<int>): seq<HourCount> {
    Top(HourEntries(t), PeakHourCount, HourCountKey)
  }

  // ---------------------------------------------------------------------
  // The summary

  function PhoneNumbers(sessions: seq<UssdSession>): set<string> {
    set i | 0 <= i < |sessions| :: sessions[i].phoneNumber
  }

  /** `s.input_path?.length || 0`. */
  function InputLength(s: UssdSession): int {
    if s.inputPathLength.Some? then s.inputPathLength.value else 0
  }

  predicate IsCompleted(s: UssdSession) { s.status == "completed" }

  /** `totalSessions || 1`. */
  function Divisor(total: nat): (d: nat)
    ensures d >= 1 && (total > 0 ==> d == total)
  {
    if total == 0 then 1 else total
  }

  function Summary(sessions: seq<UssdSession>): Analytics {
    var total := |sessions|;
    Analytics(total,
              |PhoneNumbers(sessions)|,
              Ratio(Sum(sessions, InputLength), Divisor(total)),
              TopMenuPaths(TallyOf(PathKeys(sessions))),
              Ratio(100 * Count(sessions, IsCompleted), Divisor(total)),
              PeakHours(TallyOf(Hours(sessions))))
  }

  /** The outcome of the `ussd_sessions` read. */
  datatype SessionsRead = ReadError | ReadOk(rows: Option<seq<UssdSession>>)

  /** The query function: an invalid range start throws inside the `try`, and
      both that and a read error give the empty summary. */
  function AnalyticsOf(now: int, timeRange: string, read: SessionsRead): (a: Analytics)
    ensures RangeStart(now, timeRange).Err? || read.ReadError? ==> a == EmptyAnalytics
    ensures RangeStart(now, timeRange).Ok? && read.ReadOk? ==> a.totalSessions == |read.rows.GetOr([])|
  {
    if RangeStart(now, timeRange).Err? then EmptyAnalytics
    else match read
      case ReadError => EmptyAnalytics
      case ReadOk(rows) => Summary(rows.GetOr([]))
  }

  /** The query function with its two counting loops. */
  method Analyse(now: int, timeRange: string, read: SessionsRead) returns (a: Analytics)
    ensures a == AnalyticsOf(now, timeRange, read)
  {
    if RangeStart(now, timeRange).Err? || read.ReadError? {
      return EmptyAnalytics;
    }
    var sessions := read.rows.GetOr([]);
    var pathCounts, pathOrder := TallyPaths(sessions);
    var hourCounts, hourOrder := TallyHours(sessions);
    var total := |sessions|;
    a := Analytics(total,
                   |PhoneNumbers(sessions)|,
                   Ratio(Sum(sessions, InputLength), Divisor(total)),
                   TopMenuPaths(Tally(pathCounts, pathOrder)),
                   Ratio(100 * Count(sessions, IsCompleted), Divisor(total)),
                   PeakHours(Tally(hourCounts, hourOrder)));
  }

  // ---------------------------------------------------------------------
  // Properties

  /** No session has two phone numbers: distinct users never outnumber sessions. */
  lemma UniqueUsersBounded(sessions: seq<UssdSession>)
    ensures Summary(sessions).uniqueUsers <= Summary(sessions).totalSessions
  {
    var phones := seq(|sessions|, i requires 0 <= i < |sessions| => sessions[i].phoneNumber);
    DistinctAtMostLength(phones);
    var fromPhones := set i | 0 <= i < |phones| :: phones[i];
    assert PhoneNumbers(sessions) == fromPhones by {
      forall p | p in PhoneNumbers(sessions) ensures p in fromPhones {
        var i :| 0 <= i < |sessions| && sessions[i].phoneNumber == p;
        assert phones[i] == p;
      }
      forall p | p in fromPhones ensures p in PhoneNumbers(sessions) {
        var i :| 0 <= i < |phones| && phones[i] == p;
        assert sessions[i].phoneNumber == p;
      }
    }
  }

  /** Completed sessions are at most all sessions, and both rates divide by
      the session count, or by 1 when there are none. */
  lemma CompletionBounded(sessions: seq<UssdSession>)
    ensures var s := Summary(sessions);
      Count(sessions, IsCompleted) <= s.totalSessions
      && s.completionRate.num <= 100 * s.completionRate.den
      && s.completionRate.den == s.avgSessionDuration.den == Divisor(s.totalSessions)
  {
    CountAtMostLength(sessions, IsCompleted);
  }

  lemma {:induction false} CountAtMostLength<T>(s: seq<T>, p: T -> bool)
    ensures Count(s, p) <= |s|
    decreases |s|
  {
    if |s| > 0 {
      CountAtMostLength(s[1..], p);
    }
  }

  /** Only non-empty paths are counted, once per session, so all path counts
      together are at most the number of sessions. */
  lemma PathCountsBounded(sessions: seq<UssdSession>)
    ensures Total(TallyOf(PathKeys(sessions))) <= |sessions|
    ensures "" !in TallyOf(PathKeys(sessions)).counts
  {
    TallyTotal(PathKeys(sessions));
    TallyWellFormed(PathKeys(sessions));
  }

  /** A path's tally is the number of sessions that followed it. */
  lemma PathTallyIsOccurrences(sessions: seq<UssdSession>, path: string)
    ensures CountOf(TallyOf(PathKeys(sessions)), path) == Occurrences(PathKeys(sessions), path)
  {
    TallyCounts(PathKeys(sessions), path);
  }

  /** The top paths of a counter: at most five, largest count first, each
      with its own key's count; a key left out has a count no larger than any
      kept one. */
  lemma TopMenuPathsOfTally(t: Tally<string>)
    requires WellFormed(t)
    ensures var top := TopMenuPaths(t);
      |top| <= TopPathCount && NonIncreasing(top, PathCountKey)
      && forall i :: 0 <= i < |top| ==> top[i].path in t.counts && top[i].count == t.counts[top[i].path]
  {
    var entries := PathEntries(t);
    var top := Top(entries, TopPathCount, PathCountKey);
    TopFromInput(entries, TopPathCount, PathCountKey);
    EntryOrderKeys(t.order);
    forall i | 0 <= i < |top| ensures top[i].path in t.counts && top[i].count == t.counts[top[i].path] {
      var j :| 0 <= j < |entries| && entries[j] == top[i];
      assert EntryOrder(t.order)[j] in t.order;
    }
  }

  lemma TopMenuPathsOfTallyMaximal(t: Tally<string>, path: string)
    requires WellFormed(t) && path in t.counts
    requires forall i :: 0 <= i < |TopMenuPaths(t)| ==> TopMenuPaths(t)[i].path != path
    ensures forall i :: 0 <= i < |TopMenuPaths(t)| ==> t.counts[path] <= TopMenuPaths(t)[i].count
  {
    var entries := PathEntries(t);
    EntryOrderKeys(t.order);
    var keys := EntryOrder(t.order);
    assert path in t.order;
    var j :| 0 <= j < |keys| && keys[j] == path;
    var x := entries[j];
    assert x == PathCount(path, t.counts[path]);
    assert x !in TopMenuPaths(t);
    TopIsMaximal(entries, TopPathCount, PathCountKey, x);
  }

  /** The top paths of the sessions: at most five, largest count first, and
      each with the number of sessions that followed it. */
  lemma TopMenuPathsFacts(sessions: seq<UssdSession>)
    ensures var top := Summary(sessions).topMenuPaths;
      |top| <= TopPathCount && NonIncreasing(top, PathCountKey)
      && forall i :: 0 <= i < |top| ==> top[i].path != "" && top[i].count == Occurrences(PathKeys(sessions), top[i].path)
  {
    var t := TallyOf(PathKeys(sessions));
    var top := TopMenuPaths(t);
    assert Summary(sessions).topMenuPaths == top;
    TallyWellFormed(PathKeys(sessions));
    TopMenuPathsOfTally(t);
    forall i | 0 <= i < |top| ensures top[i].path != "" && top[i].count == Occurrences(PathKeys(sessions), top[i].path) {
      PathTallyIsOccurrences(sessions, top[i].path);
      PathCountsBounded(sessions);
    }
  }

  /** A path left out of the top list was followed no more often than any
      path in it. */
  lemma TopMenuPathsMaximal(sessions: seq<UssdSession>, path: string)
    requires path in PathKeys(sessions)
    requires forall i :: 0 <= i < |Summary(sessions).topMenuPaths| ==> Summary(sessions).topMenuPaths[i].path != path
    ensures forall i :: 0 <= i < |Summary(sessions).topMenuPaths| ==>
      Occurrences(PathKeys(sessions), path) <= Summary(sessions).topMenuPaths[i].count
  {
    var t := TallyOf(PathKeys(sessions));
    SummaryTopPaths(sessions);
    TallyWellFormed(PathKeys(sessions));
    PathTallyIsOccurrences(sessions, path);
    TopMenuPathsOfTallyMaximal(t, path);
  }

  /** The summary's top paths are those of the path counter. */
  lemma SummaryTopPaths(sessions: seq<UssdSession>)
    ensures Summary(sessions).topMenuPaths == TopMenuPaths(TallyOf(PathKeys(sessions)))
  {
  }

  /** The ascending hour order of a counter lists each hour once. */
  lemma HourEntriesDistinct(t: Tally<int>)
    requires WellFormed(t)
    ensures var entries := HourEntries(t);
      forall i, j :: 0 <= i < j < |entries| ==> entries[i].hour != entries[j].hour
  {
    var hours := HourOrder(t);
    TopDistinct(t.order, |t.order|, (h: int) => -h);
    assert Top(t.order, |t.order|, (h: int) => -h) == hours;
  }

  /** Every counted hour has its entry, with its count. */
  lemma HourEntriesCover(t: Tally<int>, hour: int)
    requires hour in t.order
    ensures HourCount(hour, CountOf(t, hour)) in HourEntries(t)
  {
    var hours := HourOrder(t);
    assert hour in multiset(t.order);
    assert hour in multiset(hours);
    var i :| 0 <= i < |hours| && hours[i] == hour;
    assert HourEntries(t)[i] == HourCount(hour, CountOf(t, hour));
  }

  /** The peak hours of a counter: at most six, busiest first, no hour twice. */
  lemma PeakHoursOfTally(t: Tally<int>)
    requires WellFormed(t)
    ensures var peak := PeakHours(t);
      |peak| <= PeakHourCount && NonIncreasing(peak, HourCountKey)
      && forall i, j :: 0 <= i < j < |peak| ==> peak[i].hour != peak[j].hour
  {
    var entries := HourEntries(t);
    HourEntriesDistinct(t);
    TopDistinct(entries, PeakHourCount, HourCountKey);
    TopFromInput(entries, PeakHourCount, HourCountKey);
    DistinctHoursKept(entries, Top(entries, PeakHourCount, HourCountKey));
  }

  /** Distinct entries drawn from a list with distinct hours have distinct hours. */
  lemma DistinctHoursKept(entries: seq<HourCount>, kept: seq<HourCount>)
    requires forall i, j :: 0 <= i < j < |entries| ==> entries[i].hour != entries[j].hour
    requires forall i, j :: 0 <= i < j < |kept| ==> kept[i] != kept[j]
    requires forall i :: 0 <= i < |kept| ==> kept[i] in entries
    ensures forall i, j :: 0 <= i < j < |kept| ==> kept[i].hour != kept[j].hour
  {
    forall i, j | 0 <= i < j < |kept| ensures kept[i].hour != kept[j].hour {
      var a :| 0 <= a < |entries| && entries[a] == kept[i];
      var b :| 0 <= b < |entries| && entries[b] == kept[j];
      if a < b {
        assert entries[a].hour != entries[b].hour;
      } else if b < a {
        assert entries[b].hour != entries[a].hour;
      }
    }
  }

  /** Each peak hour is a counted hour and carries that hour's count. */
  lemma PeakHoursCounted(t: Tally<int>)
    requires WellFormed(t)
    ensures var peak := PeakHours(t);
      forall i :: 0 <= i < |peak| ==> peak[i].hour in t.counts && peak[i].sessions == t.counts[peak[i].hour]
  {
    var entries := HourEntries(t);
    var peak := Top(entries, PeakHourCount, HourCountKey);
    TopFromInput(entries, PeakHourCount, HourCountKey);
    forall i | 0 <= i < |peak| ensures peak[i].hour in t.counts && peak[i].sessions == t.counts[peak[i].hour] {
      var a :| 0 <= a < |entries| && entries[a] == peak[i];
      assert entries[a].hour in Elements(t.order);
    }
  }

  /** An hour left out of the peak hours has a count no larger than any
      listed hour's. */
  lemma PeakHoursOfTallyMaximal(t: Tally<int>, hour: int)
    requires WellFormed(t) && hour in t.counts
    requires forall i :: 0 <= i < |PeakHours(t)| ==> PeakHours(t)[i].hour != hour
    ensures forall i :: 0 <= i < |PeakHours(t)| ==> t.counts[hour] <= PeakHours(t)[i].sessions
  {
    var entries := HourEntries(t);
    assert hour in Elements(t.order);
    var x := HourCount(hour, t.counts[hour]);
    HourEntriesCover(t, hour);
    assert x !in PeakHours(t);
    TopIsMaximal(entries, PeakHourCount, HourCountKey, x);
  }

  /** The summary's peak hours are those of the hour counter. */
  lemma SummaryPeakHours(sessions: seq<UssdSession>)
    ensures Summary(sessions).peakHours == PeakHours(TallyOf(Hours(sessions)))
  {
  }

  /** An hour's tally is the number of sessions started in it. */
  lemma HourTallyIsOccurrences(sessions: seq<UssdSession>, hour: int)
    ensures CountOf(TallyOf(Hours(sessions)), hour) == Occurrences(Hours(sessions), hour)
  {
    TallyCounts(Hours(sessions), hour);
  }

  /** The peak hours of the sessions: at most six, busiest first, no hour
      twice, and each with the number of sessions started in it. */
  lemma PeakHoursFacts(sessions: seq<UssdSession>)
    ensures var peak := Summary(sessions).peakHours;
      |peak| <= PeakHourCount && NonIncreasing(peak, HourCountKey)
      && (forall i, j :: 0 <= i < j < |peak| ==> peak[i].hour != peak[j].hour)
      && forall i :: 0 <= i < |peak| ==> peak[i].sessions == Occurrences(Hours(sessions), peak[i].hour)
  {
    SummaryPeakHours(sessions);
    TallyWellFormed(Hours(sessions));
    PeakHoursOfTally(TallyOf(Hours(sessions)));
    PeakHoursOccurrences(sessions);
  }

  lemma PeakHoursOccurrences(sessions: seq<UssdSession>)
    ensures var peak := PeakHours(TallyOf(Hours(sessions)));
      forall i :: 0 <= i < |peak| ==> peak[i].sessions == Occurrences(Hours(sessions), peak[i].hour)
  {
    var t := TallyOf(Hours(sessions));
    var peak := PeakHours(t);
    TallyWellFormed(Hours(sessions));
    PeakHoursCounted(t);
    forall i | 0 <= i < |peak| ensures peak[i].sessions == Occurrences(Hours(sessions), peak[i].hour) {
      HourTallyIsOccurrences(sessions, peak[i].hour);
    }
  }

  /** An hour left out of the peak hours saw no more sessions than any
      listed hour. */
  lemma PeakHoursMaximal(sessions: seq<UssdSession>, hour: int)
    requires hour in Hours(sessions)
    requires forall i :: 0 <= i < |Summary(sessions).peakHours| ==> Summary(sessions).peakHours[i].hour != hour
    ensures forall i :: 0 <= i < |Summary(sessions).peakHours| ==>
      Occurrences(Hours(sessions), hour) <= Summary(sessions).peakHours[i].sessions
  {
    var t := TallyOf(Hours(sessions));
    SummaryPeakHours(sessions);
    TallyWellFormed(Hours(sessions));
    HourTallyIsOccurrences(sessions, hour);
    PeakHoursOfTallyMaximal(t, hour);
  }
}
