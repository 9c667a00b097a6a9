/** NextAfter and dayMatches of internal/application/scheduler/cron.go, in UTC. */
module CronNext {
  import opened Wrappers
  import opened Calendar

  /** A parsed expression; no list of days stands for "any day". */
  datatype CronExpr = CronExpr(minute: seq<int>, hour: seq<int>, dom: Option<seq<int>>, month: seq<int>,
                               dow: Option<seq<int>>)

  const NANOS_PER_MINUTE: int := 60_000_000_000
  const MINUTES_PER_DAY: int := 1440

  /** A minute at which the schedule may fire. */
  datatype Fire = Fire(date: Date, hour: int, minute: int)

  predicate Ascending(s: seq<int>) {
    forall i, j :: 0 <= i < j < |s| ==> s[i] < s[j]
  }

  predicate Within(s: seq<int>, lo: int, hi: int) {
    forall i :: 0 <= i < |s| ==> lo <= s[i] <= hi
  }

  predicate WellFormed(e: CronExpr) {
    Ascending(e.minute) && Within(e.minute, 0, 59) && Ascending(e.hour) && Within(e.hour, 0, 23)
  }

  /** dayMatches: the month, and the day of the month or of the week when both are restricted. */
  predicate DayMatches(e: CronExpr, d: Date)
    requires Valid(d)
  {
    && d.month in e.month
    && (if e.dom.None? && e.dow.None? then true
        else if e.dom.None? then Weekday(d) in e.dow.value
        else if e.dow.None? then d.day in e.dom.value
        else d.day in e.dom.value || Weekday(d) in e.dow.value)
  }

  /** A day matches two restricted fields exactly when it matches one of them with the other left open; one field alone
      asks for that day, and none for any day of the months. */
  lemma DayRule(e: CronExpr, d: Date)
    requires Valid(d)
    ensures e.dom.Some? && e.dow.Some? ==>
              (DayMatches(e, d) <==> DayMatches(e.(dow := None), d) || DayMatches(e.(dom := None), d))
    ensures DayMatches(e.(dom := None, dow := None), d) <==> d.month in e.month
    ensures e.dom.Some? ==>
              (DayMatches(e.(dow := None), d) <==> DayMatches(e.(dom := None, dow := None), d) && d.day in e.dom.value)
    ensures e.dow.Some? ==>
              (DayMatches(e.(dom := None), d)
               <==> DayMatches(e.(dom := None, dow := None), d) && Weekday(d) in e.dow.value)
  {
  }

  predicate IsTime(f: Fire) {
    Valid(f.date) && 0 <= f.hour <= 23 && 0 <= f.minute <= 59
  }

  /** The schedule fires at this minute. */
  predicate Matches(e: CronExpr, f: Fire) {
    IsTime(f) && DayMatches(e, f.date) && f.hour in e.hour && f.minute in e.minute
  }

  /** The number of a minute. */
  function MinuteOf(f: Fire): int
    requires Valid(f.date)
  {
    DayNumber(f.date) * MINUTES_PER_DAY + f.hour * 60 + f.minute
  }

  /** The least h:m of a day whose number `start` does not exceed, given the number of its midnight. */
  method FirstInDay(e: CronExpr, midnight: int, start: int) returns (r: Option<(int, int)>)
    requires WellFormed(e)
    ensures r.Some? ==> r.value.0 in e.hour && r.value.1 in e.minute && midnight + r.value.0 * 60 + r.value.1 >= start
    ensures r.Some? ==> forall h, m :: h in e.hour && m in e.minute && midnight + h * 60 + m >= start ==>
              h * 60 + m >= r.value.0 * 60 + r.value.1
    ensures r.None? ==> forall h, m :: h in e.hour && m in e.minute ==> midnight + h * 60 + m < start
  {
    for i := 0 to |e.hour|
      invariant forall k, m :: 0 <= k < i && m in e.minute ==> midnight + e.hour[k] * 60 + m < start
    {
      for j := 0 to |e.minute|
        invariant forall k :: 0 <= k < j ==> midnight + e.hour[i] * 60 + e.minute[k] < start
      {
        if midnight + e.hour[i] * 60 + e.minute[j] >= start {
          forall h, m | h in e.hour && m in e.minute && midnight + h * 60 + m >= start
            ensures h * 60 + m >= e.hour[i] * 60 + e.minute[j]
          {
            var k :| 0 <= k < |e.hour| && e.hour[k] == h;
            var l :| 0 <= l < |e.minute| && e.minute[l] == m;
            assert k >= i;
            assert k > i ==> e.hour[i] < e.hour[k];
            assert k == i ==> l >= j;
          }
          return Some((e.hour[i], e.minute[j]));
        }
      }
    }
    return None;
  }

  /** The first minute boundary after an instant, as a date and a minute of the day. */
  function StartDay(date: Date, nanos: nat): (d: Date)
    requires Valid(date)
    ensures Valid(d)
  {
    if nanos / NANOS_PER_MINUTE + 1 == MINUTES_PER_DAY then NextDay(date) else date
  }

  /** The instant in nanoseconds. */
  function Instant(date: Date, nanos: int): int
    requires Valid(date)
  {
    DayNumber(date) * MINUTES_PER_DAY * NANOS_PER_MINUTE + nanos
  }

  /** The first day the search does not reach. */
  function Limit(date: Date, nanos: nat): (d: Date)
    requires Valid(date)
    ensures Valid(d)
  {
    AddYears(StartDay(date, nanos), 5)
  }

  /** A minute is strictly after the instant exactly when its number exceeds that of the instant's minute. */
  lemma StrictlyAfter(date: Date, nanos: nat, f: Fire)
    requires Valid(date) && Valid(f.date) && nanos < MINUTES_PER_DAY * NANOS_PER_MINUTE
    ensures MinuteOf(f) * NANOS_PER_MINUTE > Instant(date, nanos)
       <==> MinuteOf(f) > DayNumber(date) * MINUTES_PER_DAY + nanos / NANOS_PER_MINUTE
  {
    var n, m := DayNumber(date) * MINUTES_PER_DAY, MinuteOf(f);
    assert nanos == nanos / NANOS_PER_MINUTE * NANOS_PER_MINUTE + nanos % NANOS_PER_MINUTE;
    assert Instant(date, nanos) == (n + nanos / NANOS_PER_MINUTE) * NANOS_PER_MINUTE + nanos % NANOS_PER_MINUTE;
  }

  /** Before the limit, a minute that is not earlier than `f` in number is on its day or later. */
  lemma MinuteDay(f: Fire, g: Fire)
    requires IsTime(f) && IsTime(g)
    ensures DayNumber(f.date) < DayNumber(g.date) ==> MinuteOf(f) < MinuteOf(g)
  {
  }

  /** The search day by day from the day that holds minute `start`. */
  method Search(e: CronExpr, first: Date, start: int) returns (r: Option<Fire>)
    requires WellFormed(e) && Valid(first)
    requires DayNumber(first) * MINUTES_PER_DAY <= start < (DayNumber(first) + 1) * MINUTES_PER_DAY
    ensures r.Some? ==> Matches(e, r.value) && MinuteOf(r.value) >= start
    ensures r.Some? ==> DayNumber(r.value.date) < DayNumber(AddYears(first, 5))
    ensures r.Some? ==> forall f :: Matches(e, f) && MinuteOf(f) >= start ==> MinuteOf(r.value) <= MinuteOf(f)
    ensures r.None? ==>
              forall f :: Matches(e, f) && MinuteOf(f) >= start ==> DayNumber(f.date) >= DayNumber(AddYears(first, 5))
  {
    var limit := AddYears(first, 5);
    var day := first;
    while DayNumber(day) < DayNumber(limit)
      invariant Valid(day)
      invariant forall f :: Matches(e, f) && MinuteOf(f) >= start ==> DayNumber(f.date) >= DayNumber(day)
      decreases DayNumber(limit) - DayNumber(day)
    {
      var found: Option<(int, int)> := None;
      if DayMatches(e, day) {
        found := FirstInDay(e, DayNumber(day) * MINUTES_PER_DAY, start);
      }
      forall f | Matches(e, f) && DayNumber(f.date) == DayNumber(day) ensures f.date == day {
        DayNumberOrder(f.date, day);
      }
      if found.Some? {
        r := Some(Fire(day, found.value.0, found.value.1));
        forall f | Matches(e, f) && MinuteOf(f) >= start ensures MinuteOf(r.value) <= MinuteOf(f) {
          MinuteDay(r.value, f);
        }
        return;
      }
      NextDayNumber(day);
      day := NextDay(day);
    }
    return None;
  }

  /** The schedule fires at f, strictly after the instant `nanos` after midnight of `date`. */
  predicate FiresAfter(e: CronExpr, date: Date, nanos: nat, f: Fire)
    requires Valid(date)
  {
    Matches(e, f) && MinuteOf(f) * NANOS_PER_MINUTE > Instant(date, nanos)
  }

  function StartMinute(date: Date, nanos: nat): int
    requires Valid(date)
  {
    DayNumber(date) * MINUTES_PER_DAY + nanos / NANOS_PER_MINUTE + 1
  }

  lemma StartDayHolds(date: Date, nanos: nat)
    requires Valid(date) && nanos < MINUTES_PER_DAY * NANOS_PER_MINUTE
    ensures var n := DayNumber(StartDay(date, nanos));
            n * MINUTES_PER_DAY <= StartMinute(date, nanos) < (n + 1) * MINUTES_PER_DAY
  {
    assert nanos / NANOS_PER_MINUTE < MINUTES_PER_DAY;
    NextDayNumber(date);
  }

  lemma FiresAfterStart(e: CronExpr, date: Date, nanos: nat, f: Fire)
    requires Valid(date) && nanos < MINUTES_PER_DAY * NANOS_PER_MINUTE
    ensures FiresAfter(e, date, nanos, f) <==> Matches(e, f) && MinuteOf(f) >= StartMinute(date, nanos)
  {
    if Matches(e, f) {
      StrictlyAfter(date, nanos, f);
    }
  }

  /** cronExpr.NextAfter for the instant `nanos` after midnight of `date`: the least matching minute strictly after it,
      or nothing exactly when none matches before the limit, five years on. */
  method NextAfter(e: CronExpr, date: Date, nanos: nat) returns (r: Option<Fire>)
    requires WellFormed(e) && Valid(date) && nanos < MINUTES_PER_DAY * NANOS_PER_MINUTE
    ensures r.Some? ==> FiresAfter(e, date, nanos, r.value)
    ensures r.Some? ==> forall f :: FiresAfter(e, date, nanos, f) ==> MinuteOf(r.value) <= MinuteOf(f)
    ensures r.None? <==>
              forall f :: FiresAfter(e, date, nanos, f) ==> DayNumber(f.date) >= DayNumber(Limit(date, nanos))
  {
    var start := StartMinute(date, nanos);
    StartDayHolds(date, nanos);
    forall f ensures FiresAfter(e, date, nanos, f) <==> Matches(e, f) && MinuteOf(f) >= start {
      FiresAfterStart(e, date, nanos, f);
    }
    r := Search(e, StartDay(date, nanos), start);
  }
}
