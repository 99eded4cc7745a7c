/** The maintenance window (internal/maintenance/window.go): cron parsing and the bounded search
    for the next opening, in UTC. */
module Window {
  import opened Wrappers
  import opened Text

  /** `weekday` is -1 for any day, else 0 for Sunday to 6 for Saturday. */
  datatype Schedule = Schedule(minute: int, hour: int, weekday: int)

  const MINUTES_PER_DAY := 1440
  const MINUTES_PER_WEEK := 10080
  const NANOS_PER_MINUTE := 60_000_000_000

  // An instant is a number of nanoseconds since Go's zero time, a Monday at 00:00 UTC; a
  // minute is a number of whole minutes since then.

  function MinuteOfHour(m: int): int {
    m % 60
  }

  function Hour(m: int): int {
    m / 60 % 24
  }

  function Weekday(m: int): int {
    (m / MINUTES_PER_DAY + 1) % 7
  }

  predicate IsOpen(s: Schedule, m: int) {
    if s.weekday >= 0 && Weekday(m) != s.weekday then false
    else if Hour(m) != s.hour then false
    else if MinuteOfHour(m) < s.minute then false
    else true
  }

  /** time.Truncate(time.Minute), in minutes. */
  function Truncate(instant: int): int {
    instant / NANOS_PER_MINUTE
  }

  /** What parseCron lets through. */
  predicate InRange(s: Schedule) {
    0 <= s.minute <= 59 && 0 <= s.hour <= 23 && -1 <= s.weekday <= 6
  }

  function ParseField(s: string, min: int, max: int): Option<int> {
    if s == "*" then Some(min)
    else
      match Atoi(s)
      case None => None
      case Some(v) => if v < min || v > max then None else Some(v)
  }

  /** Sunday is 0 or 7. */
  function SundayIsZero(v: int): int {
    if v == 7 then 0 else v
  }

  /** Day of month and month are not looked at. */
  function CronOf(fields: seq<string>): (r: Option<Schedule>)
    ensures r.Some? ==> InRange(r.value)
  {
    if |fields| != 5 then None
    else
      match (ParseField(fields[0], 0, 59), ParseField(fields[1], 0, 23))
      case (Some(minute), Some(hour)) =>
        if fields[4] == "*" then Some(Schedule(minute, hour, -1))
        else (
          match ParseField(fields[4], 0, 7)
          case None => None
          case Some(v) => Some(Schedule(minute, hour, SundayIsZero(v))))
      case _ => None
  }

  function ParseCron(expr: string): (r: Option<Schedule>)
    ensures r.Some? ==> InRange(r.value)
  {
    CronOf(Fields(TrimSpace(expr)))
  }

  /** A field says a number in range, or "*" for the least one. */
  ghost predicate FieldSays(word: string, v: int, min: int, max: int) {
    if word == "*" then v == min else Numeral(word, v) && min <= v <= max
  }

  /** The last field says "*" for any day, or a number from 0 to 7, the last being Sunday again. */
  ghost predicate WeekdaySays(word: string, weekday: int) {
    if word == "*" then weekday == -1
    else exists v :: Numeral(word, v) && 0 <= v <= 7 && weekday == SundayIsZero(v)
  }

  lemma FieldExactly(word: string, v: int, min: int, max: int)
    requires 0 <= min <= max <= 59
    ensures ParseField(word, min, max) == Some(v) <==> FieldSays(word, v, min, max)
  {
    if min <= v <= max {
      AtoiExactly(word, v);
    }
  }

  lemma WeekdayExactly(word: string, weekday: int)
    requires word != "*"
    ensures WeekdaySays(word, weekday) <==>
              ParseField(word, 0, 7).Some? && weekday == SundayIsZero(ParseField(word, 0, 7).value)
  {
    if WeekdaySays(word, weekday) {
      var v :| Numeral(word, v) && 0 <= v <= 7 && weekday == SundayIsZero(v);
      FieldExactly(word, v, 0, 7);
    }
    if ParseField(word, 0, 7).Some? {
      var v := ParseField(word, 0, 7).value;
      FieldExactly(word, v, 0, 7);
      assert Numeral(word, v);
    }
  }

  /** What parseCron accepts, and as which schedule: five words that say its minute, its hour and
      its weekday. It refuses every other text. */
  lemma CronExactly(expr: string, s: Schedule)
    ensures ParseCron(expr) == Some(s) <==>
              var words := Fields(expr);
              && |words| == 5
              && FieldSays(words[0], s.minute, 0, 59) && FieldSays(words[1], s.hour, 0, 23)
              && WeekdaySays(words[4], s.weekday)
  {
    FieldsTrim(expr);
    var words := Fields(expr);
    if |words| == 5 {
      FieldExactly(words[0], s.minute, 0, 59);
      FieldExactly(words[1], s.hour, 0, 23);
      if words[4] != "*" {
        WeekdayExactly(words[4], s.weekday);
      }
    }
  }

  /** Every schedule is what some text says: parsing undoes printing, whatever stands for the
      day of the month and the month, and Sunday may be written 7. */
  lemma CronRoundTrip(s: Schedule, dayOfMonth: string, month: string, weekday: string)
    requires InRange(s) && IsWord(dayOfMonth) && IsWord(month)
    requires weekday == (if s.weekday < 0 then "*" else Decimal(s.weekday)) || (s.weekday == 0 && weekday == Decimal(7))
    ensures ParseCron(Spaced([Decimal(s.minute), Decimal(s.hour), dayOfMonth, month, weekday])) == Some(s)
  {
    var words := [Decimal(s.minute), Decimal(s.hour), dayOfMonth, month, weekday];
    AtoiDecimal(s.minute);
    AtoiDecimal(s.hour);
    AtoiDecimal(7);
    if s.weekday >= 0 {
      AtoiDecimal(s.weekday);
    }
    assert forall i :: 0 <= i < |words| ==> IsWord(words[i]);
    SpacedParse(words, s);
  }

  lemma SpacedParse(words: seq<string>, s: Schedule)
    requires InRange(s) && |words| == 5 && (forall i :: 0 <= i < |words| ==> IsWord(words[i]))
    requires words[0] != "*" && words[1] != "*" && Atoi(words[0]) == Some(s.minute) && Atoi(words[1]) == Some(s.hour)
    requires if words[4] == "*" then s.weekday < 0
             else s.weekday >= 0 && (Atoi(words[4]) == Some(s.weekday) || (s.weekday == 0 && Atoi(words[4]) == Some(7)))
    ensures ParseCron(Spaced(words)) == Some(s)
  {
    FieldsTrimSpaced(words);
    CronOfWords(words, s);
  }

  lemma CronOfWords(words: seq<string>, s: Schedule)
    requires InRange(s) && |words| == 5
    requires words[0] != "*" && words[1] != "*" && Atoi(words[0]) == Some(s.minute) && Atoi(words[1]) == Some(s.hour)
    requires if words[4] == "*" then s.weekday < 0
             else s.weekday >= 0 && (Atoi(words[4]) == Some(s.weekday) || (s.weekday == 0 && Atoi(words[4]) == Some(7)))
    ensures CronOf(words) == Some(s)
  {
  }

  lemma DivShift(a: int, k: int, d: int)
    requires d in {7, 24, 60, MINUTES_PER_DAY, MINUTES_PER_WEEK}
    ensures (a + k * d) / d == a / d + k && (a + k * d) % d == a % d
  {
  }

  /** The window opens at hour:minute of its day, or of every day, and closes when the hour is
      over, so it is an hour wide only if it opens on the hour. Day 0 is a Monday. */
  lemma OpenExactly(s: Schedule, day: int, hour: int, minute: int)
    requires 0 <= hour < 24 && 0 <= minute < 60
    ensures IsOpen(s, day * MINUTES_PER_DAY + hour * 60 + minute)
       <==> (s.weekday < 0 || (day + 1) % 7 == s.weekday) && hour == s.hour && minute >= s.minute
  {
    var m := day * MINUTES_PER_DAY + hour * 60 + minute;
    DivShift(hour * 60 + minute, day, MINUTES_PER_DAY);
    DivShift(minute, day * 24 + hour, 60);
    DivShift(hour, day, 24);
  }

  /** From the minute it opens at, it is open for 60 minutes exactly if it opens on the hour. */
  lemma HourWideExactly(s: Schedule, m: int)
    requires InRange(s) && IsOpen(s, m) && MinuteOfHour(m) == s.minute
    ensures (forall k :: m <= k < m + 60 ==> IsOpen(s, k)) <==> s.minute == 0
  {
    HourOfDay(m);
    var day := m / MINUTES_PER_DAY;
    if s.minute == 0 {
      forall k | m <= k < m + 60 ensures IsOpen(s, k) {
        assert k == day * MINUTES_PER_DAY + Hour(m) * 60 + (k - m);
        OpenExactly(s, day, Hour(m), 0);
        OpenExactly(s, day, Hour(m), k - m);
      }
    } else {
      DivShift(0, m / 60 + 1, 60);
      assert m + 60 - s.minute == 0 + (m / 60 + 1) * 60;
      assert !IsOpen(s, m + 60 - s.minute);
    }
  }

  /** The open minutes repeat every week. */
  lemma Weekly(s: Schedule, m: int)
    ensures IsOpen(s, m + MINUTES_PER_WEEK) <==> IsOpen(s, m)
  {
    DivShift(m, 7, MINUTES_PER_DAY);
    DivShift(m / MINUTES_PER_DAY + 1, 1, 7);
    DivShift(m, 168, 60);
    DivShift(m / 60, 7, 24);
  }

  /** A schedule for any day repeats every day. */
  lemma Daily(s: Schedule, m: int)
    requires s.weekday < 0
    ensures IsOpen(s, m + MINUTES_PER_DAY) <==> IsOpen(s, m)
  {
    DivShift(m, 24, 60);
    DivShift(m / 60, 1, 24);
  }

  /** Weekday, hour and minute say where in the week a minute lies. */
  lemma SameSlot(m: int, n: int)
    requires Weekday(m) == Weekday(n) && Hour(m) == Hour(n) && MinuteOfHour(m) == MinuteOfHour(n)
    ensures (m - n) % MINUTES_PER_WEEK == 0
  {
    HourOfDay(m);
    HourOfDay(n);
    var p, q := m / MINUTES_PER_DAY, n / MINUTES_PER_DAY;
    var k := (p + 1) / 7 - (q + 1) / 7;
    assert p - q == 7 * k;
    assert m - n == (p - q) * MINUTES_PER_DAY;
    assert m - n == 0 + k * MINUTES_PER_WEEK;
    DivShift(0, k, MINUTES_PER_WEEK);
  }

  lemma HourOfDay(m: int)
    ensures m == m / MINUTES_PER_DAY * MINUTES_PER_DAY + Hour(m) * 60 + MinuteOfHour(m)
  {
    assert m / 60 / 24 == m / MINUTES_PER_DAY;
  }

  /** Days from the day of minute m forward to the schedule's day. */
  function DaysAhead(s: Schedule, m: int): int {
    if s.weekday < 0 then 0 else (s.weekday - Weekday(m)) % 7
  }

  /** The minute the window opens on that day. */
  function OpeningOn(s: Schedule, m: int): int {
    (m / MINUTES_PER_DAY + DaysAhead(s, m)) * MINUTES_PER_DAY + s.hour * 60 + s.minute
  }

  lemma OpeningIsOpen(s: Schedule, m: int)
    requires InRange(s)
    ensures IsOpen(s, OpeningOn(s, m))
  {
    var day := m / MINUTES_PER_DAY + DaysAhead(s, m);
    var o := OpeningOn(s, m);
    assert o / MINUTES_PER_DAY == day;
    assert o == (day * 24 + s.hour) * 60 + s.minute;
    assert o / 60 == day * 24 + s.hour && o % 60 == s.minute;
    assert (day * 24 + s.hour) % 24 == s.hour;
    if s.weekday >= 0 {
      DayAhead(m / MINUTES_PER_DAY + 1, s.weekday);
    }
  }

  lemma DayAhead(d: int, weekday: int)
    requires 0 <= weekday <= 6
    ensures (d + (weekday - d % 7) % 7) % 7 == weekday
  {
  }

  /** The week after any minute has an open one. */
  lemma OpensWithinWeek(s: Schedule, from: int) returns (m: int)
    requires InRange(s)
    ensures from < m <= from + MINUTES_PER_WEEK && IsOpen(s, m)
  {
    m := OpeningOn(s, from);
    OpeningIsOpen(s, from);
    if m <= from {
      Weekly(s, m);
      m := m + MINUTES_PER_WEEK;
    } else {
      assert m <= from + MINUTES_PER_WEEK;
    }
  }

  /** NextOpen never gives up on a schedule that parseCron accepts: the answer is the first open
      minute to begin after the instant, at most a week ahead. Go's zero time, minute 0, stands for
      "not found"; from an instant of year 1 or later it is never the answer. */
  method NextOpen(s: Schedule, from: int) returns (t: int)
    requires InRange(s)
    ensures from < t * 60_000_000_000 <= from + 10080 * 60_000_000_000
    ensures IsOpen(s, t)
    ensures forall m :: m < t && from < m * 60_000_000_000 ==> !IsOpen(s, m)
    ensures from >= 0 ==> t > 0
  {
    t := Truncate(from);
    ghost var opening := OpensWithinWeek(s, t);
    for i := 0 to 10080
      invariant t == Truncate(from) + i
      invariant forall m :: Truncate(from) < m <= t ==> !IsOpen(s, m)
      invariant t < opening
    {
      t := t + 1;
      if IsOpen(s, t) {
        assert forall m :: from < m * NANOS_PER_MINUTE ==> Truncate(from) < m;
        return t;
      }
    }
    assert false;
    t := 0;
  }

  /** Before year 1 the answer can be the minute that stands for "not found". */
  lemma ZeroTimeOpens(s: Schedule)
    requires InRange(s)
    ensures IsOpen(s, 0) <==> (s.weekday < 0 || s.weekday == 1) && s.hour == 0 && s.minute == 0
  {
  }

  /** The bound of a week is tight, and exactly here: the answer lies a whole week ahead when
      the search starts in an open minute of a schedule for one day that opens at minute 59. */
  lemma WholeWeekExactly(s: Schedule, from: int, t: int)
    requires InRange(s)
    requires from < t && IsOpen(s, t) && forall m :: from < m < t ==> !IsOpen(s, m)
    ensures t == from + MINUTES_PER_WEEK <==> s.weekday >= 0 && s.minute == 59 && IsOpen(s, from)
  {
    Weekly(s, from);
    if s.weekday >= 0 && s.minute == 59 && IsOpen(s, from) {
      SameSlot(t, from);
      assert t - from <= MINUTES_PER_WEEK;
    } else if t == from + MINUTES_PER_WEEK {
      Sooner(s, from);
    }
  }

  /** In every other case some minute of the week to come is open before the week is over. */
  lemma Sooner(s: Schedule, from: int)
    requires InRange(s) && IsOpen(s, from) && (s.weekday < 0 || s.minute < 59)
    ensures exists m :: from < m < from + MINUTES_PER_WEEK && IsOpen(s, m)
  {
    if s.weekday < 0 {
      Daily(s, from);
      assert IsOpen(s, from + MINUTES_PER_DAY);
    } else if MinuteOfHour(from) < 59 {
      StillOpen(s, from);
      assert IsOpen(s, from + 1);
    } else {
      WasOpen(s, from);
      Weekly(s, from - 1);
      assert IsOpen(s, from - 1 + MINUTES_PER_WEEK);
    }
  }

  lemma NextMinute(m: int)
    requires MinuteOfHour(m) < 59
    ensures MinuteOfHour(m + 1) == MinuteOfHour(m) + 1 && Hour(m + 1) == Hour(m) && Weekday(m + 1) == Weekday(m)
  {
    HourOfDay(m);
    HourOfDay(m + 1);
    assert (m + 1) / 60 == m / 60;
  }

  /** Once open, a window stays open until the hour is over. */
  lemma StillOpen(s: Schedule, m: int)
    requires MinuteOfHour(m) < 59 && IsOpen(s, m)
    ensures IsOpen(s, m + 1)
  {
    NextMinute(m);
  }

  lemma LastMinute(m: int)
    requires MinuteOfHour(m) == 59
    ensures MinuteOfHour(m - 1) == 58
  {
    assert m - 1 == 58 + m / 60 * 60;
    DivShift(58, m / 60, 60);
  }

  lemma WasOpen(s: Schedule, m: int)
    requires 0 <= s.minute < 59 == MinuteOfHour(m) && IsOpen(s, m)
    ensures IsOpen(s, m - 1)
  {
    LastMinute(m);
    NextMinute(m - 1);
  }
}
