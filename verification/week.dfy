/**
 The week strip at the top of the main screen: for a reference date, the
 seven days of the Monday-started week that contains it, and which of them is
 highlighted as the reference date.

 Dates are whole days counted from 1970-01-01, which was a Thursday; time of
 day and time zones are not modelled. The weekday label and the day of the
 month come from the calendar library and are taken as given functions.
 */
module Week {

  /** A calendar day: the number of days since 1970-01-01. */
  type Day = int

  /** Days in a week. */
  const DaysPerWeek: nat := 7

  /** Weekday number with Monday first: Monday is 0, Sunday is 6. */
  function Weekday(d: Day): (w: nat)
    ensures w < DaysPerWeek
  {
    (d + 3) % DaysPerWeek
  }

  /** 1970-01-01 was a Thursday. */
  lemma EpochIsThursday()
    ensures Weekday(0) == 3
  {
  }

  predicate IsMonday(d: Day) {
    Weekday(d) == 0
  }

  /** `addDays(d, n)`. */
  function AddDays(d: Day, n: int): Day {
    d + n
  }

  /** Weekdays advance by one per day and wrap after Sunday. */
  lemma WeekdayOfAddDays(d: Day, n: nat)
    ensures Weekday(AddDays(d, n)) == (Weekday(d) + n) % DaysPerWeek
  {
  }

  /** `startOfWeek(d, { weekStartsOn: 1 })`: the Monday on or before `d`. */
  function StartOfWeek(d: Day): (start: Day)
    ensures IsMonday(start)
    ensures start <= d < start + DaysPerWeek
  {
    d - Weekday(d)
  }

  /** Two Mondays less than a week apart are the same day. */
  lemma MondaysAreAWeekApart(m1: Day, m2: Day)
    requires IsMonday(m1) && IsMonday(m2)
    requires m1 <= m2 < m1 + DaysPerWeek
    ensures m1 == m2
  {
    WeekdayOfAddDays(m1, m2 - m1);
  }

  /** `StartOfWeek(d)` is the latest Monday that is not after `d`. */
  lemma StartOfWeekIsLatestMonday(d: Day, m: Day)
    requires IsMonday(m) && m <= d
    ensures m <= StartOfWeek(d)
  {
    var start := StartOfWeek(d);
    if start < m {
      MondaysAreAWeekApart(start, m);
    }
  }

  /** All days of one Monday-started week share its start. */
  lemma StartOfWeekWithinWeek(d: Day, i: nat)
    requires i < DaysPerWeek
    ensures StartOfWeek(AddDays(StartOfWeek(d), i)) == StartOfWeek(d)
  {
    var start := StartOfWeek(d);
    var e := AddDays(start, i);
    StartOfWeekIsLatestMonday(e, start);
    MondaysAreAWeekApart(start, StartOfWeek(e));
  }

  /** One cell of the strip: its weekday label, its date, its day of month. */
  datatype WeekDay = WeekDay(formatted: string, date: Day, day: int)

  /** `week` has the seven dates of the Monday-started week containing `date`. */
  ghost predicate IsWeekOf(week: seq<WeekDay>, date: Day) {
    && |week| == DaysPerWeek
    && forall i :: 0 <= i < |week| ==> week[i].date == StartOfWeek(date) + i
  }

  /**
   `getWeekDays(date)`: the cells for the seven days from the Monday on or
   before `date`. `format` is the library's weekday label ('EEE') and
   `getDate` its day of the month.
   */
  method GetWeekDays(date: Day, format: Day -> string, getDate: Day -> int)
    returns (week: seq<WeekDay>)
    ensures IsWeekOf(week, date)
    ensures forall i :: 0 <= i < |week| ==>
              var current := StartOfWeek(date) + i;
              week[i] == WeekDay(format(current), current, getDate(current))
  {
    var start := StartOfWeek(date);
    week := [];
    for i := 0 to DaysPerWeek
      invariant |week| == i
      invariant forall j :: 0 <= j < i ==>
                  var current := start + j;
                  week[j] == WeekDay(format(current), current, getDate(current))
    {
      var currentDate := AddDays(start, i);
      week := week + [WeekDay(format(currentDate), currentDate, getDate(currentDate))];
    }
  }

  /** The strip runs Monday to Sunday on consecutive days. */
  lemma WeekRunsMondayToSunday(week: seq<WeekDay>, date: Day)
    requires IsWeekOf(week, date)
    ensures IsMonday(week[0].date)
    ensures forall i :: 0 <= i < |week| ==> Weekday(week[i].date) == i
    ensures forall i :: 0 < i < |week| ==> week[i].date == week[i - 1].date + 1
  {
    var start := StartOfWeek(date);
    forall i | 0 <= i < |week|
      ensures Weekday(week[i].date) == i
    {
      WeekdayOfAddDays(start, i);
    }
  }

  /** `isSameDay` on whole days. */
  predicate IsSameDay(a: Day, b: Day) {
    a == b
  }

  /** Which cells the strip highlights as the reference date. */
  function Highlights(week: seq<WeekDay>, date: Day): seq<bool> {
    seq(|week|, i requires 0 <= i < |week| => IsSameDay(week[i].date, date))
  }

  /** Number of `true` entries. */
  function CountTrue(b: seq<bool>): (n: nat)
    ensures n <= |b|
  {
    if |b| == 0 then 0 else (if b[0] then 1 else 0) + CountTrue(b[1..])
  }

  /** A sequence that is true at position `p` and nowhere else counts one. */
  lemma {:induction false} CountTrueOneHot(b: seq<bool>, p: nat)
    requires p < |b|
    requires forall i :: 0 <= i < |b| ==> (b[i] <==> i == p)
    ensures CountTrue(b) == 1
  {
    if p == 0 {
      CountTrueNone(b[1..]);
    } else {
      CountTrueOneHot(b[1..], p - 1);
    }
  }

  /** An all-false sequence counts zero. */
  lemma {:induction false} CountTrueNone(b: seq<bool>)
    requires forall i :: 0 <= i < |b| ==> !b[i]
    ensures CountTrue(b) == 0
  {
    if |b| > 0 {
      CountTrueNone(b[1..]);
    }
  }

  /**
   The reference date is in its own strip, at its weekday's position, and it
   is the only highlighted cell.
   */
  lemma ExactlyOneHighlighted(week: seq<WeekDay>, date: Day)
    requires IsWeekOf(week, date)
    ensures forall i :: 0 <= i < |week| ==> (IsSameDay(week[i].date, date) <==> i == Weekday(date))
    ensures CountTrue(Highlights(week, date)) == 1
  {
    CountTrueOneHot(Highlights(week, date), Weekday(date));
  }

  /** Tapping any cell selects a date whose strip is the same week. */
  lemma SelectingACellKeepsTheWeek(week: seq<WeekDay>, date: Day, i: nat)
    requires IsWeekOf(week, date) && i < |week|
    ensures StartOfWeek(week[i].date) == StartOfWeek(date)
  {
    StartOfWeekWithinWeek(date, i);
  }

  /** A Wednesday's strip starts two days before it and ends four days after. */
  lemma WednesdayExample(week: seq<WeekDay>, date: Day)
    requires IsWeekOf(week, date) && Weekday(date) == 2
    ensures week[0].date == date - 2 && week[6].date == date + 4
  {
  }
}
