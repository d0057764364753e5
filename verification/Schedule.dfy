// compute_next_run of app/scheduler/jobs.py: when a scheduled report runs next. Instants are whole microseconds;
// a day is 24 hours long, since the offset of Indian time never changes.
module Schedule {

  const MINUTE: int := 60_000_000
  const HOUR: int := 60 * MINUTE
  const DAY: int := 24 * HOUR
  const IST: int := 5 * HOUR + 30 * MINUTE

  // ---- the calendar

  /** A month of a year; month 1 is January. */
  datatype Month = Month(year: int, month: int)

  predicate IsMonth(m: Month) { m.year >= 1 && 1 <= m.month <= 12 }

  predicate Leap(year: int) { year % 4 == 0 && (year % 100 != 0 || year % 400 == 0) }

  function Length(m: Month): (days: int)
    ensures 28 <= days <= 31
  {
    if m.month == 2 then (if Leap(m.year) then 29 else 28)
    else if m.month in {4, 6, 9, 11} then 30
    else 31
  }

  function NextMonth(m: Month): Month {
    if m.month == 12 then Month(m.year + 1, 1) else Month(m.year, m.month + 1)
  }

  /** The months from year 1 on, counted from 0. */
  function Count(m: Month): int { 12 * (m.year - 1) + m.month - 1 }

  /** How many days came before a month since the first day of year 1. */
  function Before(m: Month): (days: int)
    requires IsMonth(m)
    ensures days >= 0
    decreases Count(m)
  {
    if m == Month(1, 1) then 0
    else
      var last := if m.month == 1 then Month(m.year - 1, 12) else Month(m.year, m.month - 1);
      Before(last) + Length(last)
  }

  datatype Date = Date(month: Month, day: int)

  predicate IsDate(d: Date) { IsMonth(d.month) && 1 <= d.day <= Length(d.month) }

  /** The number of a day: the first day of year 1 is day 1. */
  function Number(d: Date): int
    requires IsDate(d)
  {
    Before(d.month) + d.day
  }

  function NextDay(d: Date): Date {
    if d.day < Length(d.month) then Date(d.month, d.day + 1) else Date(NextMonth(d.month), 1)
  }

  lemma NextDayIs(d: Date)
    requires IsDate(d)
    ensures IsDate(NextDay(d)) && Number(NextDay(d)) == Number(d) + 1
  {
    hide Length;
    var m := NextMonth(d.month);
    assert Before(m) == Before(d.month) + Length(d.month);
  }

  function DateOf(n: int): (d: Date)
    requires n >= 1
    ensures IsDate(d) && Number(d) == n
    decreases n
  {
    if n == 1 then Date(Month(1, 1), 1)
    else
      var last := DateOf(n - 1);
      NextDayIs(last);
      NextDay(last)
  }

  lemma {:induction false} BeforeRises(a: Month, b: Month)
    requires IsMonth(a) && IsMonth(b) && Count(a) < Count(b)
    ensures Before(a) + Length(a) <= Before(b)
    decreases Count(b)
  {
    var last := if b.month == 1 then Month(b.year - 1, 12) else Month(b.year, b.month - 1);
    if last != a { BeforeRises(a, last); }
  }

  /** Every day has one date. */
  lemma {:induction false} DateIsUnique(d: Date)
    requires IsDate(d)
    ensures Number(d) >= 1 && DateOf(Number(d)) == d
  {
    var e := DateOf(Number(d));
    if Count(d.month) < Count(e.month) { BeforeRises(d.month, e.month); }
    if Count(e.month) < Count(d.month) { BeforeRises(e.month, d.month); }
  }

  // ---- a row, and what its fields come to

  datatype Kind = Minutely | Hourly | Daily | Weekly | Monthly | Unknown

  /** A scheduled_reports row. A field that is 0 or empty counts as not given, the way the code reads it. The day of
      the week stands as the code looks it up: its first three letters, in small ones. */
  datatype Row = Row(kind: Kind, interval: int, minute: int, hour: int, weekday: string, monthDay: int)

  const DAY_NAMES: seq<string> := ["mon", "tue", "wed", "thu", "fri", "sat", "sun"]

  function Or(a: int, b: int): int { if a != 0 then a else b }

  function HourOf(row: Row): int { Or(row.hour, if row.kind == Daily then 8 else 9) }

  function DayName(row: Row): string { if row.weekday == "" then "mon" else row.weekday }

  function MonthDay(row: Row): int { Or(row.monthDay, 1) }

  function TimeOfDay(row: Row): int { HourOf(row) * HOUR + row.minute * MINUTE }

  datatype Next = At(instant: int) | Invalid

  function Position(names: seq<string>, name: string): (at: int)
    ensures 0 <= at <= |names| && (at < |names| ==> names[at] == name)
  {
    if names == [] then 0 else if names[0] == name then 0 else 1 + Position(names[1..], name)
  }

  function Weekday(number: int): int { (number - 1) % 7 }

  /** Whether hours and minutes can be set at all; a wrong one raises an error. */
  predicate GoodTime(row: Row) { 0 <= row.minute < 60 && (row.kind == Hourly || 0 <= HourOf(row) < 24) }

  function Min(a: int, b: int): int { if a <= b then a else b }

  /** The next run in local time, branch by branch. */
  function NextLocal(row: Row, now: int): Next
    requires now >= DAY
  {
    match row.kind
    case Minutely => At(now + Or(row.interval, 1) * MINUTE)
    case Unknown => At(now + DAY)
    case Hourly =>
      if !GoodTime(row) then Invalid
      else
        var next := now / HOUR * HOUR + row.minute * MINUTE;
        At(if next <= now then next + HOUR else next)
    case Daily =>
      if !GoodTime(row) then Invalid
      else
        var next := now / DAY * DAY + TimeOfDay(row);
        At(if next <= now then next + DAY else next)
    case Weekly =>
      var target := Position(DAY_NAMES, DayName(row));
      if !GoodTime(row) || target == |DAY_NAMES| then Invalid
      else
        var ahead := (target - Weekday(now / DAY)) % 7;
        var next := now / DAY * DAY + TimeOfDay(row) + ahead * DAY;
        At(if next <= now then next + 7 * DAY else next)
    case Monthly =>
      var today := DateOf(now / DAY);
      var day := Min(MonthDay(row), Length(today.month));
      if !GoodTime(row) || day < 1 then Invalid
      else
        var next := Number(Date(today.month, day)) * DAY + TimeOfDay(row);
        if next > now then At(next)
        else if day > Length(NextMonth(today.month)) then Invalid
        else At(Number(Date(NextMonth(today.month), day)) * DAY + TimeOfDay(row))
  }

  /** The next run, from an instant in universal time to one in universal time. */
  function ComputeNextRun(row: Row, now: int): Next
    requires now + IST >= DAY
  {
    match NextLocal(row, now + IST)
    case At(t) => At(t - IST)
    case Invalid => Invalid
  }

  // ---- the instants a row stands for

  /** Whether a local instant is one of the row's, by its effective fields. A day the month does not have
      stands for the month's last. */
  predicate Matches(row: Row, t: int)
    requires t >= DAY
  {
    match row.kind
    case Hourly => t % HOUR == row.minute * MINUTE
    case Daily => t % DAY == TimeOfDay(row)
    case Weekly =>
      t % DAY == TimeOfDay(row)
      && var p := Position(DAY_NAMES, DayName(row)); Weekday(t / DAY) == p
    case Monthly =>
      t % DAY == TimeOfDay(row)
      && var d := DateOf(t / DAY); d.day == Min(MonthDay(row), Length(d.month))
    case _ => false
  }

  predicate Regular(row: Row) {
    && GoodTime(row) && row.kind in {Hourly, Daily, Weekly, Monthly}
    && (row.kind == Weekly ==> DayName(row) in DAY_NAMES)
    && (row.kind == Monthly ==> MonthDay(row) >= 1)
  }

  ghost predicate Least(row: Row, now: int, t: int)
    requires now >= DAY
  {
    t > now && Matches(row, t) && forall u | now < u < t :: !Matches(row, u)
  }

  lemma Times(a: int, b: int, size: int)
    requires size > 0 && a < b
    ensures a * size + size <= b * size
  {
    assert b * size == (a + 1) * size + (b - a - 1) * size;
  }

  lemma Split(q: int, r: int, size: int)
    requires size > 0 && 0 <= r < size
    ensures (q * size + r) / size == q && (q * size + r) % size == r
  {
    var t := q * size + r;
    var p := t / size;
    if p < q { Times(p, q, size); }
    if q < p { Times(q, p, size); }
  }

  /** The first instant after `now` that stands `off` after a multiple of `size`. */
  lemma FirstSlot(now: int, off: int, size: int)
    requires size > 0 && 0 <= off < size
    ensures var here := now / size * size + off;
            var next := if here <= now then here + size else here;
            && next > now && next % size == off
            && forall u | now < u < next :: u % size != off
  {
    var b := now / size;
    Split(b, off, size);
    Split(b + 1, off, size);
    assert (b + 1) * size == b * size + size;
    forall u | now < u && u % size == off
      ensures u >= if b * size + off <= now then b * size + off + size else b * size + off
    {
      LaterSlot(now, off, size, u);
    }
  }

  lemma LaterSlot(now: int, off: int, size: int, u: int)
    requires size > 0 && 0 <= off < size && now < u && u % size == off
    ensures var here := now / size * size + off; u >= if here <= now then here + size else here
  {
    var a, b := u / size, now / size;
    assert u == a * size + off;
    if a < b { Times(a, b, size); }
    if b < a { Times(b, a, size); }
  }

  lemma HourlyLeast(row: Row, now: int)
    requires row.kind == Hourly && Regular(row) && now >= DAY
    ensures NextLocal(row, now).At? && Least(row, now, NextLocal(row, now).instant)
  {
    FirstSlot(now, row.minute * MINUTE, HOUR);
  }

  lemma DailyLeast(row: Row, now: int)
    requires row.kind == Daily && Regular(row) && now >= DAY
    ensures NextLocal(row, now).At? && Least(row, now, NextLocal(row, now).instant)
  {
    FirstSlot(now, TimeOfDay(row), DAY);
  }

  lemma {:induction false} PositionFound(names: seq<string>, name: string)
    requires name in names
    ensures Position(names, name) < |names|
  {
    if names[0] != name { PositionFound(names[1..], name); }
  }

  lemma TimeInDay(row: Row)
    requires GoodTime(row) && row.kind != Hourly
    ensures 0 <= TimeOfDay(row) < DAY
  {
  }

  lemma WeeklyLeast(row: Row, now: int)
    requires row.kind == Weekly && Regular(row) && now >= DAY
    ensures NextLocal(row, now).At? && Least(row, now, NextLocal(row, now).instant)
  {
    hide TimeOfDay, Position, Weekday, HourOf;
    PositionFound(DAY_NAMES, DayName(row));
    TimeInDay(row);
    var p := Position(DAY_NAMES, DayName(row));
    var next := NextLocal(row, now).instant;
    var tod := TimeOfDay(row);
    var today := now / DAY;
    var ahead := (p - Weekday(today)) % 7;
    var day := if (today + ahead) * DAY + tod <= now then today + ahead + 7 else today + ahead;
    assert next == day * DAY + tod;
    hide NextLocal;
    Split(day, tod, DAY);
    WeekdayAhead(today, p, day);
    LaterDay(now, tod, today, day, DAY);
    forall u | now < u < next ensures !Matches(row, u) {
      if u % DAY == tod { WeeklySlots(now, tod, p, day, u, DAY); }
    }
  }

  lemma LaterDay(now: int, tod: int, today: int, day: int, size: int)
    requires size > 0 && 0 <= tod < size && today == now / size && day >= today
    requires day > today || day * size + tod > now
    ensures day * size + tod > now
  {
    if day > today { Times(today, day, size); }
  }

  lemma WeeklySlots(now: int, tod: int, p: int, day: int, u: int, size: int)
    requires size > 0 && 0 <= tod < size && 0 <= p < 7 && now < u < day * size + tod && u % size == tod
    requires var ahead := (p - Weekday(now / size)) % 7;
             day == if (now / size + ahead) * size + tod <= now then now / size + ahead + 7 else now / size + ahead
    ensures Weekday(u / size) != p
  {
    var d, today := u / size, now / size;
    BetweenDays(now, tod, day, u, size);
    assert u == d * size + tod;
    if Weekday(d) == p {
      NoWeekday(today, p, d);
      hide Weekday;
    }
  }

  lemma BetweenDays(now: int, tod: int, day: int, u: int, size: int)
    requires size > 0 && 0 <= tod < size && now < u < day * size + tod && u % size == tod
    ensures now / size <= u / size < day && u == u / size * size + tod
  {
    var d, today := u / size, now / size;
    assert u == d * size + tod;
    if d < today { Times(d, today, size); }
    if day < d { Times(day, d, size); }
  }

  lemma WeekdayAhead(today: int, p: int, day: int)
    requires 0 <= p < 7 && day in {today + (p - Weekday(today)) % 7, today + (p - Weekday(today)) % 7 + 7}
    ensures Weekday(day) == p
  {
  }

  lemma NoWeekday(today: int, p: int, d: int)
    requires 0 <= p < 7 && today <= d && Weekday(d) == p
    ensures d >= today + (p - Weekday(today)) % 7
    ensures d > today + (p - Weekday(today)) % 7 ==> d >= today + (p - Weekday(today)) % 7 + 7
  {
  }

  // ---- months

  function MonthsDay(row: Row, m: Month): int { Min(MonthDay(row), Length(m)) }

  /** The instant a monthly row stands for in a month. */
  function InMonth(row: Row, m: Month): int
    requires IsMonth(m) && MonthDay(row) >= 1
  {
    Number(Date(m, MonthsDay(row, m))) * DAY + TimeOfDay(row)
  }

  predicate MonthlyRow(row: Row) { row.kind == Monthly && Regular(row) }

  /** The instants a monthly row stands for are one in each month. */
  lemma InMonthMatches(row: Row, m: Month, day: int)
    requires MonthlyRow(row) && IsDate(Date(m, day))
    ensures var t := Number(Date(m, day)) * DAY + TimeOfDay(row);
            && t >= DAY && t / DAY == Number(Date(m, day)) && DateOf(t / DAY) == Date(m, day)
            && (Matches(row, t) <==> day == MonthsDay(row, m))
  {
    hide TimeOfDay, Number, DateOf, HourOf, Before;
    TimeInDay(row);
    DateIsUnique(Date(m, day));
    Split(Number(Date(m, day)), TimeOfDay(row), DAY);
  }

  lemma MatchIsInMonth(row: Row, u: int)
    requires MonthlyRow(row) && u >= DAY && Matches(row, u)
    ensures u == InMonth(row, DateOf(u / DAY).month)
  {
    hide TimeOfDay, HourOf, Number, DateOf, Before, Length;
    assert u == u / DAY * DAY + TimeOfDay(row);
  }

  lemma InMonthRises(row: Row, a: Month, b: Month)
    requires MonthlyRow(row) && IsMonth(a) && IsMonth(b) && Count(a) < Count(b)
    ensures InMonth(row, a) < InMonth(row, b)
  {
    hide TimeOfDay;
    BeforeRises(a, b);
    Times(Number(Date(a, MonthsDay(row, a))), Number(Date(b, MonthsDay(row, b))), DAY);
  }

  /** The same time of day on an earlier day is past, on a later day to come. */
  lemma OtherDay(now: int, tod: int, day: int, size: int)
    requires size > 0 && 0 <= tod < size
    ensures day < now / size ==> day * size + tod <= now
    ensures day > now / size ==> day * size + tod > now
  {
    if day < now / size { Times(day, now / size, size); }
    if day > now / size { Times(now / size, day, size); }
  }

  /** An earlier month has nothing left, and a later one has its instant still to come. */
  lemma MonthsAround(row: Row, now: int, m: Month)
    requires MonthlyRow(row) && now >= DAY && IsMonth(m)
    ensures var today := DateOf(now / DAY).month;
            && (Count(m) < Count(today) ==> InMonth(row, m) <= now)
            && (Count(m) > Count(today) ==> InMonth(row, m) > now)
  {
    hide TimeOfDay, HourOf, DateOf;
    TimeInDay(row);
    var today := DateOf(now / DAY);
    var there := Date(m, MonthsDay(row, m));
    assert now / DAY == Number(today);
    OtherDay(now, TimeOfDay(row), Number(there), DAY);
    if Count(m) < Count(today.month) { BeforeRises(m, today.month); }
    if Count(m) > Count(today.month) { BeforeRises(today.month, m); }
  }

  lemma InMonthIsOne(row: Row, m: Month)
    requires MonthlyRow(row) && IsMonth(m)
    ensures InMonth(row, m) >= DAY && Matches(row, InMonth(row, m))
  {
    hide Matches, TimeOfDay, Number;
    InMonthMatches(row, m, MonthsDay(row, m));
  }

  /** What the least instant is: this month's if it is still to come, and else next month's. */
  lemma MonthlyLeast(row: Row, now: int)
    requires MonthlyRow(row) && now >= DAY
    ensures IsMonth(NextMonth(DateOf(now / DAY).month))
    ensures var m := DateOf(now / DAY).month;
            Least(row, now, if InMonth(row, m) > now then InMonth(row, m) else InMonth(row, NextMonth(m)))
  {
    hide Matches, InMonth, Before, Number, TimeOfDay;
    var m := DateOf(now / DAY).month;
    var n := NextMonth(m);
    var t := if InMonth(row, m) > now then InMonth(row, m) else InMonth(row, n);
    InMonthIsOne(row, m);
    InMonthIsOne(row, n);
    MonthsAround(row, now, n);
    forall u | now < u < t ensures !Matches(row, u) {
      if Matches(row, u) { NoneBetween(row, now, u); }
    }
  }

  lemma NoneBetween(row: Row, now: int, u: int)
    requires MonthlyRow(row) && now >= DAY && u > now && Matches(row, u)
    ensures IsMonth(NextMonth(DateOf(now / DAY).month))
    ensures var m := DateOf(now / DAY).month;
            u >= if InMonth(row, m) > now then InMonth(row, m) else InMonth(row, NextMonth(m))
  {
    hide Matches, InMonth, Before, Regular, DateOf, Length, TimeOfDay, Number;
    var m := DateOf(now / DAY).month;
    var n := NextMonth(m);
    var k := DateOf(u / DAY).month;
    MatchIsInMonth(row, u);
    MonthsAround(row, now, k);
    if Count(k) > Count(m) { InMonthRises(row, m, k); }
    if Count(k) > Count(n) { InMonthRises(row, n, k); }
    assert Count(n) == Count(m) + 1;
    assert Count(k) == Count(m) ==> k == m;
    assert Count(k) == Count(n) ==> k == n;
  }

  lemma MonthlyBranch(row: Row, now: int)
    requires MonthlyRow(row) && now >= DAY
    ensures var m := DateOf(now / DAY).month; var n := NextMonth(m); var day := MonthsDay(row, m);
            && IsMonth(n) && day >= 1
            && NextLocal(row, now)
               == if InMonth(row, m) > now then At(InMonth(row, m))
                  else if day > Length(n) then Invalid
                  else At(Number(Date(n, day)) * DAY + TimeOfDay(row))
  {
    hide TimeOfDay, Number, DateOf, Length;
  }

  /** A monthly row gets its least instant after now exactly when this month's is still to come, or the day of
      the month stands for the same day this month and next. */
  lemma {:induction false} MonthlyExactly(row: Row, now: int)
    requires MonthlyRow(row) && now >= DAY
    ensures var m := DateOf(now / DAY).month;
            (NextLocal(row, now).At? && Least(row, now, NextLocal(row, now).instant))
            <==> (InMonth(row, m) > now || MonthsDay(row, m) == MonthsDay(row, NextMonth(m)))
  {
    hide Matches, Before, TimeOfDay, DateOf, HourOf, Number, NextLocal, InMonth;
    var m := DateOf(now / DAY).month;
    var n := NextMonth(m);
    var day := MonthsDay(row, m);
    MonthlyLeast(row, now);
    MonthlyBranch(row, now);
    if day <= Length(n) { InMonthMatches(row, n, day); }
    InMonthIs(row, n);
  }

  lemma InMonthIs(row: Row, m: Month)
    requires MonthlyRow(row) && IsMonth(m)
    ensures InMonth(row, m) == Number(Date(m, MonthsDay(row, m))) * DAY + TimeOfDay(row)
  {
  }

  /** Up to day 28 it always does. */
  lemma MonthlyUpTo28(row: Row, now: int)
    requires MonthlyRow(row) && now >= DAY && MonthDay(row) <= 28
    ensures NextLocal(row, now).At? && Least(row, now, NextLocal(row, now).instant)
  {
    MonthlyExactly(row, now);
  }

  // ---- the whole

  /** A row whose every run comes out right, whenever it is asked for. */
  predicate Steady(row: Row) { Regular(row) && (row.kind == Monthly ==> MonthDay(row) <= 28) }

  predicate MatchesUtc(row: Row, t: int)
    requires t + IST >= DAY
  {
    Matches(row, t + IST)
  }

  /** The next run is the least instant after now that the row stands for. */
  lemma {:induction false} NextRunIsLeast(row: Row, now: int)
    requires Steady(row) && now + IST >= DAY
    ensures var next := ComputeNextRun(row, now);
            && next.At? && next.instant > now && MatchesUtc(row, next.instant)
            && forall u | now < u < next.instant :: !MatchesUtc(row, u)
  {
    var local := now + IST;
    match row.kind {
      case Hourly => HourlyLeast(row, local);
      case Daily => DailyLeast(row, local);
      case Weekly => WeeklyLeast(row, local);
      case Monthly => MonthlyUpTo28(row, local);
      case Minutely =>
      case Unknown =>
    }
    hide NextLocal, Matches, Steady;
    assert Least(row, local, NextLocal(row, local).instant);
    forall u | now < u < ComputeNextRun(row, now).instant ensures !MatchesUtc(row, u) {
      assert local < u + IST < NextLocal(row, local).instant;
    }
  }

  /** The k-th run: each result fed back in. */
  function Run(row: Row, now: int, k: nat): int
    requires now + IST >= DAY
    decreases k
  {
    if k == 0 then now
    else match ComputeNextRun(row, now) case At(t) => if t > now then Run(row, t, k - 1) else now case Invalid => now
  }

  lemma {:induction false} RunsRise(row: Row, now: int, k: nat)
    requires Steady(row) && now + IST >= DAY
    ensures now <= Run(row, now, k) < Run(row, now, k + 1) && MatchesUtc(row, Run(row, now, k + 1))
    decreases k
  {
    hide Steady, ComputeNextRun, MatchesUtc;
    NextRunIsLeast(row, now);
    var next := ComputeNextRun(row, now).instant;
    assert Run(row, now, k + 1) == Run(row, next, k);
    if k > 0 {
      RunsRise(row, next, k - 1);
      assert Run(row, now, k) == Run(row, next, k - 1);
    }
  }

  /** Every instant a row stands for is reached. */
  lemma {:induction false} EveryInstantIsReached(row: Row, now: int, u: int) returns (k: nat)
    requires Steady(row) && now + IST >= DAY && u > now && MatchesUtc(row, u)
    ensures k > 0 && Run(row, now, k) == u
    decreases u - now
  {
    hide Steady, ComputeNextRun, MatchesUtc;
    NextRunIsLeast(row, now);
    var next := ComputeNextRun(row, now).instant;
    if next == u {
      k := 1;
      assert Run(row, next, 0) == u;
    } else {
      k := EveryInstantIsReached(row, next, u);
      k := k + 1;
    }
  }

  ghost predicate Reached(row: Row, now: int, u: int)
    requires now + IST >= DAY
  {
    exists k: nat | k > 0 :: Run(row, now, k) == u
  }

  /** Feeding the results back in gives every instant after now that the row stands for, once and in order. */
  lemma RunsEnumerate(row: Row, now: int)
    requires Steady(row) && now + IST >= DAY
    ensures forall i: nat, j: nat | i < j :: Run(row, now, i) < Run(row, now, j)
    ensures forall k: nat | k > 0 :: Run(row, now, k) + IST >= DAY && MatchesUtc(row, Run(row, now, k))
    ensures forall u | u > now && MatchesUtc(row, u) :: Reached(row, now, u)
  {
    hide Steady, ComputeNextRun, MatchesUtc, Run;
    forall i: nat, j: nat | i < j ensures Run(row, now, i) < Run(row, now, j) { RunsInOrder(row, now, i, j); }
    forall k: nat | k > 0 ensures Run(row, now, k) + IST >= DAY && MatchesUtc(row, Run(row, now, k)) {
      RunsRise(row, now, k - 1);
    }
    forall u | u > now && MatchesUtc(row, u) ensures Reached(row, now, u) {
      var k := EveryInstantIsReached(row, now, u);
    }
  }

  lemma {:induction false} RunsInOrder(row: Row, now: int, i: nat, j: nat)
    requires Steady(row) && now + IST >= DAY && i < j
    ensures Run(row, now, i) < Run(row, now, j)
    decreases j
  {
    RunsRise(row, now, j - 1);
    if i < j - 1 { RunsInOrder(row, now, i, j - 1); }
  }

  // ---- what the effective fields lose

  /** Midnight cannot be asked for: hour 0 counts as not given, and the run is at 8 or 9. */
  lemma {:induction false} MidnightIsNotKept(row: Row, now: int)
    requires Steady(row) && row.kind in {Daily, Weekly, Monthly} && row.hour == 0 && now + IST >= DAY
    ensures var next := ComputeNextRun(row, now);
            next.At? && (next.instant + IST) % DAY / HOUR == if row.kind == Daily then 8 else 9
  {
    hide ComputeNextRun, Matches, TimeOfDay, HourOf;
    NextRunIsLeast(row, now);
    MatchTime(row, ComputeNextRun(row, now).instant + IST);
    HourIs(row);
  }

  lemma MatchTime(row: Row, t: int)
    requires t >= DAY && Matches(row, t) && row.kind in {Daily, Weekly, Monthly}
    ensures t % DAY == TimeOfDay(row)
  {
    hide TimeOfDay;
  }

  lemma HourIs(row: Row)
    requires GoodTime(row) && row.kind != Hourly
    ensures TimeOfDay(row) / HOUR == HourOf(row)
    ensures row.hour == 0 ==> HourOf(row) == if row.kind == Daily then 8 else 9
  {
    Split(HourOf(row), row.minute * MINUTE, HOUR);
  }

  /** An error is raised exactly when this month's instant is past and next month does not have the day. */
  lemma MonthlyRaisesExactly(row: Row, now: int)
    requires MonthlyRow(row) && now >= DAY
    ensures var m := DateOf(now / DAY).month;
            NextLocal(row, now) == Invalid <==> InMonth(row, m) <= now && MonthsDay(row, m) > Length(NextMonth(m))
  {
    hide NextLocal, InMonth, Length;
    MonthlyBranch(row, now);
  }

  /** Day 31 on January 31, at a time that is past: February has no such day, and an error is raised. */
  lemma {:induction false} Day31CanFail(row: Row, now: int)
    requires row == Row(Monthly, 0, 0, 9, "", 31) && now >= DAY
    requires DateOf(now / DAY) == Date(Month(2026, 1), 31) && now % DAY >= 9 * HOUR
    ensures MonthlyRow(row) && NextLocal(row, now) == Invalid
  {
    hide NextLocal, DateOf, Before;
    assert TimeOfDay(row) == 9 * HOUR;
    hide TimeOfDay;
    var day := now / DAY;
    assert now == day * DAY + now % DAY;
    assert InMonth(row, Month(2026, 1)) == day * DAY + TimeOfDay(row);
    hide InMonth, Number;
    MonthlyRaisesExactly(row, now);
  }

  // ---- the result on the calendar and on the clock

  /** Leap years among the first n. */
  function LeapYears(n: int): int { n / 4 - n / 100 + n / 400 }

  const DAYS_BEFORE: seq<int> := [0, 31, 59, 90, 120, 151, 181, 212, 243, 273, 304, 334]

  /** The days before a month, without counting through the months before it. */
  function DaysBefore(year: int, month: int): int
    requires 1 <= month <= 12
  {
    365 * (year - 1) + LeapYears(year - 1) + DAYS_BEFORE[month - 1]
    + if month > 2 then LeapYears(year) - LeapYears(year - 1) else 0
  }

  lemma LeapStep(year: int)
    requires year >= 1
    ensures LeapYears(year) - LeapYears(year - 1) == if Leap(year) then 1 else 0
  {
    DivStep(year, 4);
    DivStep(year, 100);
    DivStep(year, 400);
    Divides(year, 100, 4);
    Divides(year, 4, 25);
  }

  lemma Divides(t: int, size: int, n: int)
    requires size > 0 && n > 0
    ensures t % (n * size) == 0 ==> t % size == 0
  {
    ModMod(t, size, n);
  }

  lemma DivStep(n: int, k: int)
    requires n >= 1 && k in {4, 100, 400}
    ensures n / k - (n - 1) / k == if n % k == 0 then 1 else 0
  {
  }

  /** The calendar is the usual one: 365 days a year, the leap years before, and the days before the month. */
  lemma {:induction false} NumberIs(d: Date)
    requires IsDate(d)
    ensures Number(d) == DaysBefore(d.month.year, d.month.month) + d.day
    decreases Count(d.month)
  {
    hide LeapYears, Leap;
    var m := d.month;
    if m == Month(1, 1) {
      NoLeapYears();
    } else {
      var last := if m.month == 1 then Month(m.year - 1, 12) else Month(m.year, m.month - 1);
      NumberIs(Date(last, 1));
      LeapStep(last.year);
      assert Before(m) == Before(last) + Length(last);
    }
  }

  lemma NoLeapYears()
    ensures LeapYears(0) == 0
  {
  }

  const MONTH_SHIFT: seq<int> := [0, 3, 2, 5, 0, 3, 5, 1, 4, 6, 2, 4]

  /** The day of the week of a date, from Monday as 0, reckoned from the year, the month and the day. */
  function DayOfWeek(year: int, month: int, day: int): int
    requires 1 <= month <= 12
  {
    var y := if month < 3 then year - 1 else year;
    (y + LeapYears(y) + MONTH_SHIFT[month - 1] + day + 6) % 7
  }

  lemma Sevens(a: int, b: int, k: int)
    requires a == b + 7 * k
    ensures a % 7 == b % 7
  {
  }

  /** That is the day of the week the days are counted by. */
  lemma WeekdayIs(d: Date)
    requires IsDate(d)
    ensures Weekday(Number(d)) == DayOfWeek(d.month.year, d.month.month, d.day)
  {
    hide LeapYears, Number;
    NumberIs(d);
    if d.month.month < 3 { EarlyWeekday(d, Number(d)); } else { LateWeekday(d, Number(d)); }
  }

  lemma EarlyWeekday(d: Date, n: int)
    requires IsDate(d) && d.month.month < 3 && n == DaysBefore(d.month.year, d.month.month) + d.day
    ensures Weekday(n) == DayOfWeek(d.month.year, d.month.month, d.day)
  {
    hide LeapYears;
    var y, m := d.month.year, d.month.month;
    var shift := y - 1 + LeapYears(y - 1) + MONTH_SHIFT[m - 1] + d.day + 6;
    Sevens(n - 1, shift, 52 * (y - 1) + if m == 1 then -1 else 3);
  }

  lemma LateWeekday(d: Date, n: int)
    requires IsDate(d) && d.month.month >= 3 && n == DaysBefore(d.month.year, d.month.month) + d.day
    ensures Weekday(n) == DayOfWeek(d.month.year, d.month.month, d.day)
  {
    hide LeapYears;
    var y, m := d.month.year, d.month.month;
    var shift := y + LeapYears(y) + MONTH_SHIFT[m - 1] + d.day + 6;
    var k := ShiftWeeks(m);
    Sevens(n - 1, shift, 52 * y - k);
  }

  function ShiftWeeks(month: int): (k: int)
    requires 3 <= month <= 12
    ensures 7 * k == 372 + MONTH_SHIFT[month - 1] - DAYS_BEFORE[month - 1]
  {
    (372 + MONTH_SHIFT[month - 1] - DAYS_BEFORE[month - 1]) / 7
  }

  /** New Year's Day of 2025, a Wednesday, is day 739252. */
  lemma NewYear2025()
    ensures Number(Date(Month(2025, 1), 1)) == 739252 && DayOfWeek(2025, 1, 1) == 2
  {
    NumberIs(Date(Month(2025, 1), 1));
    hide Number;
  }

  /** The day of the week a row asks for; Monday when it names none. */
  function Asked(weekday: string): int {
    if weekday == "" || weekday == "mon" then 0
    else if weekday == "tue" then 1
    else if weekday == "wed" then 2
    else if weekday == "thu" then 3
    else if weekday == "fri" then 4
    else if weekday == "sat" then 5
    else if weekday == "sun" then 6
    else 7
  }

  lemma PositionIs(name: string)
    ensures var day := if name == "" then "mon" else name; Position(DAY_NAMES, day) == Asked(name)
  {
    var day := if name == "" then "mon" else name;
    DayNames();
    var k := Asked(name);
    if k < 7 { PositionAt(DAY_NAMES, day, k); } else { PositionNone(DAY_NAMES, day); }
  }

  lemma DayNames()
    ensures |DAY_NAMES| == 7 && DAY_NAMES[0] == "mon" && DAY_NAMES[1] == "tue" && DAY_NAMES[2] == "wed"
    ensures DAY_NAMES[3] == "thu" && DAY_NAMES[4] == "fri" && DAY_NAMES[5] == "sat" && DAY_NAMES[6] == "sun"
  {
  }

  lemma {:induction false} PositionAt(names: seq<string>, name: string, k: nat)
    requires k < |names| && names[k] == name && forall j | 0 <= j < k :: names[j] != name
    ensures Position(names, name) == k
  {
    if k > 0 {
      assert names[0] != name;
      PositionAt(names[1..], name, k - 1);
    }
  }

  lemma {:induction false} PositionNone(names: seq<string>, name: string)
    requires forall j | 0 <= j < |names| :: names[j] != name
    ensures Position(names, name) == |names|
  {
    if names != [] {
      assert names[0] != name;
      PositionNone(names[1..], name);
    }
  }

  /** How long a month is, by the days before it and before the next. */
  function DaysIn(m: Month): int
    requires 1 <= m.month <= 12
  {
    (if m.month == 12 then DaysBefore(m.year + 1, 1) else DaysBefore(m.year, m.month + 1)) - DaysBefore(m.year, m.month)
  }

  lemma LengthIs(m: Month)
    requires IsMonth(m)
    ensures Length(m) == DaysIn(m)
  {
    hide LeapYears, Length, DaysBefore, Before;
    var next := NextMonth(m);
    NumberIs(Date(m, 1));
    NumberIs(Date(next, 1));
    BeforeNext(m);
  }

  lemma BeforeNext(m: Month)
    requires IsMonth(m)
    ensures IsMonth(NextMonth(m)) && Before(NextMonth(m)) == Before(m) + Length(m)
  {
    hide Length;
    var n := NextMonth(m);
    assert n != Month(1, 1) && m == if n.month == 1 then Month(n.year - 1, 12) else Month(n.year, n.month - 1);
  }

  /** An instant a row stands for, as a clock and a calendar on the wall show it, in whole microseconds. */
  predicate Reads(row: Row, t: int)
    requires t >= DAY
  {
    var d := DateOf(t / 86_400_000_000);
    && t % 60_000_000 == 0 && t % 3_600_000_000 / 60_000_000 == row.minute
    && (row.kind != Hourly ==>
          t % 86_400_000_000 / 3_600_000_000 == if row.hour != 0 then row.hour else if row.kind == Daily then 8 else 9)
    && (row.kind == Weekly ==> DayOfWeek(d.month.year, d.month.month, d.day) == Asked(row.weekday))
    && (row.kind == Monthly ==>
          var day := if row.monthDay == 0 then 1 else row.monthDay;
          d.day == if day <= DaysIn(d.month) then day else DaysIn(d.month))
  }

  lemma ModMod(t: int, size: int, n: int)
    requires size > 0 && n > 0
    ensures n * size > 0 && t % (n * size) % size == t % size
  {
    var big := n * size;
    Times(0, n, size);
    var q, r := t / big, t % big;
    var a, b := r / size, r % size;
    assert t == (q * n + a) * size + b by { assert q * big == q * n * size; }
    Split(q * n + a, b, size);
  }

  lemma MinutesRead(t: int, minute: int)
    requires 0 <= minute < 60
    ensures t % HOUR == minute * MINUTE <==> t % MINUTE == 0 && t % HOUR / MINUTE == minute
  {
    ModMod(t, MINUTE, 60);
    Split(minute, 0, MINUTE);
  }

  lemma HoursRead(t: int, hour: int, minute: int)
    requires 0 <= hour < 24 && 0 <= minute < 60
    ensures t % DAY == hour * HOUR + minute * MINUTE <==> t % HOUR == minute * MINUTE && t % DAY / HOUR == hour
  {
    ModMod(t, HOUR, 24);
    Split(hour, minute * MINUTE, HOUR);
  }

  /** An instant is one of the row's exactly when clock and calendar read as the row says. */
  lemma MatchesReads(row: Row, t: int)
    requires Regular(row) && t >= DAY
    ensures Matches(row, t) <==> Reads(row, t)
  {
    hide DateOf, Weekday, DayOfWeek, Length, DaysIn, Position, Asked;
    MinutesRead(t, row.minute);
    if row.kind != Hourly { HoursRead(t, HourOf(row), row.minute); }
    var d := DateOf(t / DAY);
    if row.kind == Weekly {
      PositionIs(row.weekday);
      WeekdayIs(d);
    }
    if row.kind == Monthly { LengthIs(d.month); }
  }

  /** The same in universal time, which is five and a half hours behind. */
  predicate ReadsUtc(row: Row, t: int)
    requires t + IST >= DAY
  {
    Reads(row, t + 19_800_000_000)
  }

  /** The result reads as the row says, and no instant between now and it does. */
  lemma NextRunReads(row: Row, now: int)
    requires Steady(row) && now + IST >= DAY
    ensures var next := ComputeNextRun(row, now);
            && next.At? && next.instant > now && ReadsUtc(row, next.instant)
            && forall u | now < u < next.instant :: !ReadsUtc(row, u)
  {
    hide ComputeNextRun, Matches, Reads;
    NextRunIsLeast(row, now);
    MatchesReads(row, ComputeNextRun(row, now).instant + IST);
    forall u | now < u < ComputeNextRun(row, now).instant ensures !ReadsUtc(row, u) {
      assert !MatchesUtc(row, u);
      MatchesReads(row, u + IST);
    }
  }

  /** A row by the minute runs that many minutes later, one if it gives none, and a row of no known kind a day later. */
  lemma OtherKindsWait(row: Row, now: int)
    requires now + IST >= DAY && row.kind in {Minutely, Unknown}
    ensures var next := ComputeNextRun(row, now);
            && next.At?
            && (row.kind == Minutely ==> next.instant - now == 60_000_000 * if row.interval == 0 then 1
                else row.interval)
            && (row.kind == Unknown ==> next.instant - now == 86_400_000_000)
  {
  }
}
