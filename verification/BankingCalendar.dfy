/** Banking days and the walk over them (domain/ledger/calendar.go). */
module BankingCalendar {
  import opened Results

  const HOUR := 3_600_000_000_000
  const DAY := 24 * HOUR

  /** Brasília has kept one offset since 2019. */
  const BRASILIA := -3 * HOUR

  /** A day is numbered from 1 January 1970, a Thursday. `holidays` is what the wired source excludes. */
  datatype Calendar = Calendar(holidays: int -> bool, offset: int) {

    /** The calendar day an instant falls on where the banks are. */
    function DayOf(instant: int): int { (instant + offset) / DAY }

    function TimeOfDay(instant: int): int { (instant + offset) % DAY }

    /** Monday to Friday, minus the holidays. */
    predicate Open(day: int) { !Weekend(day) && !holidays(day) }

    predicate IsBusinessDay(instant: int) { Open(DayOf(instant)) }

    /** How many of the `h` days after `day` the banks are open. */
    function Count(day: int, h: nat): nat {
      if h == 0 then 0 else Count(day, h - 1) + if Open(day + h) then 1 else 0
    }

    /** The `n`-th open day after `day`, `n` being positive; `day` itself for none. */
    ghost predicate Lands(day: int, n: nat, end: int) {
      && end >= day
      && Count(day, end - day) == n
      && (if n == 0 then end == day else Open(end))
    }

    /** Enough open days are left ahead. */
    ghost predicate Enough(day: int, n: nat) {
      exists h: nat :: Count(day, h) >= n
    }
  }

  /** 0 is Sunday. */
  function Weekday(day: int): int { (day + 4) % 7 }

  predicate Weekend(day: int) { Weekday(day) == 0 || Weekday(day) == 6 }

  /** Counted from a Thursday, the third and fourth days of every seven are a Saturday and a Sunday. */
  lemma {:induction false} WeekendsAre(day: int)
    ensures Weekend(day) <==> day % 7 == 2 || day % 7 == 3
    ensures Weekday(0) == 4
  {
  }

  function NoHolidays(day: int): bool { false }

  const DEFAULT := Calendar(NoHolidays, BRASILIA)

  lemma {:induction false} CountGrows(c: Calendar, day: int, h: nat, more: nat)
    requires h <= more
    ensures c.Count(day, h) <= c.Count(day, more)
  {
    if h < more {
      CountGrows(c, day, h, more - 1);
    }
  }

  /** Counting on from a later day. */
  lemma {:induction false} CountSplits(c: Calendar, day: int, h: nat, more: nat)
    ensures c.Count(day, h + more) == c.Count(day, h) + c.Count(day + h, more)
  {
    if more > 0 {
      CountSplits(c, day, h, more - 1);
    }
  }

  /** The landing day is one day, not a choice. */
  lemma {:induction false} LandsOnce(c: Calendar, day: int, n: nat, e: int, f: int)
    requires c.Lands(day, n, e) && c.Lands(day, n, f)
    ensures e == f
  {
    if e < f {
      CountGrows(c, day, e - day, f - day - 1);
    } else if f < e {
      CountGrows(c, day, f - day, e - day - 1);
    }
  }

  /** It exists exactly when enough open days are left: the walk ends exactly then. */
  lemma {:induction false} LandsExactlyWhenEnough(c: Calendar, day: int, n: nat)
    ensures (exists e :: c.Lands(day, n, e)) <==> c.Enough(day, n)
  {
    if e :| c.Lands(day, n, e) {
      assert c.Count(day, e - day) >= n;
    }
    if h: nat :| c.Count(day, h) >= n {
      var e := Landing(c, day, n, h);
    }
  }

  lemma {:induction false} Landing(c: Calendar, day: int, n: nat, h: nat) returns (e: int)
    requires c.Count(day, h) >= n
    ensures c.Lands(day, n, e)
  {
    if n == 0 {
      e := day;
    } else if c.Open(day + h) && c.Count(day, h) == n {
      e := day + h;
    } else {
      e := Landing(c, day, n, h - 1);
    }
  }

  /** An instant keeps its time of day when whole days are added. */
  lemma {:induction false} WholeDays(c: Calendar, instant: int, days: int)
    ensures c.DayOf(instant + days * DAY) == c.DayOf(instant) + days
    ensures c.TimeOfDay(instant + days * DAY) == c.TimeOfDay(instant)
  {
    var x := instant + c.offset;
    assert x + days * DAY == (x / DAY + days) * DAY + x % DAY;
    DivisionIsUnique(x + days * DAY, x / DAY + days, x % DAY);
  }

  lemma {:induction false} DivisionIsUnique(x: int, q: int, r: int)
    requires x == q * DAY + r && 0 <= r < DAY
    ensures x / DAY == q && x % DAY == r
  {
    assert (x / DAY - q) * DAY == r - x % DAY;
  }

  /**
   The walk: a day at a time, counting the open ones. It is only asked of calendars with enough
   open days left, since of any other it never returns.
   */
  method AddBusinessDays(c: Calendar, from: int, days: int, ghost horizon: nat) returns (r: int)
    requires c.Count(c.DayOf(from), horizon) >= days
    ensures days <= 0 ==> r == from
    ensures days > 0 ==> c.Lands(c.DayOf(from), days, c.DayOf(r)) && c.TimeOfDay(r) == c.TimeOfDay(from)
    ensures days > 0 ==> c.IsBusinessDay(r) && r == from + (c.DayOf(r) - c.DayOf(from)) * DAY && r >= from + DAY
  {
    if days <= 0 {
      return from;
    }
    ghost var start := c.DayOf(from);
    ghost var walked := 0;
    var counted := 0;
    r := from;
    while counted < days
      invariant 0 <= walked <= horizon && r == from + walked * DAY
      invariant counted == c.Count(start, walked) <= days
      invariant walked > 0 && counted == days ==> c.Open(start + walked)
      invariant walked == 0 ==> counted == 0
      decreases horizon - walked
    {
      if walked == horizon {
        assert false;
      }
      r := r + DAY;
      walked := walked + 1;
      WholeDays(c, from, walked);
      if c.IsBusinessDay(r) {
        counted := counted + 1;
      }
    }
    WholeDays(c, from, walked);
  }

  // --------------------------------------------------------------- theorems

  /** Walking `a` days and then `b` more is walking `a + b`. */
  lemma {:induction false} WalksAdd(c: Calendar, day: int, a: nat, b: nat, e: int, f: int)
    requires c.Lands(day, a, e) && c.Lands(e, b, f)
    ensures c.Lands(day, a + b, f)
  {
    CountSplits(c, day, e - day, f - e);
  }

  /** The days between are the days counted: none before the first, none left out. */
  lemma {:induction false} LandsStrictlyLater(c: Calendar, day: int, n: nat, e: int)
    requires c.Lands(day, n, e) && n > 0
    ensures e >= day + n
  {
    CountIsWithin(c, day, e - day);
  }

  lemma {:induction false} CountIsWithin(c: Calendar, day: int, h: nat)
    ensures c.Count(day, h) <= h
  {
    if h > 0 {
      CountIsWithin(c, day, h - 1);
    }
  }

  lemma {:induction false} LaterInTheWeek(day: int, k: nat)
    requires k <= 7
    ensures var w := Weekday(day); Weekday(day + k) == if w + k < 7 then w + k else w + k - 7
  {
    var q := (day + 4) / 7;
    assert day + k + 4 == 7 * q + (Weekday(day) + k);
  }

  lemma {:induction false} CountNext(day: int, offset: int, h: nat)
    requires h < 7
    ensures var (c, w) := (Calendar(NoHolidays, offset), Weekday(day) + h + 1);
            c.Count(day, h + 1) == c.Count(day, h) + if w == 6 || w == 7 || w == 13 then 0 else 1
  {
    LaterInTheWeek(day, h + 1);
  }

  lemma {:induction false} AWeek(day: int, offset: int)
    ensures Calendar(NoHolidays, offset).Count(day, 7) == 5
  {
    CountNext(day, offset, 0);
    CountNext(day, offset, 1);
    CountNext(day, offset, 2);
    CountNext(day, offset, 3);
    CountNext(day, offset, 4);
    CountNext(day, offset, 5);
    CountNext(day, offset, 6);
  }

  lemma {:induction false} Weeks(day: int, offset: int, k: nat)
    ensures Calendar(NoHolidays, offset).Count(day, 7 * k) == 5 * k
  {
    if k > 0 {
      Weeks(day, offset, k - 1);
      CountSplits(Calendar(NoHolidays, offset), day, 7 * (k - 1), 7);
      AWeek(day + 7 * (k - 1), offset);
    }
  }

  /** With no holidays, five banking days from a weekday are seven days, however many times over. */
  lemma {:induction false} FiveAreSeven(day: int, offset: int, k: nat, e: int)
    requires !Weekend(day)
    ensures Calendar(NoHolidays, offset).Lands(day, 5 * k, e) <==> e == day + 7 * k
  {
    var c := Calendar(NoHolidays, offset);
    Weeks(day, offset, k);
    SameWeekday(day, k);
    assert c.Lands(day, 5 * k, day + 7 * k);
    if c.Lands(day, 5 * k, e) {
      LandsOnce(c, day, 5 * k, e, day + 7 * k);
    }
  }

  lemma {:induction false} SameWeekday(day: int, k: nat)
    ensures Weekday(day + 7 * k) == Weekday(day)
  {
    if k > 0 {
      SameWeekday(day, k - 1);
      assert day + 7 * k == (day + 7 * (k - 1)) + 7;
    }
  }

  /** With no holidays there are always enough days left. */
  lemma {:induction false} WeekendsNeverRunOut(day: int, offset: int, n: nat)
    ensures Calendar(NoHolidays, offset).Enough(day, n)
  {
    Weeks(day, offset, n);
    assert Calendar(NoHolidays, offset).Count(day, 7 * n) >= n;
  }
}
