/**
 * Calendar days as the JavaScript `Date` object handles them, without time of day or time
 * zone.  Months are numbered 0..11, as `getMonth()` returns them.  `MakeDate(y, m, d)` is
 * what the setters `setDate`, `setMonth` and `setFullYear` compute, and what
 * `new Date(y, m, d)` computes for years from 100 on within the range a `Date` can hold
 * (the constructor reads years 0..99 as 1900..1999, and a `Date` ends 275,760 years from
 * 1970): a month outside 0..11 moves the year, and a day outside the month rolls into the
 * neighbouring months.
 */
module Calendar {

  datatype Date = Date(year: int, month: int, day: int)

  predicate IsLeapYear(y: int) {
    y % 4 == 0 && (y % 100 != 0 || y % 400 == 0)
  }

  function DaysInMonth(y: int, m: int): (n: int)
    requires 0 <= m < 12
    ensures 28 <= n <= 31
    ensures n == 29 <==> m == 1 && IsLeapYear(y)
  {
    if m == 1 then (if IsLeapYear(y) then 29 else 28)
    else if m == 3 || m == 5 || m == 8 || m == 10 then 30
    else 31
  }

  predicate IsValid(d: Date) {
    0 <= d.month < 12 && 1 <= d.day <= DaysInMonth(d.year, d.month)
  }

  /** What a JavaScript `Date` can hold: always a real calendar day. */
  type ValidDate = d: Date | IsValid(d) witness Date(1970, 0, 1)

  function NextMonth(y: int, m: int): (r: (int, int))
    requires 0 <= m < 12
    ensures 0 <= r.1 < 12
    ensures r.0 * 12 + r.1 == y * 12 + m + 1
  {
    if m == 11 then (y + 1, 0) else (y, m + 1)
  }

  function PrevMonth(y: int, m: int): (r: (int, int))
    requires 0 <= m < 12
    ensures 0 <= r.1 < 12
    ensures r.0 * 12 + r.1 == y * 12 + m - 1
  {
    if m == 0 then (y - 1, 11) else (y, m - 1)
  }

  /** The calendar day after `d`: the reference meaning of "one day later". */
  function Tomorrow(d: ValidDate): (r: ValidDate)
    ensures r.year * 12 + r.month == d.year * 12 + d.month
         || (r.year * 12 + r.month == d.year * 12 + d.month + 1 && r.day == 1)
  {
    if d.day < DaysInMonth(d.year, d.month) then Date(d.year, d.month, d.day + 1)
    else
      var (ny, nm) := NextMonth(d.year, d.month);
      Date(ny, nm, 1)
  }

  /** `n` calendar days after `d`, one day at a time. */
  function AddDays(d: ValidDate, n: nat): ValidDate {
    if n == 0 then d else Tomorrow(AddDays(d, n - 1))
  }

  /** The day numbered `d` counted from the 1st of month `m` of year `y`, where `d` may lie
      before or after that month. */
  function Normalize(y: int, m: int, d: int): ValidDate
    requires 0 <= m < 12
    decreases if d < 1 then 1 - d else 0, if d < 1 then 0 else d
  {
    if d < 1 then
      var (py, pm) := PrevMonth(y, m);
      Normalize(py, pm, d + DaysInMonth(py, pm))
    else if d > DaysInMonth(y, m) then
      var (ny, nm) := NextMonth(y, m);
      Normalize(ny, nm, d - DaysInMonth(y, m))
    else
      Date(y, m, d)
  }

  /** `new Date(y, m, d)` for a year from 100 on within the `Date` range: the month index is
      first folded into the year, then the day overflows or underflows into the neighbouring
      months. */
  function MakeDate(y: int, m: int, d: int): (r: ValidDate)
    ensures 1 <= d <= DaysInMonth(y + m / 12, m % 12) ==> r == Date(y + m / 12, m % 12, d)
  {
    Normalize(y + m / 12, m % 12, d)
  }

  /** Day `day` (1..31) of month `m`; when the month is shorter, the excess days are counted
      into the following month. */
  function RollOver(y: int, m: int, day: int): (r: ValidDate)
    requires 0 <= m < 12 && 1 <= day <= 31
    ensures day <= DaysInMonth(y, m) ==> r == Date(y, m, day)
    ensures day > DaysInMonth(y, m) ==>
              (r.year, r.month) == NextMonth(y, m) && r.day == day - DaysInMonth(y, m)
  {
    if day <= DaysInMonth(y, m) then Date(y, m, day)
    else
      var (ny, nm) := NextMonth(y, m);
      Date(ny, nm, day - DaysInMonth(y, m))
  }

  /** Chronological order on calendar days. */
  predicate OnOrBefore(a: Date, b: Date) {
    a.year < b.year
    || (a.year == b.year && a.month < b.month)
    || (a.year == b.year && a.month == b.month && a.day <= b.day)
  }

  lemma OnOrBeforeIsTotalOrder(a: Date, b: Date, c: Date)
    ensures OnOrBefore(a, a)
    ensures OnOrBefore(a, b) || OnOrBefore(b, a)
    ensures OnOrBefore(a, b) && OnOrBefore(b, a) ==> a == b
    ensures OnOrBefore(a, b) && OnOrBefore(b, c) ==> OnOrBefore(a, c)
  {
  }

  /** A date that is already valid is left as it is. */
  lemma NormalizeValid(d: ValidDate)
    ensures Normalize(d.year, d.month, d.day) == d
    ensures MakeDate(d.year, d.month, d.day) == d
  {
  }

  /** Counting one day further in `Normalize` is exactly one `Tomorrow` step. */
  lemma {:induction false} NormalizeSucc(y: int, m: int, d: int)
    requires 0 <= m < 12
    ensures Normalize(y, m, d + 1) == Tomorrow(Normalize(y, m, d))
    decreases if d < 1 then 1 - d else 0, if d < 1 then 0 else d
  {
    if d < 1 {
      var (py, pm) := PrevMonth(y, m);
      if d + 1 < 1 {
        NormalizeSucc(py, pm, d + DaysInMonth(py, pm));
      } else {
        assert Normalize(py, pm, DaysInMonth(py, pm)) == Date(py, pm, DaysInMonth(py, pm));
        assert NextMonth(py, pm) == (y, m);
      }
    } else if d > DaysInMonth(y, m) {
      var (ny, nm) := NextMonth(y, m);
      NormalizeSucc(ny, nm, d - DaysInMonth(y, m));
    } else if d == DaysInMonth(y, m) {
      var (ny, nm) := NextMonth(y, m);
      assert Normalize(ny, nm, 1) == Date(ny, nm, 1);
    }
  }

  /** `setDate(getDate() + n)` lands `n` calendar days later. */
  lemma {:induction false} MakeDateAddsDays(d: ValidDate, n: nat)
    ensures MakeDate(d.year, d.month, d.day + n) == AddDays(d, n)
  {
    if n == 0 {
      NormalizeValid(d);
    } else {
      MakeDateAddsDays(d, n - 1);
      NormalizeSucc(d.year, d.month, d.day + n - 1);
    }
  }

  /** Any positive number of days later is strictly later. */
  lemma {:induction false} AddDaysIsLater(d: ValidDate, n: nat)
    requires n > 0
    ensures OnOrBefore(d, AddDays(d, n)) && AddDays(d, n) != d
  {
    if n > 1 {
      AddDaysIsLater(d, n - 1);
      OnOrBeforeIsTotalOrder(d, AddDays(d, n - 1), AddDays(d, n));
    }
  }

  /** Within one month index, `new Date(y, m, day)` with a day up to 31 rolls at most into
      the following month. */
  lemma MakeDateRollsOver(y: int, m: int, day: int)
    requires 0 <= m < 12 && 1 <= day <= 31
    ensures MakeDate(y, m, day) == RollOver(y, m, day)
  {
    if day > DaysInMonth(y, m) {
      var (ny, nm) := NextMonth(y, m);
      assert Normalize(ny, nm, day - DaysInMonth(y, m)) == Date(ny, nm, day - DaysInMonth(y, m));
    }
  }

  /** Month index `m + 1` is the next month, carrying into the year after December. */
  lemma MakeDateNextMonth(y: int, m: int, day: int)
    requires 0 <= m < 12 && 1 <= day <= 31
    ensures MakeDate(y, m + 1, day) == RollOver(NextMonth(y, m).0, NextMonth(y, m).1, day)
  {
    var (ny, nm) := NextMonth(y, m);
    assert y + (m + 1) / 12 == ny && (m + 1) % 12 == nm;
    MakeDateRollsOver(ny, nm, day);
  }

  /** Day 0 of the next month is the last day of this month. */
  lemma MakeDateDayZero(y: int, m: int)
    requires 0 <= m < 12
    ensures MakeDate(y, m + 1, 0) == Date(y, m, DaysInMonth(y, m))
  {
    var (ny, nm) := NextMonth(y, m);
    assert y + (m + 1) / 12 == ny && (m + 1) % 12 == nm;
    assert PrevMonth(ny, nm) == (y, m);
  }

  /** A JavaScript `Date` object: a calendar day whose setters change it in place. */
  class JsDate {
    var year: int
    var month: int
    var day: int

    ghost predicate Valid()
      reads this
    {
      IsValid(Date(year, month, day))
    }

    function Value(): ValidDate
      reads this
      requires Valid()
    {
      Date(year, month, day)
    }

    /** `new Date(d)`: a fresh object holding a copy of `d`. */
    constructor (d: ValidDate)
      ensures Valid() && Value() == d
    {
      year, month, day := d.year, d.month, d.day;
    }

    /** `setDate(d)`: day `d` counted from the 1st of the current month. */
    method SetDate(d: int)
      requires Valid()
      modifies this
      ensures Valid() && Value() == MakeDate(old(year), old(month), d)
    {
      var r := MakeDate(year, month, d);
      year, month, day := r.year, r.month, r.day;
    }

    /** `setMonth(m)`: month index `m` of the current year, keeping the day number. */
    method SetMonth(m: int)
      requires Valid()
      modifies this
      ensures Valid() && Value() == MakeDate(old(year), m, old(day))
    {
      var r := MakeDate(year, m, day);
      year, month, day := r.year, r.month, r.day;
    }

    /** `setFullYear(y)`: the same month and day number in year `y`. */
    method SetFullYear(y: int)
      requires Valid()
      modifies this
      ensures Valid() && Value() == MakeDate(y, old(month), old(day))
    {
      var r := MakeDate(y, month, day);
      year, month, day := r.year, r.month, r.day;
    }
  }
}
