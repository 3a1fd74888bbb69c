/**
 * Calendar dates and instants. A stored appointment date is the UTC midnight
 * of a calendar day and is represented by its day number (days since
 * 1970-01-01). "Now" is a number of milliseconds since the same epoch. The
 * weekday of a date depends on the server's time zone and is therefore not
 * computed here: it is given to the operations that need it.
 */
module Calendar {
  import opened Text
  import opened Wrappers

  const MsPerDay: int := 86400000

  /** `^\d{4}-\d{2}-\d{2}$`. */
  predicate IsDateShape(s: string) {
    && |s| == 10
    && IsDigit(s[0]) && IsDigit(s[1]) && IsDigit(s[2]) && IsDigit(s[3])
    && s[4] == '-' && IsDigit(s[5]) && IsDigit(s[6])
    && s[7] == '-' && IsDigit(s[8]) && IsDigit(s[9])
  }

  /** Days from 1970-01-01 to the given proleptic Gregorian date; a day past the month's end rolls over. */
  function DaysFromCivil(y: int, m: int, d: int): int
    requires 1 <= m <= 12
  {
    var y' := if m <= 2 then y - 1 else y;
    var era := y' / 400;
    var yoe := y' - era * 400;
    var doy := (153 * (if m > 2 then m - 3 else m + 9) + 2) / 5 + d - 1;
    var doe := yoe * 365 + yoe / 4 - yoe / 100 + doy;
    era * 146097 + doe - 719468
  }

  /**
   * What `new Date(s)` yields for a date-only string, as a day number: the
   * ISO parser takes month 1..12 and day 1..31 in any month (so "2024-02-30"
   * is 2024-03-01) and gives an invalid date otherwise.
   */
  function DateValue(s: string): (r: Option<int>)
    ensures r.Some? ==> IsDateShape(s)
  {
    if !IsDateShape(s) then None
    else
      var y := DecimalValue(s[..4]);
      var m := DecimalValue(s[5..7]);
      var d := DecimalValue(s[8..10]);
      if 1 <= m <= 12 && 1 <= d <= 31 then Some(DaysFromCivil(y, m, d)) else None
  }

  /** The epoch is day 0 and the day after a date is the next day number. */
  lemma DaysFromCivilFacts(y: int, m: int, d: int)
    requires 1 <= m <= 12
    ensures DaysFromCivil(1970, 1, 1) == 0
    ensures DaysFromCivil(y, m, d + 1) == DaysFromCivil(y, m, d) + 1
  {
  }

  /** The stored date (its UTC midnight) lies strictly before the instant `now`. */
  predicate IsBefore(day: int, now: int) {
    day * MsPerDay < now
  }

  /** The stored date lies strictly after the instant `now`. */
  predicate IsAfter(day: int, now: int) {
    day * MsPerDay > now
  }

  datatype Weekday = Monday | Tuesday | Wednesday | Thursday | Friday | Saturday | Sunday {

    /** The long English name, capitalised as in `DAYS`. */
    function Name(): string {
      match this
      case Monday => "Monday"
      case Tuesday => "Tuesday"
      case Wednesday => "Wednesday"
      case Thursday => "Thursday"
      case Friday => "Friday"
      case Saturday => "Saturday"
      case Sunday => "Sunday"
    }

    /** The lower-cased short name, as `toLocaleString('en-US', { weekday: 'short' }).toLowerCase()`. */
    function Short(): string {
      match this
      case Monday => "mon"
      case Tuesday => "tue"
      case Wednesday => "wed"
      case Thursday => "thu"
      case Friday => "fri"
      case Saturday => "sat"
      case Sunday => "sun"
    }

    function Index(): (i: nat)
      ensures i < 7
    {
      match this
      case Monday => 0
      case Tuesday => 1
      case Wednesday => 2
      case Thursday => 3
      case Friday => 4
      case Saturday => 5
      case Sunday => 6
    }

    /** The weekday `k` days after this one. */
    function Plus(k: nat): (w: Weekday)
      ensures w.Index() == (Index() + k) % 7
    {
      FromIndex((Index() + k) % 7)
    }
  }

  function FromIndex(i: nat): (w: Weekday)
    requires i < 7
    ensures w.Index() == i
  {
    [Monday, Tuesday, Wednesday, Thursday, Friday, Saturday, Sunday][i]
  }

  /** `DAYS`: the seven capitalised names. */
  const Days: seq<string> := ["Monday", "Tuesday", "Wednesday", "Thursday", "Friday", "Saturday", "Sunday"]

  /** The short lower-case weekday names. */
  const ShortNames: seq<string> := ["mon", "tue", "wed", "thu", "fri", "sat", "sun"]

  /** Each of the seven names belongs to exactly one weekday. */
  lemma NamesOfWeekdays(w: Weekday, v: Weekday)
    ensures w.Name() in Days && w.Short() in ShortNames
    ensures w.Name() == v.Name() ==> w == v
    ensures w.Short() == v.Short() ==> w == v
  {
  }

  /** The lower-cased long name, as compared with `working_hours` days; an invalid date gives "invalid date". */
  function DayLabel(valid: bool, w: Weekday): string {
    if valid then ToLower(w.Name()) else "invalid date"
  }
}
