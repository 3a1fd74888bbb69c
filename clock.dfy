/**
 * Times of day. A time is a number of minutes after midnight, 0 to 1439, and
 * is written "HH:MM" with both fields zero padded. Two textual checks are in
 * use: the strict `TIME_REGEX` of the service routes and the looser
 * two-digits-colon-two-digits check of the booking route.
 */
module Clock {
  import opened Text

  const MinutesPerDay: nat := 1440

  /** `TIME_REGEX`, i.e. `^([01]\d|2[0-3]):([0-5]\d)$`: hours 00 to 23, minutes 00 to 59. */
  predicate IsTime24(s: string) {
    && |s| == 5
    && ((('0' <= s[0] <= '1') && IsDigit(s[1])) || (s[0] == '2' && '0' <= s[1] <= '3'))
    && s[2] == ':'
    && '0' <= s[3] <= '5' && IsDigit(s[4])
  }

  /** `^\d{2}:\d{2}$`, the booking route's check: any two digits either side of a colon. */
  predicate IsLooseTime(s: string) {
    |s| == 5 && IsDigit(s[0]) && IsDigit(s[1]) && s[2] == ':' && IsDigit(s[3]) && IsDigit(s[4])
  }

  /** `sh * 60 + sm` for a string of the loose shape. */
  function MinutesOf(s: string): (m: nat)
    requires IsLooseTime(s)
    ensures IsTime24(s) ==> m < MinutesPerDay
  {
    (DigitValue(s[0]) * 10 + DigitValue(s[1])) * 60 + DigitValue(s[3]) * 10 + DigitValue(s[4])
  }

  function TwoDigits(n: nat): string
    requires n < 100
  {
    [DigitChar(n / 10), DigitChar(n % 10)]
  }

  /** The zero-padded "HH:MM" of a minute of the day (`toTimeString().slice(0, 5)`). */
  function FormatTime(m: nat): (s: string)
    requires m < MinutesPerDay
    ensures IsTime24(s) && MinutesOf(s) == m
  {
    TwoDigits(m / 60) + ":" + TwoDigits(m % 60)
  }

  /** Every string that `TIME_REGEX` accepts is the formatting of the minute it denotes. */
  lemma ParseFormat(s: string)
    requires IsTime24(s)
    ensures FormatTime(MinutesOf(s)) == s
  {
    var h := DigitValue(s[0]) * 10 + DigitValue(s[1]);
    var mm := DigitValue(s[3]) * 10 + DigitValue(s[4]);
    assert MinutesOf(s) / 60 == h && MinutesOf(s) % 60 == mm;
    var t := FormatTime(MinutesOf(s));
    assert t[0] == s[0] && t[1] == s[1] && t[2] == s[2] && t[3] == s[3] && t[4] == s[4];
  }

  /** Different minutes have different strings. */
  lemma FormatInjective(m1: nat, m2: nat)
    requires m1 < MinutesPerDay && m2 < MinutesPerDay
    requires FormatTime(m1) == FormatTime(m2)
    ensures m1 == m2
  {
    assert MinutesOf(FormatTime(m1)) == m1;
  }

  /** The string order of "HH:MM" agrees with the order of minutes, in both directions. */
  lemma FormatOrder(m1: nat, m2: nat)
    requires m1 < MinutesPerDay && m2 < MinutesPerDay
    ensures m1 < m2 <==> StrLess(FormatTime(m1), FormatTime(m2))
  {
    var a, b := FormatTime(m1), FormatTime(m2);
    FormatDigits(m1);
    FormatDigits(m2);
    FiveCharOrder(a, b);
    DigitCharOrder(m1 / 60 / 10, m2 / 60 / 10);
    DigitCharOrder(m1 / 60 % 10, m2 / 60 % 10);
    DigitCharOrder(m1 % 60 / 10, m2 % 60 / 10);
    DigitCharOrder(m1 % 60 % 10, m2 % 60 % 10);
    MinuteDigitsOrder(m1, m2);
  }

  /** The four digits of "HH:MM", most significant first. */
  lemma FormatDigits(m: nat)
    requires m < MinutesPerDay
    ensures var s := FormatTime(m);
      && |s| == 5 && s[2] == ':'
      && s[0] == DigitChar(m / 60 / 10) && s[1] == DigitChar(m / 60 % 10)
      && s[3] == DigitChar(m % 60 / 10) && s[4] == DigitChar(m % 60 % 10)
  {
  }

  /** A minute of the day is ordered by the tens and units of its hour, then those of its minute. */
  lemma MinuteDigitsOrder(m1: nat, m2: nat)
    ensures m1 < m2 <==>
      var h1, h2, n1, n2 := m1 / 60, m2 / 60, m1 % 60, m2 % 60;
      h1 / 10 < h2 / 10 || (h1 / 10 == h2 / 10 && (h1 % 10 < h2 % 10 || (h1 % 10 == h2 % 10 &&
        (n1 / 10 < n2 / 10 || (n1 / 10 == n2 / 10 && n1 % 10 < n2 % 10)))))
  {
    PlaceOrder(m1, m2, 60);
    PlaceOrder(m1 / 60, m2 / 60, 10);
    PlaceOrder(m1 % 60, m2 % 60, 10);
  }

  /** Two five-character strings with the same middle character compare position by position. */
  lemma FiveCharOrder(a: string, b: string)
    requires |a| == 5 && |b| == 5 && a[2] == b[2]
    ensures StrLess(a, b) <==>
      a[0] < b[0] || (a[0] == b[0] && (a[1] < b[1] || (a[1] == b[1] && (a[3] < b[3] || (a[3] == b[3] && a[4] < b[4])))))
  {
    var a1, b1 := a[1..], b[1..];
    var a2, b2 := a1[1..], b1[1..];
    var a3, b3 := a2[1..], b2[1..];
    var a4, b4 := a3[1..], b3[1..];
    assert a4[1..] == [] && b4[1..] == [];
    assert a1[0] == a[1] && b1[0] == b[1] && a2[0] == a[2] && b2[0] == b[2];
    assert a3[0] == a[3] && b3[0] == b[3] && a4[0] == a[4] && b4[0] == b[4];
    assert StrLess(a4, b4) <==> a[4] < b[4];
    assert StrLess(a3, b3) <==> a[3] < b[3] || (a[3] == b[3] && StrLess(a4, b4));
    assert StrLess(a2, b2) == StrLess(a3, b3);
    assert StrLess(a1, b1) <==> a[1] < b[1] || (a[1] == b[1] && StrLess(a2, b2));
    assert StrLess(a, b) <==> a[0] < b[0] || (a[0] == b[0] && StrLess(a1, b1));
  }

  lemma DigitCharOrder(x: nat, y: nat)
    requires x < 10 && y < 10
    ensures (DigitChar(x) < DigitChar(y) <==> x < y) && (DigitChar(x) == DigitChar(y) <==> x == y)
  {
  }

  /** Numbers compare by their quotient by `d`, then by their remainder. */
  lemma PlaceOrder(x: nat, y: nat, d: nat)
    requires d == 10 || d == 60
    ensures x < y <==> x / d < y / d || (x / d == y / d && x % d < y % d)
  {
    assert x == d * (x / d) + x % d && y == d * (y / d) + y % d;
    if x / d < y / d {
      assert d * (x / d) + d <= d * (y / d);
    }
  }

  /** The booking route's check accepts times that `TIME_REGEX` rejects, such as "99:99". */
  lemma LooseTimeIsLooser()
    ensures IsLooseTime("99:99") && !IsTime24("99:99")
    ensures forall s :: IsTime24(s) ==> IsLooseTime(s)
  {
  }
}
