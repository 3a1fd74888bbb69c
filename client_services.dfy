/**
 * The helpers of the client-side service pages (routes/client/services.js):
 * the card background colour derived from the category colour, the
 * favorites-first order of the listing, whether the signed-in user has a
 * service among their favorites, and the upcoming working dates offered for
 * booking.
 */
module ClientServices {
  import opened Wrappers
  import opened Text
  import opened Ids
  import opened Calendar
  import opened ServiceModel
  import opened CategoryModel

  // ------------------------------------------------------------ card colour

  /** No character of `s` is a decimal digit. */
  predicate NoDigits(s: string) {
    forall i :: 0 <= i < |s| ==> !IsDigit(s[i])
  }

  /** `s.match(/\d+/g)`: the maximal runs of digits, left to right (empty for `null`). */
  function DigitRuns(s: string): (r: seq<string>)
    ensures forall i :: 0 <= i < |r| ==> r[i] != [] && AllDigits(r[i])
    decreases |s|
  {
    if s == [] then []
    else if !IsDigit(s[0]) then DigitRuns(s[1..])
    else
      var n := DigitRun(s);
      [s[..n]] + DigitRuns(s[n..])
  }

  /**
   * `String(Number(d))` for a run of digits whose value is a safe integer:
   * the numeral without leading zeros. Above `MaxSafeInteger` JavaScript
   * rounds the value, and from 10^21 on it prints it in exponent form; the
   * model keeps the exact numeral there.
   */
  function NumberText(d: string): (r: string)
    requires AllDigits(d)
    ensures r != [] && AllDigits(r) && DecimalValue(r) == DecimalValue(d)
  {
    NatToDecimal(DecimalValue(d))
  }

  /**
   * `cardBgColor`: the first two numbers of the colour as hue and saturation,
   * lightness 95%, in the template `hsl(${h}, ${sat}%, 95%)`. `None` when the colour has no digit at all (`match` gives
   * `null`, the listing fails and renders its error page); with a single
   * number the saturation is `undefined`.
   */
  function CardBgColor(color: string): Option<string> {
    var runs := DigitRuns(color);
    if runs == [] then None
    else
      var sat := if |runs| >= 2 then NumberText(runs[1]) else "undefined";
      Some(HslText("", NumberText(runs[0]), " ", sat, " ", "95", ""))
  }

  lemma {:induction false} NoDigitsThen(p: string, t: string)
    requires NoDigits(p)
    ensures DigitRuns(p + t) == DigitRuns(t)
  {
    if p != [] {
      assert (p + t)[0] == p[0];
      assert (p + t)[1..] == p[1..] + t;
      NoDigitsThen(p[1..], t);
    } else {
      assert p + t == t;
    }
  }

  /** The first run of digits is unchanged by what follows a non-digit. */
  lemma DigitRunExtend(s: string, t: string)
    requires DigitRun(s) < |s|
    ensures DigitRun(s + t) == DigitRun(s)
  {
    var n := DigitRun(s);
    assert (s + t)[..n] == s[..n] && (s + t)[n] == s[n];
    DigitRunIs(s + t, n);
  }

  /** The length of the leading digits is the one `m` with digits before it and a non-digit (or the end) at it. */
  lemma {:induction false} DigitRunIs(s: string, m: nat)
    requires m <= |s| && AllDigits(s[..m]) && (m < |s| ==> !IsDigit(s[m]))
    ensures DigitRun(s) == m
  {
    if m > 0 {
      assert s[..m][0] == s[0];
      assert s[1..][..m - 1] == s[..m][1..];
      assert m - 1 < |s[1..]| ==> s[1..][m - 1] == s[m];
      DigitRunIs(s[1..], m - 1);
    }
  }

  /** Digit-free text after a string that ends in a non-digit adds no run. */
  lemma {:induction false} DigitRunsDropTail(s: string, t: string)
    requires (s == [] || !IsDigit(s[|s| - 1])) && NoDigits(t)
    ensures DigitRuns(s + t) == DigitRuns(s)
    decreases |s|
  {
    if s == [] {
      NoDigitsThen(t, []);
      assert t + [] == t && s + t == t;
    } else if !IsDigit(s[0]) {
      assert (s + t)[0] == s[0] && (s + t)[1..] == s[1..] + t;
      DigitRunsDropTail(s[1..], t);
    } else {
      var n := DigitRun(s);
      DigitRunExtend(s, t);
      assert (s + t)[..n] == s[..n] && (s + t)[n..] == s[n..] + t;
      DigitRunsDropTail(s[n..], t);
    }
  }

  lemma RunThen(d: string, t: string)
    requires d != [] && AllDigits(d) && t != [] && !IsDigit(t[0])
    ensures DigitRuns(d + t) == [d] + DigitRuns(t)
  {
    DigitRunOfDigits(d, t);
    assert (d + t)[..|d|] == d && (d + t)[|d|..] == t;
  }

  lemma SpacesHaveNoDigits(s: string)
    requires AllSpaces(s)
    ensures NoDigits(s)
  {
    forall i | 0 <= i < |s|
      ensures !IsDigit(s[i])
    {
      if IsDigit(s[i]) { DigitIsNotSpace(s[i]); }
    }
  }

  /** The numbers of a notation built from the pieces are its hue, saturation and lightness. */
  lemma RunsOfHslText(sp1: string, h: string, sp2: string, sat: string, sp3: string, l: string, sp4: string)
    requires IsHslParts(sp1, h, sp2, sat, sp3, l, sp4)
    ensures DigitRuns(HslText(sp1, h, sp2, sat, sp3, l, sp4)) == [h, sat, l]
  {
    SpacesHaveNoDigits(sp1);
    SpacesHaveNoDigits(sp2);
    SpacesHaveNoDigits(sp3);
    SpacesHaveNoDigits(sp4);
    var x4 := "%" + sp4 + ")";
    var x3 := l + x4;
    var x2 := sat + ("%," + sp3 + x3);
    var x1 := h + ("," + sp2 + x2);
    assert NoDigits(x4) && NoDigits("%," + sp3) && NoDigits("," + sp2) && NoDigits("hsl(" + sp1);
    NoDigitsThen(x4, []);
    assert x4 + [] == x4;
    RunThen(l, x4);
    NoDigitsThen("%," + sp3, x3);
    RunThen(sat, "%," + sp3 + x3);
    NoDigitsThen("," + sp2, x2);
    RunThen(h, "," + sp2 + x2);
    NoDigitsThen("hsl(" + sp1, x1);
  }

  lemma LeadSplit(v: string) returns (lead: string)
    ensures AllSpaces(lead) && v == lead + TrimStart(v)
  {
    var u := TrimStart(v);
    lead := v[..|v| - |u|];
    assert u == v[|v| - |u|..];
  }

  lemma TrailSplit(u: string) returns (trail: string)
    ensures AllSpaces(trail) && u == TrimEnd(u) + trail
  {
    var t := TrimEnd(u);
    trail := u[|t|..];
    assert t == u[..|t|];
  }

  /** A string is its leading white space, its trimmed form and its trailing white space. */
  lemma TrimSplit(v: string) returns (lead: string, trail: string)
    ensures AllSpaces(lead) && AllSpaces(trail) && v == lead + (Trim(v) + trail)
  {
    lead := LeadSplit(v);
    trail := TrailSplit(TrimStart(v));
  }

  /** The notation opens with `h` and closes with `)`. */
  lemma HslTextEnds(sp1: string, h: string, sp2: string, sat: string, sp3: string, l: string, sp4: string)
    ensures var s := HslText(sp1, h, sp2, sat, sp3, l, sp4);
      |s| > 0 && s[0] == 'h' && s[|s| - 1] == ')'
  {
  }

  /** White space around a string ending in `)` adds no numbers. */
  lemma RunsOfTrimmed(v: string)
    requires Trim(v) != [] && Trim(v)[|Trim(v)| - 1] == ')'
    ensures DigitRuns(v) == DigitRuns(Trim(v))
  {
    var lead, trail := TrimSplit(v);
    RunsInsideSpaces(lead, Trim(v), trail);
  }

  lemma RunsInsideSpaces(lead: string, t: string, trail: string)
    requires AllSpaces(lead) && AllSpaces(trail) && t != [] && t[|t| - 1] == ')'
    ensures DigitRuns(lead + (t + trail)) == DigitRuns(t)
  {
    SpacesHaveNoDigits(lead);
    SpacesHaveNoDigits(trail);
    DigitRunsDropTail(t, trail);
    NoDigitsThen(lead, t + trail);
  }

  /** The numbers of an accepted colour are the hue, saturation and lightness of its notation. */
  lemma RunsOfValidColour(color: string) returns (sp1: string, h: string, sp2: string, sat: string, sp3: string, l: string, sp4: string)
    requires IsValidColor(color)
    ensures IsHslParts(sp1, h, sp2, sat, sp3, l, sp4) && IsLightness(l)
    ensures Trim(color) == HslText(sp1, h, sp2, sat, sp3, l, sp4)
    ensures DigitRuns(color) == [h, sat, l]
  {
    sp1, h, sp2, sat, sp3, l, sp4 := MatchDecomposes(Trim(color));
    RunsOfHslText(sp1, h, sp2, sat, sp3, l, sp4);
    HslTextEnds(sp1, h, sp2, sat, sp3, l, sp4);
    RunsOfTrimmed(color);
  }

  /**
   * For every colour the category validator accepts whose numbers are safe
   * integers, the card colour is `hsl(` hue `, ` saturation `%, 95%)` with
   * hue and saturation the first two of the colour's three numbers (printed
   * without leading zeros), and it is itself a colour the validator accepts.
   */
  lemma CardColourOfValid(color: string)
    requires IsValidColor(color)
    requires forall i :: 0 <= i < |DigitRuns(color)| ==> DecimalValue(DigitRuns(color)[i]) <= MaxSafeInteger
    ensures var runs := DigitRuns(color);
      && |runs| == 3
      && CardBgColor(color) == Some(HslText("", NumberText(runs[0]), " ", NumberText(runs[1]), " ", "95", ""))
    ensures IsValidColor(CardBgColor(color).value)
  {
    var runs := DigitRuns(color);
    assert |runs| == 3 by {
      var sp1, h, sp2, sat, sp3, l, sp4 := RunsOfValidColour(color);
    }
    CardColourIsValid(NumberText(runs[0]), NumberText(runs[1]), "", " ", "95");
  }

  /** `hsl(h, sat%, 95%)` is an accepted colour for any two numerals. */
  lemma CardColourIsValid(h: string, sat: string, e: string, sp: string, light: string)
    requires h != [] && AllDigits(h) && sat != [] && AllDigits(sat)
    requires e == [] && sp == " " && light == "95"
    ensures IsValidColor(HslText(e, h, sp, sat, sp, light, e))
  {
    assert IsSpace(sp[0]) && AllSpaces(sp) && AllSpaces(e);
    assert IsLightness(light);
    HslTextIsValid(e, h, sp, sat, sp, light, e);
  }

  /** Every notation built from the pieces with an allowed lightness is an accepted colour, trimmed or not. */
  lemma HslTextIsValid(sp1: string, h: string, sp2: string, sat: string, sp3: string, l: string, sp4: string)
    requires IsHslParts(sp1, h, sp2, sat, sp3, l, sp4) && IsLightness(l)
    ensures IsValidColor(HslText(sp1, h, sp2, sat, sp3, l, sp4))
  {
    var s := HslText(sp1, h, sp2, sat, sp3, l, sp4);
    HslTextMatches(sp1, h, sp2, sat, sp3, l, sp4);
    HslTextEnds(sp1, h, sp2, sat, sp3, l, sp4);
    Bracketed(s);
  }

  lemma Bracketed(s: string)
    requires |s| > 0 && s[0] == 'h' && s[|s| - 1] == ')'
    ensures Trim(s) == s
  {
    assert !IsSpace(s[0]) && !IsSpace(s[|s| - 1]);
    TrimNoop(s);
  }

  // ------------------------------------------------------- favorites first

  /** A service of the listing; `isFavorite` is `svc.isFavorite === true`. */
  datatype Listed = Listed(id: Id, isFavorite: bool)

  function Favs(s: seq<Listed>): (r: seq<Listed>)
    ensures forall i :: 0 <= i < |r| ==> r[i].isFavorite
  {
    if s == [] then [] else if s[0].isFavorite then [s[0]] + Favs(s[1..]) else Favs(s[1..])
  }

  function Others(s: seq<Listed>): (r: seq<Listed>)
    ensures forall i :: 0 <= i < |r| ==> !r[i].isFavorite
  {
    if s == [] then [] else if !s[0].isFavorite then [s[0]] + Others(s[1..]) else Others(s[1..])
  }

  /** The stable sort by `(b.isFavorite === true) - (a.isFavorite === true)`: favorites, then the rest. */
  function FavoritesFirst(s: seq<Listed>): seq<Listed> {
    Favs(s) + Others(s)
  }

  /**
   * The listing's reordering of the fetched services, in place: favorites to
   * the top unless only favorites were asked for (`favorites=true`). The
   * engine's stable sort is stood in for by its result, `FavoritesFirst`,
   * written back into the array; the order of its comparisons and moves is
   * not modelled.
   */
  method SortListing(a: array<Listed>, favoritesParam: string)
    modifies a
    ensures a[..] == if favoritesParam == "true" then old(a[..]) else FavoritesFirst(old(a[..]))
  {
    if favoritesParam == "true" {
      return;
    }
    ghost var before := a[..];
    var sorted := Favs(a[..]) + Others(a[..]);
    FavoritesFirstPermutation(before);
    assert |sorted| == a.Length by {
      assert |multiset(sorted)| == |multiset(before)|;
    }
    var i := 0;
    while i < a.Length
      invariant 0 <= i <= a.Length
      invariant forall k :: 0 <= k < i ==> a[k] == sorted[k]
    {
      a[i] := sorted[i];
      i := i + 1;
    }
    assert a[..] == sorted;
  }

  lemma {:induction false} FavoritesFirstPermutation(s: seq<Listed>)
    ensures multiset(FavoritesFirst(s)) == multiset(s)
  {
    if s != [] {
      FavoritesFirstPermutation(s[1..]);
      assert s == [s[0]] + s[1..];
    }
  }

  /** Every favorite precedes every non-favorite. */
  lemma FavoritesBeforeOthers(s: seq<Listed>)
    ensures var r := FavoritesFirst(s);
      forall i, j :: 0 <= i < j < |r| && r[j].isFavorite ==> r[i].isFavorite
  {
  }

  lemma {:induction false} FavsOfConcat(a: seq<Listed>, b: seq<Listed>)
    ensures Favs(a + b) == Favs(a) + Favs(b)
  {
    if a != [] {
      var c := a + b;
      assert c[0] == a[0];
      assert c[1..] == a[1..] + b;
      FavsOfConcat(a[1..], b);
      if a[0].isFavorite {
        assert Favs(c) == [a[0]] + (Favs(a[1..]) + Favs(b));
        assert Favs(a) == [a[0]] + Favs(a[1..]);
      } else {
        assert Favs(c) == Favs(a[1..]) + Favs(b);
      }
    } else {
      assert a + b == b;
    }
  }

  lemma {:induction false} OthersOfConcat(a: seq<Listed>, b: seq<Listed>)
    ensures Others(a + b) == Others(a) + Others(b)
  {
    if a != [] {
      var c := a + b;
      assert c[0] == a[0];
      assert c[1..] == a[1..] + b;
      OthersOfConcat(a[1..], b);
      if !a[0].isFavorite {
        assert Others(c) == [a[0]] + (Others(a[1..]) + Others(b));
        assert Others(a) == [a[0]] + Others(a[1..]);
      } else {
        assert Others(c) == Others(a[1..]) + Others(b);
      }
    } else {
      assert a + b == b;
    }
  }

  lemma {:induction false} FilterIdempotent(s: seq<Listed>)
    ensures Favs(Favs(s)) == Favs(s) && Others(Favs(s)) == []
    ensures Others(Others(s)) == Others(s) && Favs(Others(s)) == []
  {
    if s != [] {
      FilterIdempotent(s[1..]);
    }
  }

  /** The order within the favorites and within the rest is kept, as `Array.prototype.sort` is stable. */
  lemma FavoritesFirstStable(s: seq<Listed>)
    ensures Favs(FavoritesFirst(s)) == Favs(s) && Others(FavoritesFirst(s)) == Others(s)
  {
    FavsOfConcat(Favs(s), Others(s));
    OthersOfConcat(Favs(s), Others(s));
    FilterIdempotent(s);
  }

  // --------------------------------------------------------------- favorite

  /** `favorites.some(f => f.toString() === id)`. */
  function Contains(favs: seq<Id>, id: string): (r: bool)
    ensures r <==> id in favs
  {
    if favs == [] then false else favs[0] == id || Contains(favs[1..], id)
  }

  /** `isFavorite`: `None` is a visitor who is not signed in. */
  function IsFavorite(favorites: Option<seq<Id>>, id: string): (r: bool)
    ensures r <==> favorites.Some? && id in favorites.value
  {
    if favorites.Some? then Contains(favorites.value, id) else false
  }

  // ---------------------------------------------------------- booking dates

  /** `s.slice(0, 3)`. */
  function Prefix3(s: string): (r: string)
    ensures |r| <= 3 && |r| <= |s| && r == s[..|r|]
  {
    if |s| <= 3 then s else s[..3]
  }

  /** `working_hours.map(w => w.day.toLowerCase().slice(0, 3))`. */
  function WorkingDays(hours: seq<WorkingHour>): (r: seq<string>)
    ensures |r| == |hours|
  {
    seq(|hours|, i requires 0 <= i < |hours| => Prefix3(ToLower(hours[i].day)))
  }

  /** The day `k` days after today is a working day. */
  predicate Works(wd: seq<string>, today: Weekday, k: nat) {
    today.Plus(k).Short() in wd
  }

  /** Some working-hours day is a real weekday, so that the dates loop ends. */
  predicate SomeDayWorks(wd: seq<string>) {
    exists i :: 0 <= i < |wd| && wd[i] in ShortNames
  }

  /** When some day is a real weekday, every seven consecutive days contain a working day. */
  lemma WeekCovers(wd: seq<string>, today: Weekday, a: nat) returns (j: nat)
    requires SomeDayWorks(wd)
    ensures a <= j < a + 7 && Works(wd, today, j)
  {
    var i :| 0 <= i < |wd| && wd[i] in ShortNames;
    var m :| 0 <= m < 7 && ShortNames[m] == wd[i];
    j := a + (m - today.Index() - a) % 7;
    LandsOn(today.Index(), a, m);
    assert today.Plus(j) == FromIndex(m);
    ShortOfIndex(m);
  }

  /** Stepping `(m - t - a) % 7` days past `a` from weekday `t` lands on weekday `m`. */
  lemma LandsOn(t: nat, a: nat, m: nat)
    requires t < 7 && m < 7
    ensures (t + (a + (m - t - a) % 7)) % 7 == m
  {
    var q := (m - t - a) / 7;
    assert m - t - a == 7 * q + (m - t - a) % 7;
    assert t + (a + (m - t - a) % 7) == m - 7 * q;
  }

  lemma ShortOfIndex(m: nat)
    requires m < 7
    ensures FromIndex(m).Short() == ShortNames[m]
  {
  }

  /** The last offset found, 0 before any. */
  function Last(dates: seq<nat>): nat {
    if dates == [] then 0 else dates[|dates| - 1]
  }

  /**
   * `dates` are exactly the working days among the offsets 1 to `d - 1`, in
   * increasing order.
   */
  predicate DatesUpTo(wd: seq<string>, today: Weekday, dates: seq<nat>, d: nat) {
    && (forall i :: 0 <= i < |dates| ==> 1 <= dates[i] < d && Works(wd, today, dates[i]))
    && (forall i, j :: 0 <= i < j < |dates| ==> dates[i] < dates[j])
    && (forall k :: 1 <= k < d && Works(wd, today, k) ==> k in dates)
  }

  /** One more day examined, a working day: it is added. */
  lemma DatesPush(wd: seq<string>, today: Weekday, dates: seq<nat>, d: nat)
    requires d >= 1 && DatesUpTo(wd, today, dates, d) && Works(wd, today, d)
    ensures DatesUpTo(wd, today, dates + [d], d + 1)
  {
    var next := dates + [d];
    forall i | 0 <= i < |next|
      ensures 1 <= next[i] < d + 1 && Works(wd, today, next[i])
    {
      if i < |dates| {
        assert next[i] == dates[i];
      } else {
        assert next[i] == d;
      }
    }
    forall i, j | 0 <= i < j < |next|
      ensures next[i] < next[j]
    {
      assert next[i] == dates[i];
    }
    forall k | 1 <= k < d + 1 && Works(wd, today, k)
      ensures k in next
    {
      if k < d {
        assert k in dates;
      }
    }
  }

  /** One more day examined, not a working day: nothing is added. */
  lemma DatesSkip(wd: seq<string>, today: Weekday, dates: seq<nat>, d: nat)
    requires DatesUpTo(wd, today, dates, d) && !Works(wd, today, d)
    ensures DatesUpTo(wd, today, dates, d + 1)
  {
  }

  /** Ascending dates all lie at or before the last one. */
  lemma AtMostLast(wd: seq<string>, today: Weekday, dates: seq<nat>, d: nat)
    requires DatesUpTo(wd, today, dates, d)
    ensures forall i :: 0 <= i < |dates| ==> dates[i] <= Last(dates)
    ensures dates != [] ==> DatesUpTo(wd, today, dates, Last(dates) + 1)
  {
  }

  /**
   * Seven days in a row cannot all be skipped: a day `d` that is not a
   * working day lies less than six days after the last date found so far.
   */
  lemma NoWeekWithoutWork(wd: seq<string>, today: Weekday, dates: seq<nat>, d: nat)
    requires SomeDayWorks(wd) && !Works(wd, today, d) && Last(dates) < d
    requires DatesUpTo(wd, today, dates, d)
    ensures d + 1 <= Last(dates) + 7
  {
    AtMostLast(wd, today, dates, d);
    var j := WeekCovers(wd, today, Last(dates) + 1);
  }

  /** The state of the dates loop before it examines day `d`. */
  predicate Scanning(wd: seq<string>, today: Weekday, dates: seq<nat>, d: nat) {
    |dates| <= |wd| && DatesUpTo(wd, today, dates, d) && Last(dates) < d <= Last(dates) + 7
  }

  /** How far the dates loop is from its end: dates still to find, then days until a week without one. */
  function ScanLeft(wd: seq<string>, dates: seq<nat>, d: nat): int {
    8 * (|wd| - |dates|) + (Last(dates) + 7 - d)
  }

  /** A turn on a working day keeps the loop's state and brings it closer to its end. */
  lemma ScanPush(wd: seq<string>, today: Weekday, dates: seq<nat>, d: nat)
    requires |dates| < |wd| && Scanning(wd, today, dates, d) && Works(wd, today, d)
    ensures Scanning(wd, today, dates + [d], d + 1)
    ensures 0 <= ScanLeft(wd, dates + [d], d + 1) < ScanLeft(wd, dates, d)
  {
    DatesPush(wd, today, dates, d);
  }

  /** A turn on any other day does too, provided some day is a real weekday. */
  lemma ScanSkip(wd: seq<string>, today: Weekday, dates: seq<nat>, d: nat)
    requires SomeDayWorks(wd) && |dates| < |wd| && Scanning(wd, today, dates, d) && !Works(wd, today, d)
    ensures Scanning(wd, today, dates, d + 1)
    ensures 0 <= ScanLeft(wd, dates, d + 1) < ScanLeft(wd, dates, d)
  {
    DatesSkip(wd, today, dates, d);
    NoWeekWithoutWork(wd, today, dates, d);
  }

  /**
   * The next-week dates loop, with dates as day offsets from today: `None` is
   * a loop that never ends (a non-empty schedule none of whose days is a
   * weekday). Otherwise there is one date per working-hours entry, and they
   * are exactly the working days from tomorrow up to the last of them, in
   * increasing order.
   */
  method UpcomingDates(hours: seq<WorkingHour>, today: Weekday) returns (r: Option<seq<nat>>)
    ensures r.None? <==> |hours| > 0 && !SomeDayWorks(WorkingDays(hours))
    ensures r.Some? ==> |r.value| == |hours| && DatesUpTo(WorkingDays(hours), today, r.value, Last(r.value) + 1)
  {
    var workingDays := WorkingDays(hours);
    if |workingDays| > 0 && !SomeDayWorks(workingDays) {
      return None;
    }
    var dates := ScanDates(workingDays, today);
    r := Some(dates);
  }

  /** The loop itself, over the short day names of the schedule: one date per name. */
  method ScanDates(wd: seq<string>, today: Weekday) returns (dates: seq<nat>)
    requires |wd| == 0 || SomeDayWorks(wd)
    ensures |dates| == |wd| && DatesUpTo(wd, today, dates, Last(dates) + 1)
  {
    dates := [];
    var d: nat := 1;
    while |dates| < |wd|
      invariant Scanning(wd, today, dates, d)
      decreases ScanLeft(wd, dates, d)
    {
      if Works(wd, today, d) {
        ScanPush(wd, today, dates, d);
        dates := dates + [d];
      } else {
        ScanSkip(wd, today, dates, d);
      }
      d := d + 1;
    }
    AtMostLast(wd, today, dates, d);
  }

  /** An empty schedule gives no dates. */
  lemma NoHoursNoDates(today: Weekday)
    ensures WorkingDays([]) == [] && !SomeDayWorks(WorkingDays([]))
  {
  }
}
