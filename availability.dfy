/**
 * The availability handler (routes/api/services.js, GET /:id/availability):
 * the weekly schedule entry for the requested date's weekday, the slot
 * start times it yields for the service's duration, and for each slot
 * whether a pending or confirmed appointment already holds it.
 */
module Availability {
  import opened Wrappers
  import opened Text
  import opened Ids
  import opened Clock
  import opened Calendar
  import opened AppointmentModel
  import opened ServiceModel

  /** One entry of the response: a start time and whether it is taken. */
  datatype Slot = Slot(time: string, disabled: bool)

  /**
   * The handler's outcomes. `Throws` is a rejection the handler does not
   * catch (a query cannot cast the id or an invalid date); `Hangs` is a
   * slot loop that never ends (a non-positive duration over a non-empty window).
   */
  datatype Response = BadRequest | NotFound | Slots(slots: seq<Slot>) | Throws | Hangs

  /** `Service.findById`. */
  function FindService(services: seq<Service>, id: Id): (r: Option<Service>)
    ensures r.Some? ==> r.value in services && r.value.id == id
    ensures r.None? ==> forall i :: 0 <= i < |services| ==> services[i].id != id
  {
    if services == [] then None
    else if services[0].id == id then Some(services[0])
    else FindService(services[1..], id)
  }

  /** `working_hours.find(w => w.day.toLowerCase() === name)`, as an index: the first match wins. */
  function FirstEntry(hours: seq<WorkingHour>, name: string): (r: Option<nat>)
    ensures r.Some? ==> r.value < |hours| && ToLower(hours[r.value].day) == name
    ensures r.Some? ==> forall j :: 0 <= j < r.value ==> ToLower(hours[j].day) != name
    ensures r.None? ==> forall j :: 0 <= j < |hours| ==> ToLower(hours[j].day) != name
  {
    if hours == [] then None
    else if ToLower(hours[0].day) == name then Some(0)
    else
      var rest := FirstEntry(hours[1..], name);
      if rest.Some? then Some(rest.value + 1) else None
  }

  /**
   * The minute of the day that `new Date(date + "T" + s + ":00")` denotes, if
   * any: an "HH:MM" of `TIME_REGEX`, or "24:00", the end of the day.
   */
  function ClockMinutes(s: string): (r: Option<nat>)
    ensures r.Some? ==> r.value <= MinutesPerDay
  {
    if IsTime24(s) then Some(MinutesOf(s)) else if s == "24:00" then Some(MinutesPerDay) else None
  }

  /** The candidate slot starts: from `start`, every `duration` minutes, while before `end`. */
  function SlotStarts(start: int, end: int, duration: int): (r: seq<int>)
  {
    if start < end && duration > 0 then
      seq((end - start + duration - 1) / duration, i => start + i * duration)
    else []
  }

  /** `x / d == k` when `x` lies in the k-th block of `d` numbers. */
  lemma DivBlock(x: int, d: int, k: int)
    requires d > 0 && k * d <= x < (k + 1) * d
    ensures x / d == k
  {
    var q, r := x / d, x % d;
    assert x == q * d + r && 0 <= r < d;
    if q < k {
      MulMonotone(q + 1, k, d);
    }
  }

  lemma MulMonotone(a: int, b: int, d: int)
    requires a <= b && d >= 0
    ensures a * d <= b * d
  {
  }

  /** The number of slots n of a window of w minutes satisfies (n - 1) * d < w <= n * d. */
  lemma CeilFacts(w: int, d: int)
    requires w > 0 && d > 0
    ensures var n := (w + d - 1) / d; n >= 1 && (n - 1) * d < w <= n * d
  {
    var q, rem := (w - 1) / d, (w - 1) % d;
    assert q * d + rem == w - 1 && 0 <= rem < d;
    assert q >= 0;
    assert (q + 1) * d == q * d + d;
    assert (q + 2) * d == q * d + d + d;
    DivBlock(w + d - 1, d, q + 1);
  }

  /** The k-th step from the start is still before the end exactly when k is below the slot count. */
  lemma StepBeforeEnd(start: int, end: int, duration: int, k: nat)
    requires start < end && duration > 0
    ensures start + k * duration < end <==> k < |SlotStarts(start, end, duration)|
  {
    var n := |SlotStarts(start, end, duration)|;
    CeilFacts(end - start, duration);
    if k < n {
      MulMonotone(k, n - 1, duration);
    } else {
      MulMonotone(n, k, duration);
    }
  }

  /**
   * For a non-empty window and a positive duration: the first slot is the
   * start, each next one is `duration` later, all are before the end, a
   * further slot would not be, and there are ceil((end - start) / duration).
   */
  lemma SlotStartsShape(start: int, end: int, duration: int)
    requires start < end && duration > 0
    ensures var r := SlotStarts(start, end, duration);
      && |r| > 0 && r[0] == start
      && (forall i :: 0 < i < |r| ==> r[i] == r[i - 1] + duration)
      && (forall i :: 0 <= i < |r| ==> r[i] < end)
      && r[|r| - 1] + duration >= end
      && |r| * duration >= end - start > (|r| - 1) * duration
  {
    var r := SlotStarts(start, end, duration);
    CeilFacts(end - start, duration);
    forall i | 0 < i < |r|
      ensures r[i] == r[i - 1] + duration
    {
      assert i * duration == (i - 1) * duration + duration;
    }
    forall i | 0 <= i < |r|
      ensures r[i] < end
    {
      StepBeforeEnd(start, end, duration, i);
    }
    assert r[|r| - 1] + duration == start + |r| * duration by {
      assert |r| * duration == (|r| - 1) * duration + duration;
    }
  }

  /**
   * `starts` is what stepping from `start` by `duration` while before `end`
   * visits: the start first when the window is not empty, each next one
   * `duration` later, all before the end, and a further step would not be.
   */
  predicate Steps(starts: seq<int>, start: int, end: int, duration: int) {
    && (start < end <==> |starts| > 0)
    && (|starts| > 0 ==> starts[0] == start)
    && forall k :: 0 <= k < |starts| ==>
      && starts[k] < end
      && (k + 1 < |starts| <==> starts[k] + duration < end)
      && (k + 1 < |starts| ==> starts[k + 1] == starts[k] + duration)
  }

  lemma SlotStartsSteps(start: int, end: int, duration: int)
    requires duration > 0
    ensures Steps(SlotStarts(start, end, duration), start, end, duration)
  {
    if start < end {
      var r := SlotStarts(start, end, duration);
      SlotStartsShape(start, end, duration);
      forall k | 0 <= k < |r|
        ensures r[k] < end && (k + 1 < |r| <==> r[k] + duration < end)
        ensures k + 1 < |r| ==> r[k + 1] == r[k] + duration
      {
        if k + 1 < |r| {
          assert r[k + 1] == r[k] + duration;
        }
      }
    }
  }

  /** A duration at least the window's length gives the start alone; an empty window gives nothing. */
  lemma DegenerateWindows(start: int, end: int, duration: int)
    ensures start >= end ==> SlotStarts(start, end, duration) == []
    ensures start < end && duration >= end - start ==> SlotStarts(start, end, duration) == [start]
  {
    if start < end && duration >= end - start {
      SlotStartsShape(start, end, duration);
    }
  }

  /** The slot loop: push `t` and step `duration` minutes, while `t` is before `end`. */
  method GenerateSlots(start: nat, end: nat, duration: int) returns (slots: seq<string>)
    requires end <= MinutesPerDay && duration > 0
    ensures |slots| == |SlotStarts(start, end, duration)|
    ensures forall i :: 0 <= i < |slots| ==> SlotStarts(start, end, duration)[i] < MinutesPerDay
    ensures forall i :: 0 <= i < |slots| ==> slots[i] == FormatTime(SlotStarts(start, end, duration)[i])
  {
    SlotStartsSteps(start, end, duration);
    slots := FormatSteps(start, end, duration, SlotStarts(start, end, duration));
  }

  /** The loop itself, over any sequence of the times it steps through. */
  method FormatSteps(start: nat, end: nat, duration: int, ghost starts: seq<int>) returns (slots: seq<string>)
    requires end <= MinutesPerDay && duration > 0 && Steps(starts, start, end, duration)
    ensures |slots| == |starts|
    ensures forall i :: 0 <= i < |slots| ==> 0 <= starts[i] < MinutesPerDay && slots[i] == FormatTime(starts[i])
  {
    slots := [];
    var t: int := start;
    while t < end
      invariant start <= t
      invariant |slots| <= |starts|
      invariant |slots| < |starts| <==> t < end
      invariant |slots| < |starts| ==> t == starts[|slots|]
      invariant forall i :: 0 <= i < |slots| ==> 0 <= starts[i] < MinutesPerDay && slots[i] == FormatTime(starts[i])
      decreases |starts| - |slots|
    {
      slots := slots + [FormatTime(t)];
      t := t + duration;
    }
  }

  /** The times held by a pending or confirmed appointment for this service on this date. */
  function BookedTimes(appointments: seq<Appointment>, id: Id, day: int): set<string> {
    set a | a in appointments && a.serviceId == id && a.date == day && a.status.IsActive() :: a.time
  }

  /** The working window of an entry, when both its times denote instants. */
  function Window(wh: WorkingHour): Option<(nat, nat)> {
    var s, e := ClockMinutes(wh.startTime), ClockMinutes(wh.endTime);
    if s.Some? && e.Some? then Some((s.value, e.value)) else None
  }

  /** The schedule entry the handler uses for a date: the first whose day matches the date's name. */
  function ScheduleFor(svc: Service, date: string, weekday: Weekday): Option<nat> {
    FirstEntry(svc.workingHours, DayLabel(DateValue(date).Some?, weekday))
  }

  /** The slot starts of schedule entry `k`: none when its window does not denote two instants. */
  function EntryStarts(svc: Service, k: nat): seq<int>
    requires k < |svc.workingHours|
  {
    var w := Window(svc.workingHours[k]);
    if w.Some? then SlotStarts(w.value.0, w.value.1, svc.duration) else []
  }

  /** The slot loop of entry `k` never ends: a non-empty window and a non-positive duration. */
  predicate EntryHangs(svc: Service, k: nat)
    requires k < |svc.workingHours|
  {
    var w := Window(svc.workingHours[k]);
    w.Some? && w.value.0 < w.value.1 && svc.duration <= 0
  }

  /** `slots` lists `starts` as "HH:MM" in order, taken exactly when an active appointment holds the time. */
  predicate ListsStarts(slots: seq<Slot>, starts: seq<int>, booked: set<string>) {
    && |slots| == |starts|
    && forall i :: 0 <= i < |slots| ==>
      && 0 <= starts[i] < MinutesPerDay
      && slots[i].time == FormatTime(starts[i])
      && (slots[i].disabled <==> slots[i].time in booked)
  }

  /** Marks each generated time as taken when it is in `booked`. */
  method MarkBooked(times: seq<string>, booked: set<string>) returns (slots: seq<Slot>)
    ensures |slots| == |times|
    ensures forall i :: 0 <= i < |slots| ==> slots[i].time == times[i] && (slots[i].disabled <==> times[i] in booked)
  {
    slots := seq(|times|, i requires 0 <= i < |times| => Slot(times[i], times[i] in booked));
  }

  /**
   * GET /api/services/:id/availability?date=... . `weekday` is the weekday
   * of the date in the server's time zone. Both queries cast the id; one
   * that passes `isValid` but does not cast makes `findById` reject, which
   * the handler does not catch.
   */
  method GetAvailability(services: seq<Service>, appointments: seq<Appointment>, id: string, date: string, weekday: Weekday)
    returns (r: Response)
    ensures r.BadRequest? <==> !IsValidObjectId(id) || !IsDateShape(date)
    ensures r.NotFound? <==> (IsValidObjectId(id) && IsDateShape(date)
      && CastId(id).Some? && FindService(services, CastId(id).value).None?)
    ensures r.Throws? <==> (
      && IsValidObjectId(id) && IsDateShape(date)
      && (|| CastId(id).None?
          || (&& FindService(services, CastId(id).value).Some?
              && ScheduleFor(FindService(services, CastId(id).value).value, date, weekday).Some?
              && DateValue(date).None?)))
    ensures r.Hangs? <==> (
      && IsValidObjectId(id) && IsDateShape(date) && CastId(id).Some?
      && var found := FindService(services, CastId(id).value);
      && found.Some? && DateValue(date).Some?
      && ScheduleFor(found.value, date, weekday).Some?
      && EntryHangs(found.value, ScheduleFor(found.value, date, weekday).value))
    ensures r.Slots? ==> CastId(id).Some? && FindService(services, CastId(id).value).Some?
    ensures r.Slots? ==>
      var svc := FindService(services, CastId(id).value).value;
      && (ScheduleFor(svc, date, weekday).None? ==> r.slots == [])
      && (ScheduleFor(svc, date, weekday).Some? ==>
            && DateValue(date).Some?
            && ListsStarts(r.slots, EntryStarts(svc, ScheduleFor(svc, date, weekday).value),
                           BookedTimes(appointments, CastId(id).value, DateValue(date).value)))
  {
    if !IsValidObjectId(id) || !IsDateShape(date) {
      return BadRequest;
    }
    var sid := CastId(id);
    if sid.None? {
      return Throws;
    }
    var found := FindService(services, sid.value);
    if found.None? {
      return NotFound;
    }
    var svc := found.value;
    var day := DateValue(date);
    var k := FirstEntry(svc.workingHours, DayLabel(day.Some?, weekday));
    assert k == ScheduleFor(svc, date, weekday);
    if k.None? {
      return Slots([]);
    }
    if day.None? {
      // an invalid date yields no slot, then the appointment query rejects
      return Throws;
    }
    var times: seq<string> := [];
    var w := Window(svc.workingHours[k.value]);
    if w.Some? && w.value.0 < w.value.1 {
      if svc.duration <= 0 {
        return Hangs;
      }
      times := GenerateSlots(w.value.0, w.value.1, svc.duration);
    } else if w.Some? {
      DegenerateWindows(w.value.0, w.value.1, svc.duration);
    }
    ghost var starts := EntryStarts(svc, k.value);
    assert |times| == |starts|;
    assert forall i :: 0 <= i < |times| ==> 0 <= starts[i] < MinutesPerDay && times[i] == FormatTime(starts[i]);
    var booked := BookedTimes(appointments, sid.value, day.value);
    var slots := MarkBooked(times, booked);
    assert ListsStarts(slots, starts, booked);
    r := Slots(slots);
  }

  /** Availability lists its slots in strictly ascending "HH:MM" order, all different. */
  lemma SlotTimesAscending(start: nat, end: nat, duration: int, i: nat, j: nat)
    requires end <= MinutesPerDay && duration > 0
    requires i < j < |SlotStarts(start, end, duration)|
    ensures SlotStarts(start, end, duration)[i] < SlotStarts(start, end, duration)[j] < MinutesPerDay
    ensures StrLess(FormatTime(SlotStarts(start, end, duration)[i]), FormatTime(SlotStarts(start, end, duration)[j]))
    ensures FormatTime(SlotStarts(start, end, duration)[i]) != FormatTime(SlotStarts(start, end, duration)[j])
  {
    var r := SlotStarts(start, end, duration);
    SlotStartsShape(start, end, duration);
    MulMonotone(i + 1, j, duration);
    assert (i + 1) * duration == i * duration + duration;
    FormatOrder(r[i], r[j]);
    StrLessIrreflexive(FormatTime(r[i]));
  }

  /** A 09:00 to 17:00 window with 60-minute slots gives eight slots, 09:00 to 16:00; 17:00 is excluded. */
  lemma NineToFive()
    ensures SlotStarts(540, 1020, 60) == [540, 600, 660, 720, 780, 840, 900, 960]
  {
    var r := SlotStarts(540, 1020, 60);
    assert |r| == 8;
  }

  /** A 09:00 to 10:00 window with 60-minute slots gives 09:00 alone. */
  lemma OneHourWindow()
    ensures SlotStarts(540, 600, 60) == [540]
  {
    DegenerateWindows(540, 600, 60);
  }
}
