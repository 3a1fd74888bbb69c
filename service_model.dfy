/**
 * The service record (models/Service.js) with its embedded working-hour
 * entries.
 */
module ServiceModel {
  import opened Wrappers
  import opened Text
  import opened Ids

  /** One entry of a weekly schedule: a day name and a start and end time, all strings. */
  datatype WorkingHour = WorkingHour(day: string, startTime: string, endTime: string)

  datatype Service = Service(
    id: Id, ownerId: Id, name: string, categoryId: Id,
    price: real, duration: int, experience: real,
    workingHours: seq<WorkingHour>)

  /** A required, trimmed string field: present and non-empty once trimmed. */
  predicate IsTrimmedRequired(s: string) {
    s != [] && Trim(s) == s
  }

  /**
   * What the schema demands of an entry: the three strings are required and
   * trimmed. Nothing more: no list of day names, no time format, no order.
   */
  predicate EntryConforms(w: WorkingHour) {
    IsTrimmedRequired(w.day) && IsTrimmedRequired(w.startTime) && IsTrimmedRequired(w.endTime)
  }

  predicate Conforms(s: Service) {
    s.ownerId != "" && s.categoryId != "" && IsTrimmedRequired(s.name)
    && forall i :: 0 <= i < |s.workingHours| ==> EntryConforms(s.workingHours[i])
  }

  /** An entry as the schema stores it: its strings trimmed. */
  function StoredEntry(w: WorkingHour): (r: WorkingHour)
    ensures r.day == Trim(w.day) && r.startTime == Trim(w.startTime) && r.endTime == Trim(w.endTime)
    ensures Trim(w.day) != [] && Trim(w.startTime) != [] && Trim(w.endTime) != [] ==> EntryConforms(r)
  {
    TrimIdempotent(w.day);
    TrimIdempotent(w.startTime);
    TrimIdempotent(w.endTime);
    WorkingHour(Trim(w.day), Trim(w.startTime), Trim(w.endTime))
  }

  /** `working_hours` defaults to the empty list. */
  function HoursOrDefault(h: Option<seq<WorkingHour>>): (r: seq<WorkingHour>)
    ensures h.None? ==> r == []
    ensures h.Some? ==> |r| == |h.value| && forall i :: 0 <= i < |r| ==> r[i] == StoredEntry(h.value[i])
  {
    if h.None? then [] else seq(|h.value|, i requires 0 <= i < |h.value| => StoredEntry(h.value[i]))
  }

  /** `experience` defaults to 0. */
  function ExperienceOrDefault(e: Option<real>): (r: real)
    ensures e.None? ==> r == 0.0
    ensures e.Some? ==> r == e.value
  {
    if e.Some? then e.value else 0.0
  }
}
