/**
 * The appointment record (models/Appointment.js): who booked which service
 * for which date and time, and the booking's status.
 */
module AppointmentModel {
  import opened Wrappers
  import opened Ids

  /**
   * The four statuses of the schema's enum. `Unlisted` stands for any other
   * string: the schema's validators run on `create`, but not on the raw
   * status update, which can therefore store a string outside the enum.
   */
  datatype Status = Pending | Confirmed | Cancelled | Completed | Unlisted(text: string) {

    /** One of the four values of the enum. */
    predicate InEnum() { !Unlisted? }

    /** A status that occupies its slot. */
    predicate IsActive() { Pending? || Confirmed? }

    /** The stored string. */
    function Text(): string {
      match this
      case Pending => "pending"
      case Confirmed => "confirmed"
      case Cancelled => "cancelled"
      case Completed => "completed"
      case Unlisted(t) => t
    }
  }

  const StatusNames: seq<string> := ["pending", "confirmed", "cancelled", "completed"]

  /** The status a stored string denotes, in its canonical representation. */
  function StatusOfText(t: string): (s: Status)
    ensures s.Text() == t
    ensures s.InEnum() <==> t in StatusNames
  {
    if t == "pending" then Pending
    else if t == "confirmed" then Confirmed
    else if t == "cancelled" then Cancelled
    else if t == "completed" then Completed
    else Unlisted(t)
  }

  /** A status is canonical when it is the representation `StatusOfText` gives for its text. */
  predicate IsCanonical(s: Status) {
    s.Unlisted? ==> s.text !in StatusNames
  }

  /** Text and status are the same thing for canonical statuses. */
  lemma StatusTextRoundTrip(s: Status)
    requires IsCanonical(s)
    ensures StatusOfText(s.Text()) == s
  {
  }

  /** `StatusOfText` gives canonical statuses only. */
  lemma StatusOfTextCanonical(t: string)
    ensures IsCanonical(StatusOfText(t))
  {
  }

  /**
   * For a canonical status the string tests of the source are the
   * constructor tests of the model: `status === 'completed'` and
   * `status: {$in: ['pending', 'confirmed']}`.
   */
  lemma CanonicalStatusTests(s: Status)
    requires IsCanonical(s)
    ensures s.Text() == "completed" <==> s == Completed
    ensures s.Text() == "pending" || s.Text() == "confirmed" <==> s.IsActive()
  {
  }

  /** `status` has the default `pending`. */
  function StatusOrDefault(s: Option<Status>): (r: Status)
    ensures s.None? ==> r == Pending
    ensures s.Some? ==> r == s.value
  {
    if s.Some? then s.value else Pending
  }

  /**
   * One appointment. `date` is the day number of the stored date (its UTC
   * midnight); `time` is whatever string the booking route accepted, since
   * the schema itself gives it no format.
   */
  datatype Appointment = Appointment(id: Id, userId: Id, serviceId: Id, date: int, time: string, status: Status)

  /** What the schema demands of a stored appointment: required fields present, status in the enum. */
  predicate Conforms(a: Appointment) {
    a.userId != "" && a.serviceId != "" && a.time != "" && a.status.InEnum()
  }

  /** The schema puts no format on `time`: "99:99" or "noon" conform as well as "09:00". */
  lemma TimeIsUnconstrained(u: Id, s: Id, d: int)
    requires u != "" && s != ""
    ensures Conforms(Appointment("a", u, s, d, "noon", Pending))
    ensures Conforms(Appointment("a", u, s, d, "99:99", Confirmed))
  {
  }
}
