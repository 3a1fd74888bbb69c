/**
 * The appointment routes (routes/api/appointments.js): booking a slot,
 * changing an appointment's status, reviewing a completed appointment (an
 * upsert into the ratings table) and listing appointments.
 *
 * The route handlers are methods on the store; what each does to the store
 * is specified by a function of the old contents, and the properties of the
 * ledger are lemmas about those functions.
 */
module Appointments {
  import opened Wrappers
  import opened Text
  import opened Ids
  import opened Clock
  import opened Calendar
  import opened AppointmentModel
  import opened RatingModel
  import opened Store
  import Availability

  // ---------------------------------------------------------------- booking

  /** 400, 500, 409 and 201 of `POST /api/appointments`. */
  datatype BookStatus = InvalidInput | ServerError | Conflict | Created

  datatype Booking = Booking(status: BookStatus, appointments: seq<Appointment>)

  /** The checks the route makes before it queries the store. */
  predicate BookingInputValid(serviceId: string, date: string, time: string) {
    IsValidObjectId(serviceId) && IsDateShape(date) && IsLooseTime(time)
  }

  /** The slot an appointment occupies: service, day and time string. */
  function SlotOf(a: Appointment): (Id, int, string) {
    (a.serviceId, a.date, a.time)
  }

  /** Some pending or confirmed appointment holds the slot: the `findOne` of the route finds it. */
  predicate SlotHeld(appts: seq<Appointment>, slot: (Id, int, string)) {
    exists i :: 0 <= i < |appts| && appts[i].status.IsActive() && SlotOf(appts[i]) == slot
  }

  /** The ledger invariant: at most one pending or confirmed appointment per slot. */
  predicate ActiveUnique(appts: seq<Appointment>) {
    forall i, j :: 0 <= i < j < |appts| && appts[i].status.IsActive() && appts[j].status.IsActive() ==>
      SlotOf(appts[i]) != SlotOf(appts[j])
  }

  /**
   * What a booking does to the appointment collection. The query casts the
   * service id to an ObjectId and the date string to a date; an id that does
   * not cast or an impossible calendar date makes the query throw, which the
   * handler answers with 500. The slot is looked up, and the appointment
   * stored, under the cast id. `newId` is the identifier the database gives
   * the new document.
   */
  function BookStep(appts: seq<Appointment>, user: Id, serviceId: string, date: string, time: string, newId: Id): Booking {
    if !BookingInputValid(serviceId, date, time) then Booking(InvalidInput, appts)
    else if CastId(serviceId).None? || DateValue(date).None? then Booking(ServerError, appts)
    else
      var slot := (CastId(serviceId).value, DateValue(date).value, time);
      if SlotHeld(appts, slot) then Booking(Conflict, appts)
      else Booking(Created, appts + [Appointment(newId, user, slot.0, slot.1, time, Pending)])
  }

  /** `POST /api/appointments` by the signed-in user `user`. */
  method Book(db: Db, user: Id, serviceId: string, date: string, time: string, newId: Id) returns (status: BookStatus)
    modifies db
    ensures Booking(status, db.appointments) == BookStep(old(db.appointments), user, serviceId, date, time, newId)
    ensures db.userIds == old(db.userIds) && db.categoryIds == old(db.categoryIds)
    ensures db.services == old(db.services) && db.ratings == old(db.ratings)
  {
    if !IsValidObjectId(serviceId) || !IsDateShape(date) || !IsLooseTime(time) {
      return InvalidInput;
    }
    var sid, day := CastId(serviceId), DateValue(date);
    if sid.None? || day.None? {
      return ServerError;
    }
    var held := SlotHeld(db.appointments, (sid.value, day.value, time));
    if held {
      return Conflict;
    }
    db.SetAppointments(db.appointments + [Appointment(newId, user, sid.value, day.value, time, Pending)]);
    status := Created;
  }

  /**
   * The outcomes of a booking: 400 exactly for input failing the three
   * checks, 500 exactly for a valid id that does not cast or a well-shaped
   * but impossible date, 409 exactly when the slot of the cast id is held,
   * and otherwise one new pending appointment of the requester for the cast
   * id at the end of the collection, nothing else changed.
   */
  lemma BookOutcomes(appts: seq<Appointment>, user: Id, serviceId: string, date: string, time: string, newId: Id)
    ensures var r, c := BookStep(appts, user, serviceId, date, time, newId), CastId(serviceId);
      && (r.status == InvalidInput <==> !BookingInputValid(serviceId, date, time))
      && (r.status == ServerError <==> BookingInputValid(serviceId, date, time) && (c.None? || DateValue(date).None?))
      && (r.status == Conflict <==> (BookingInputValid(serviceId, date, time) && c.Some? && DateValue(date).Some?
                                     && SlotHeld(appts, (c.value, DateValue(date).value, time))))
      && (r.status != Created ==> r.appointments == appts)
      && (r.status == Created ==>
            && |r.appointments| == |appts| + 1
            && r.appointments[..|appts|] == appts
            && var a := r.appointments[|appts|];
            && a.userId == user && Some(a.serviceId) == c && a.time == time
            && Some(a.date) == DateValue(date) && a.status == Pending)
  {
    var r := BookStep(appts, user, serviceId, date, time, newId);
    if r.status == Created {
      assert r.appointments[..|appts|] == appts;
    }
  }

  /** A created appointment satisfies the appointment schema. */
  lemma BookedConforms(appts: seq<Appointment>, user: Id, serviceId: string, date: string, time: string, newId: Id)
    requires user != ""
    requires BookStep(appts, user, serviceId, date, time, newId).status == Created
    ensures AppointmentModel.Conforms(BookStep(appts, user, serviceId, date, time, newId).appointments[|appts|])
  {
  }

  /** One booking keeps the ledger invariant. */
  lemma BookKeepsActiveUnique(appts: seq<Appointment>, user: Id, serviceId: string, date: string, time: string, newId: Id)
    requires ActiveUnique(appts)
    ensures ActiveUnique(BookStep(appts, user, serviceId, date, time, newId).appointments)
  {
    var r := BookStep(appts, user, serviceId, date, time, newId);
    if r.status == Created {
      var s := r.appointments;
      var n := |appts|;
      forall i, j | 0 <= i < j < |s| && s[i].status.IsActive() && s[j].status.IsActive()
        ensures SlotOf(s[i]) != SlotOf(s[j])
      {
        if j == n {
          assert s[i] == appts[i];
          assert !SlotHeld(appts, SlotOf(s[j]));
        } else {
          assert s[i] == appts[i] && s[j] == appts[j];
        }
      }
    }
  }

  /** One booking request: who asks, and the body's fields. */
  datatype BookRequest = BookRequest(user: Id, serviceId: string, date: string, time: string, newId: Id)

  /** The collection after handling requests one after another. */
  function BookAll(appts: seq<Appointment>, reqs: seq<BookRequest>): seq<Appointment>
    decreases |reqs|
  {
    if reqs == [] then appts
    else
      var q := reqs[0];
      BookAll(BookStep(appts, q.user, q.serviceId, q.date, q.time, q.newId).appointments, reqs[1..])
  }

  /** A sequence of bookings alone never puts two active appointments in one slot. */
  lemma {:induction false} BookingsKeepActiveUnique(appts: seq<Appointment>, reqs: seq<BookRequest>)
    requires ActiveUnique(appts)
    ensures ActiveUnique(BookAll(appts, reqs))
    decreases |reqs|
  {
    if reqs != [] {
      var q := reqs[0];
      BookKeepsActiveUnique(appts, q.user, q.serviceId, q.date, q.time, q.newId);
      BookingsKeepActiveUnique(BookStep(appts, q.user, q.serviceId, q.date, q.time, q.newId).appointments, reqs[1..]);
    }
  }

  /**
   * The service id is matched as an ObjectId: a booking naming the service
   * in upper case meets the same slots, and gets the same answer, as one
   * naming it in the stored form.
   */
  lemma BookingIgnoresIdCase(appts: seq<Appointment>, user: Id, serviceId: string, stored: Id, date: string, time: string, newId: Id)
    requires IsStoredId(stored) && |serviceId| == 24 && ToLower(serviceId) == stored
    ensures BookStep(appts, user, serviceId, date, time, newId) == BookStep(appts, user, stored, date, time, newId)
  {
    CastOfStoredId(stored);
    CastIgnoresCase(stored, serviceId);
  }

  /** Only a pending or confirmed appointment blocks: cancelled and completed ones in the slot do not. */
  lemma InactiveDoNotBlock(appts: seq<Appointment>, user: Id, serviceId: string, date: string, time: string, newId: Id)
    requires BookingInputValid(serviceId, date, time) && CastId(serviceId).Some? && DateValue(date).Some?
    requires forall i :: 0 <= i < |appts| && SlotOf(appts[i]) == (CastId(serviceId).value, DateValue(date).value, time) ==>
      appts[i].status == Cancelled || appts[i].status == Completed
    ensures BookStep(appts, user, serviceId, date, time, newId).status == Created
  {
  }

  /**
   * Booking and availability agree: a valid, real-dated booking is refused
   * with 409 exactly when availability lists that time as taken for the
   * service and date, and after it is created availability lists it as taken.
   */
  lemma BookingMatchesAvailability(appts: seq<Appointment>, user: Id, serviceId: string, date: string, time: string, newId: Id)
    requires BookingInputValid(serviceId, date, time) && CastId(serviceId).Some? && DateValue(date).Some?
    ensures var r, sid := BookStep(appts, user, serviceId, date, time, newId), CastId(serviceId).value;
      && (r.status == Conflict <==> time in Availability.BookedTimes(appts, sid, DateValue(date).value))
      && (r.status == Created ==> time in Availability.BookedTimes(r.appointments, sid, DateValue(date).value))
  {
    var day, sid := DateValue(date).value, CastId(serviceId).value;
    var r := BookStep(appts, user, serviceId, date, time, newId);
    if time in Availability.BookedTimes(appts, sid, day) {
      var a :| a in appts && a.serviceId == sid && a.date == day && a.status.IsActive() && a.time == time;
      var i :| 0 <= i < |appts| && appts[i] == a;
      assert SlotHeld(appts, (sid, day, time));
    }
    if SlotHeld(appts, (sid, day, time)) {
      var i :| 0 <= i < |appts| && appts[i].status.IsActive() && SlotOf(appts[i]) == (sid, day, time);
      assert appts[i] in appts;
    }
    if r.status == Created {
      var a := r.appointments[|appts|];
      assert a in r.appointments;
    }
  }

  /** The booking route's time check is looser than the schedule's: "99:99" is booked on an empty ledger. */
  lemma ImpossibleTimeBooked(user: Id, serviceId: string, newId: Id)
    requires CastId(serviceId).Some?
    ensures BookStep([], user, serviceId, "2025-01-06", "99:99", newId).status == Created
  {
    var d := "2025-01-06";
    assert DecimalValue(d[5..7]) == 1 by { assert d[5..7] == "01" && "01"[..1] == "0"; }
    assert DecimalValue(d[8..10]) == 6 by { assert d[8..10] == "06" && "06"[..1] == "0"; }
  }

  // ---------------------------------------------------------- status update

  /** 400 (the id does not cast), 404 and 200 of `PUT /api/appointments/:id`. */
  datatype UpdateCode = BadId | NotFound | Updated

  datatype StatusChange = StatusChange(code: UpdateCode, appointments: seq<Appointment>)

  /** The index of the first appointment with the given id. */
  function IndexOfId(appts: seq<Appointment>, id: Id): (r: Option<nat>)
    ensures r.Some? ==> r.value < |appts| && appts[r.value].id == id
    ensures r.Some? ==> forall j :: 0 <= j < r.value ==> appts[j].id != id
    ensures r.None? ==> forall j :: 0 <= j < |appts| ==> appts[j].id != id
  {
    if appts == [] then None
    else if appts[0].id == id then Some(0)
    else
      var rest := IndexOfId(appts[1..], id);
      if rest.Some? then Some(rest.value + 1) else None
  }

  /** `k` is the position of the first appointment with the id: the one `findOne` by id returns. */
  predicate FirstWithId(appts: seq<Appointment>, k: int, id: Id) {
    0 <= k < |appts| && appts[k].id == id && forall j :: 0 <= j < k ==> appts[j].id != id
  }

  /**
   * `findOneAndUpdate({_id: id}, {status})`: the id is cast, and one that
   * does not cast is answered with 400; no validators run, so any string is
   * stored; a missing status is dropped from the update and the document is
   * returned as it was.
   */
  function StatusUpdateStep(appts: seq<Appointment>, id: string, status: Option<string>): StatusChange {
    var c := CastId(id);
    if c.None? then StatusChange(BadId, appts)
    else
      var k := IndexOfId(appts, c.value);
      if k.None? then StatusChange(NotFound, appts)
      else if status.None? then StatusChange(Updated, appts)
      else StatusChange(Updated, appts[k.value := appts[k.value].(status := StatusOfText(status.value))])
  }

  method UpdateStatus(db: Db, id: string, status: Option<string>) returns (code: UpdateCode)
    modifies db
    ensures StatusChange(code, db.appointments) == StatusUpdateStep(old(db.appointments), id, status)
    ensures db.userIds == old(db.userIds) && db.categoryIds == old(db.categoryIds)
    ensures db.services == old(db.services) && db.ratings == old(db.ratings)
  {
    var c := CastId(id);
    if c.None? {
      return BadId;
    }
    var k := IndexOfId(db.appointments, c.value);
    if k.None? {
      return NotFound;
    }
    if status.Some? {
      db.SetAppointments(db.appointments[k.value := db.appointments[k.value].(status := StatusOfText(status.value))]);
    }
    code := Updated;
  }

  /**
   * A status update answers 400 exactly when the id does not cast, 404
   * exactly when no appointment has the cast id, and otherwise writes only
   * the status field of the first appointment with it (to the given text,
   * whatever it is); every other appointment is kept.
   */
  lemma StatusUpdateOnlyStatus(appts: seq<Appointment>, id: string, text: string)
    ensures var r, c := StatusUpdateStep(appts, id, Some(text)), CastId(id);
      && (r.code == BadId <==> c.None?)
      && (r.code == NotFound <==> c.Some? && forall i :: 0 <= i < |appts| ==> appts[i].id != c.value)
      && |r.appointments| == |appts|
      && (r.code != Updated ==> r.appointments == appts)
      && (r.code == Updated ==>
            && c.Some?
            && exists k ::
                 && FirstWithId(appts, k, c.value)
                 && r.appointments[k] == appts[k].(status := StatusOfText(text))
                 && r.appointments[k].status.Text() == text
                 && forall i :: 0 <= i < |appts| && i != k ==> r.appointments[i] == appts[i])
  {
    var r := StatusUpdateStep(appts, id, Some(text));
    if r.code == Updated {
      var k := IndexOfId(appts, CastId(id).value).value;
      assert r.appointments[k] == appts[k].(status := StatusOfText(text));
    }
  }

  /**
   * The status update checks no slot: reactivating a cancelled appointment
   * whose slot has since been booked again leaves two active appointments
   * in one slot.
   */
  lemma ReactivationBreaksActiveUnique(a: Appointment, b: Appointment)
    requires IsStoredId(a.id) && a.id != b.id
    requires SlotOf(a) == SlotOf(b) && a.status == Cancelled && b.status == Pending
    ensures ActiveUnique([a, b])
    ensures StatusUpdateStep([a, b], a.id, Some("confirmed")).code == Updated
    ensures !ActiveUnique(StatusUpdateStep([a, b], a.id, Some("confirmed")).appointments)
  {
    CastOfStoredId(a.id);
    var s := StatusUpdateStep([a, b], a.id, Some("confirmed")).appointments;
    assert IndexOfId([a, b], a.id) == Some(0);
    assert s[0].status.IsActive() && s[1].status.IsActive() && SlotOf(s[0]) == SlotOf(s[1]);
  }

  /** The schema's enum is not enforced on this path: any text is stored as the status. */
  lemma UpdateStoresAnyText(a: Appointment, text: string)
    requires IsStoredId(a.id) && text !in StatusNames
    ensures var s := StatusUpdateStep([a], a.id, Some(text)).appointments;
      !s[0].status.InEnum() && !AppointmentModel.Conforms(s[0])
  {
    CastOfStoredId(a.id);
  }

  // ------------------------------------------------------- review and rating

  /** 500 (an id or a rating that does not cast), 404, 403 and 200 of `POST /api/appointments/:id/review`. */
  datatype ReviewCode = ReviewFailed | ReviewNotFound | Forbidden | Saved

  datatype ReviewOutcome = ReviewOutcome(code: ReviewCode, ratings: seq<Rating>)

  /**
   * The body's `rating` as the update's cast to Number sees it: absent, a
   * number (a numeric string casts to one), or a value the cast rejects.
   */
  datatype ScoreInput = NoScore | Score(value: real) | Uncastable

  /**
   * The gate: the requester booked it, it is completed, and its date is not
   * after now. The source compares the stored string with "completed";
   * every status the model writes is canonical (`StatusOfTextCanonical`),
   * and for those that is the test below (`CanonicalStatusTests`).
   */
  predicate MayReview(a: Appointment, user: Id, now: int) {
    a.userId == user && a.status == Completed && !IsAfter(a.date, now)
  }

  /** The index of the first rating of the pair (user, service). */
  function RatingIndex(rs: seq<Rating>, user: Id, service: Id): (r: Option<nat>)
    ensures r.Some? ==> r.value < |rs| && rs[r.value].userId == user && rs[r.value].serviceId == service
    ensures r.None? ==> forall j :: 0 <= j < |rs| ==> rs[j].userId != user || rs[j].serviceId != service
  {
    if rs == [] then None
    else if rs[0].userId == user && rs[0].serviceId == service then Some(0)
    else
      var rest := RatingIndex(rs[1..], user, service);
      if rest.Some? then Some(rest.value + 1) else None
  }

  /** The comment as stored: trimmed by the schema. */
  function StoredComment(c: Option<string>): Option<string> {
    if c.Some? then Some(Trim(c.value)) else None
  }

  /** The write of an upsert: the matched document is replaced, or the new one goes at the end. */
  function Put(rs: seq<Rating>, k: Option<nat>, t: Rating): (r: seq<Rating>)
    requires k.Some? ==> k.value < |rs|
    ensures k.Some? ==> r == rs[k.value := t]
    ensures k.None? ==> r == rs + [t]
  {
    if k.Some? then rs[k.value := t] else rs + [t]
  }

  /**
   * `findOneAndUpdate({user_id, service_id}, {rating, comment}, {upsert: true})`:
   * the fields the body sends overwrite the pair's rating (a missing field
   * is dropped from the update and keeps the stored value), or a rating for
   * the pair is added with the fields sent. No validators run, so the score
   * is neither bounded nor required.
   */
  function Upsert(rs: seq<Rating>, user: Id, service: Id, score: Option<real>, comment: Option<string>): seq<Rating> {
    var k := RatingIndex(rs, user, service);
    var rating := if k.Some? && score.None? then rs[k.value].rating else score;
    var kept := if k.Some? && comment.None? then rs[k.value].comment else StoredComment(comment);
    Put(rs, k, Rating(user, service, rating, kept))
  }

  /** Writing `t` where the pair's rating was, or after all others when there was none, keeps one rating per pair. */
  lemma PutKeepsOnePerPair(rs: seq<Rating>, k: Option<nat>, t: Rating)
    requires OnePerPair(rs)
    requires k.Some? ==> k.value < |rs| && rs[k.value].userId == t.userId && rs[k.value].serviceId == t.serviceId
    requires k.None? ==> forall j :: 0 <= j < |rs| ==> rs[j].userId != t.userId || rs[j].serviceId != t.serviceId
    ensures OnePerPair(Put(rs, k, t))
  {
    var r := Put(rs, k, t);
    forall i, j | 0 <= i < |r| && 0 <= j < |r| && i != j
      ensures r[i].userId != r[j].userId || r[i].serviceId != r[j].serviceId
    {
      if k.Some? {
        if i != k.value && j != k.value {
          assert r[i] == rs[i] && r[j] == rs[j];
        } else if i == k.value {
          assert r[j] == rs[j];
        } else {
          assert r[i] == rs[i];
        }
      } else {
        if i < |rs| && j < |rs| {
          assert r[i] == rs[i] && r[j] == rs[j];
        } else if i < |rs| {
          assert r[i] == rs[i];
        } else {
          assert r[j] == rs[j];
        }
      }
    }
  }

  /** Such a write holds `t` at the pair's place and keeps exactly the ratings of the other pairs. */
  lemma PutKeepsOthers(rs: seq<Rating>, k: Option<nat>, t: Rating)
    requires k.Some? ==> k.value < |rs| && rs[k.value].userId == t.userId && rs[k.value].serviceId == t.serviceId
    ensures var r, kk := Put(rs, k, t), if k.Some? then k.value else |rs|;
      && kk < |r| && r[kk] == t
      && (forall x :: x in rs && (x.userId != t.userId || x.serviceId != t.serviceId) ==> x in r)
      && (forall x :: x in r && (x.userId != t.userId || x.serviceId != t.serviceId) ==> x in rs)
  {
    var r := Put(rs, k, t);
    var kk := if k.Some? then k.value else |rs|;
    forall x | x in rs && (x.userId != t.userId || x.serviceId != t.serviceId)
      ensures x in r
    {
      var i :| 0 <= i < |rs| && rs[i] == x;
      assert r[i] == x;
    }
    forall x | x in r && (x.userId != t.userId || x.serviceId != t.serviceId)
      ensures x in rs
    {
      var i :| 0 <= i < |r| && r[i] == x;
      assert i != kk;
      assert rs[i] == x;
    }
  }

  /** The upsert keeps the unique index on (user_id, service_id). */
  lemma UpsertKeepsOnePerPair(rs: seq<Rating>, user: Id, service: Id, score: Option<real>, comment: Option<string>)
    requires OnePerPair(rs)
    ensures OnePerPair(Upsert(rs, user, service, score, comment))
  {
    var k := RatingIndex(rs, user, service);
    var rating := if k.Some? && score.None? then rs[k.value].rating else score;
    var kept := if k.Some? && comment.None? then rs[k.value].comment else StoredComment(comment);
    PutKeepsOnePerPair(rs, k, Rating(user, service, rating, kept));
  }

  /**
   * After an upsert the pair's rating holds the latest score and the latest
   * comment (trimmed); a field the review leaves out keeps the earlier value,
   * or is absent for a new pair. Every rating of another pair is kept, and
   * nothing else is added. With `UpsertKeepsOnePerPair` it is the pair's
   * only rating.
   */
  lemma UpsertHoldsLatest(rs: seq<Rating>, user: Id, service: Id, score: Option<real>, comment: Option<string>)
    ensures var r, k := Upsert(rs, user, service, score, comment), RatingIndex(rs, user, service);
      && (exists i :: 0 <= i < |r| && r[i].userId == user && r[i].serviceId == service
            && (score.Some? ==> r[i].rating == score)
            && (score.None? && k.Some? ==> r[i].rating == rs[k.value].rating)
            && (score.None? && k.None? ==> r[i].rating == None)
            && (comment.Some? ==> r[i].comment == Some(Trim(comment.value)))
            && (comment.None? && k.Some? ==> r[i].comment == rs[k.value].comment)
            && (comment.None? && k.None? ==> r[i].comment == None))
      && (forall x :: x in rs && (x.userId != user || x.serviceId != service) ==> x in r)
      && (forall x :: x in r && (x.userId != user || x.serviceId != service) ==> x in rs)
  {
    var k := RatingIndex(rs, user, service);
    var rating := if k.Some? && score.None? then rs[k.value].rating else score;
    var kept := if k.Some? && comment.None? then rs[k.value].comment else StoredComment(comment);
    var t := Rating(user, service, rating, kept);
    PutKeepsOthers(rs, k, t);
    var kk := if k.Some? then k.value else |rs|;
    assert Upsert(rs, user, service, score, comment)[kk] == t;
  }

  /** Bounds are kept only because the client sends a score in 1..5: the upsert keeps them when the score sent is in bounds. */
  lemma UpsertInBounds(rs: seq<Rating>, user: Id, service: Id, score: Option<real>, comment: Option<string>)
    requires forall i :: 0 <= i < |rs| ==> InBounds(rs[i])
    requires score.Some? ==> 1.0 <= score.value <= 5.0
    ensures var r := Upsert(rs, user, service, score, comment);
      forall i :: 0 <= i < |r| ==> InBounds(r[i])
  {
    var k := RatingIndex(rs, user, service);
    var rating := if k.Some? && score.None? then rs[k.value].rating else score;
    var kept := if k.Some? && comment.None? then rs[k.value].comment else StoredComment(comment);
    if k.Some? {
      assert InBounds(rs[k.value]);
    }
    PutInBounds(rs, k, Rating(user, service, rating, kept));
  }

  lemma PutInBounds(rs: seq<Rating>, k: Option<nat>, t: Rating)
    requires k.Some? ==> k.value < |rs|
    requires forall i :: 0 <= i < |rs| ==> InBounds(rs[i])
    requires InBounds(t)
    ensures forall i :: 0 <= i < |Put(rs, k, t)| ==> InBounds(Put(rs, k, t)[i])
  {
    var r := Put(rs, k, t);
    forall i | 0 <= i < |r|
      ensures InBounds(r[i])
    {
      if i < |rs| && r[i] != rs[i] {
        assert r[i] == t;
      }
    }
  }

  /** A score outside the schema's bounds is stored as sent. */
  lemma UpsertStoresOutOfBounds(user: Id, service: Id)
    ensures var r := Upsert([], user, service, Some(9.0), None);
      |r| == 1 && !InBounds(r[0])
  {
  }

  /** A first review without a score stores a rating the schema would refuse for want of one. */
  lemma UpsertStoresNoScore(user: Id, service: Id)
    ensures var r := Upsert([], user, service, None, Some("ok"));
      |r| == 1 && r[0].rating.None? && !RatingModel.Conforms(r[0])
  {
  }

  /** The score the update writes, for a rating the cast accepts. */
  function ScoreValue(score: ScoreInput): (r: Option<real>)
    ensures score.Score? <==> r.Some?
    ensures score.Score? ==> r.value == score.value
  {
    if score.Score? then Some(score.value) else None
  }

  /**
   * What the review route does to the ratings table: the appointment is
   * looked up by the cast id, and the rating is written for the requester
   * and the appointment's service.
   */
  function ReviewStep(appts: seq<Appointment>, rs: seq<Rating>, user: Id, apptId: string, now: int,
                      score: ScoreInput, comment: Option<string>): ReviewOutcome {
    var c := CastId(apptId);
    if c.None? then ReviewOutcome(ReviewFailed, rs)
    else
      var k := IndexOfId(appts, c.value);
      if k.None? then ReviewOutcome(ReviewNotFound, rs)
      else if !MayReview(appts[k.value], user, now) then ReviewOutcome(Forbidden, rs)
      else if score.Uncastable? then ReviewOutcome(ReviewFailed, rs)
      else ReviewOutcome(Saved, Upsert(rs, user, appts[k.value].serviceId, ScoreValue(score), comment))
  }

  /** `POST /api/appointments/:id/review` by `user` at instant `now` (milliseconds). */
  method Review(db: Db, user: Id, apptId: string, now: int, score: ScoreInput, comment: Option<string>) returns (code: ReviewCode)
    modifies db
    ensures ReviewOutcome(code, db.ratings) == ReviewStep(old(db.appointments), old(db.ratings), user, apptId, now, score, comment)
    ensures db.userIds == old(db.userIds) && db.categoryIds == old(db.categoryIds)
    ensures db.services == old(db.services) && db.appointments == old(db.appointments)
  {
    var c := CastId(apptId);
    if c.None? {
      return ReviewFailed;
    }
    var k := IndexOfId(db.appointments, c.value);
    if k.None? {
      return ReviewNotFound;
    }
    var appt := db.appointments[k.value];
    if appt.userId != user || appt.status != Completed || IsAfter(appt.date, now) {
      return Forbidden;
    }
    if score.Uncastable? {
      return ReviewFailed;
    }
    db.SetRatings(Upsert(db.ratings, user, appt.serviceId, ScoreValue(score), comment));
    code := Saved;
  }

  /**
   * A review is saved exactly when the id casts, the appointment exists and
   * passes the gate, and the rating casts; it is then the upsert for the
   * requester and the appointment's service. It is refused with 404 exactly
   * when no appointment has the cast id, and with 403 exactly when the
   * appointment fails the gate; otherwise no rating is written.
   */
  lemma ReviewGate(appts: seq<Appointment>, rs: seq<Rating>, user: Id, apptId: string, now: int, score: ScoreInput, comment: Option<string>)
    ensures var r, c := ReviewStep(appts, rs, user, apptId, now, score, comment), CastId(apptId);
      && (r.code == Saved <==>
            c.Some? && !score.Uncastable? && exists k :: FirstWithId(appts, k, c.value) && MayReview(appts[k], user, now))
      && (r.code == Saved ==>
            exists k :: FirstWithId(appts, k, c.value)
                        && r.ratings == Upsert(rs, user, appts[k].serviceId, ScoreValue(score), comment))
      && (r.code == ReviewNotFound <==> c.Some? && forall i :: 0 <= i < |appts| ==> appts[i].id != c.value)
      && (r.code == Forbidden <==>
            c.Some? && exists k :: FirstWithId(appts, k, c.value) && !MayReview(appts[k], user, now))
      && (r.code != Saved ==> r.ratings == rs)
  {
    var r := ReviewStep(appts, rs, user, apptId, now, score, comment);
    var c := CastId(apptId);
    if c.Some? {
      var k := IndexOfId(appts, c.value);
      forall k' | FirstWithId(appts, k', c.value)
        ensures k == Some(k')
      {
      }
    }
  }

  /** Reviews keep one rating per (user, service). */
  lemma ReviewKeepsOnePerPair(appts: seq<Appointment>, rs: seq<Rating>, user: Id, apptId: string, now: int, score: ScoreInput, comment: Option<string>)
    requires OnePerPair(rs)
    ensures OnePerPair(ReviewStep(appts, rs, user, apptId, now, score, comment).ratings)
  {
    var c := CastId(apptId);
    if c.Some? {
      var k := IndexOfId(appts, c.value);
      if k.Some? && MayReview(appts[k.value], user, now) && !score.Uncastable? {
        UpsertKeepsOnePerPair(rs, user, appts[k.value].serviceId, ScoreValue(score), comment);
      }
    }
  }

  // ---------------------------------------------------------------- listing

  /** `a` comes no later than `b` in `sort({date: -1, time: -1})`: a later date, or the same date and a time not smaller. */
  predicate ListedBefore(a: Appointment, b: Appointment) {
    a.date > b.date || (a.date == b.date && !StrLess(a.time, b.time))
  }

  predicate ListOrdered(s: seq<Appointment>) {
    forall i, j :: 0 <= i < j < |s| ==> ListedBefore(s[i], s[j])
  }

  lemma ListedBeforeTotal(a: Appointment, b: Appointment)
    ensures ListedBefore(a, b) || ListedBefore(b, a)
  {
    if a.date == b.date && StrLess(a.time, b.time) && StrLess(b.time, a.time) {
      StrLessTransitive(a.time, b.time, a.time);
      StrLessIrreflexive(a.time);
    }
  }

  lemma ListedBeforeTransitive(a: Appointment, b: Appointment, c: Appointment)
    requires ListedBefore(a, b) && ListedBefore(b, c)
    ensures ListedBefore(a, c)
  {
    if a.date == b.date && b.date == c.date && StrLess(a.time, c.time) && a.time != b.time && b.time != c.time {
      StrLessTotal(a.time, b.time);
      StrLessTotal(b.time, c.time);
      StrLessTransitive(c.time, b.time, a.time);
      StrLessTransitive(a.time, c.time, a.time);
      StrLessIrreflexive(a.time);
    }
  }

  /** `Appointment.find(filter)`: by service when the filter names one, else all of them, in stored order. */
  function ListFilter(appts: seq<Appointment>, serviceId: Option<Id>): (r: seq<Appointment>)
    ensures multiset(r) <= multiset(appts)
    ensures forall a :: a in r <==> a in appts && (serviceId.Some? ==> a.serviceId == serviceId.value)
    ensures forall a :: multiset(r)[a] == if serviceId.None? || a.serviceId == serviceId.value then multiset(appts)[a] else 0
  {
    if appts == [] then []
    else
      var rest := ListFilter(appts[1..], serviceId);
      assert appts == [appts[0]] + appts[1..];
      if serviceId.Some? && appts[0].serviceId != serviceId.value then rest
      else [appts[0]] + rest
  }

  /** Places `a` in front of the first element it is listed before. */
  function Insert(a: Appointment, s: seq<Appointment>): (r: seq<Appointment>)
    ensures multiset(r) == multiset(s) + multiset{a}
  {
    if s == [] || ListedBefore(a, s[0]) then [a] + s
    else
      assert s == [s[0]] + s[1..];
      [s[0]] + Insert(a, s[1..])
  }

  lemma {:induction false} InsertOrdered(a: Appointment, s: seq<Appointment>)
    requires ListOrdered(s)
    ensures ListOrdered(Insert(a, s))
    decreases |s|
  {
    var r := Insert(a, s);
    if s == [] || ListedBefore(a, s[0]) {
      forall i, j | 0 <= i < j < |r|
        ensures ListedBefore(r[i], r[j])
      {
        if i == 0 && j > 1 {
          ListedBeforeTransitive(a, s[0], s[j - 1]);
        }
      }
    } else {
      InsertOrdered(a, s[1..]);
      var t := Insert(a, s[1..]);
      ListedBeforeTotal(a, s[0]);
      forall i, j | 0 <= i < j < |r|
        ensures ListedBefore(r[i], r[j])
      {
        if i == 0 {
          var x := t[j - 1];
          assert x in multiset(t);
          assert x == a || x in multiset(s[1..]);
          if x != a {
            var m :| 0 <= m < |s[1..]| && s[1..][m] == x;
            assert s[m + 1] == x;
          }
        }
      }
    }
  }

  /** The listing's order, by insertion. */
  function SortListing(s: seq<Appointment>): (r: seq<Appointment>)
    ensures multiset(r) == multiset(s)
  {
    if s == [] then []
    else
      assert s == [s[0]] + s[1..];
      Insert(s[0], SortListing(s[1..]))
  }

  lemma {:induction false} SortListingOrdered(s: seq<Appointment>)
    ensures ListOrdered(SortListing(s))
  {
    if s != [] {
      SortListingOrdered(s[1..]);
      InsertOrdered(s[0], SortListing(s[1..]));
    }
  }

  /** 500 (the query's id passes `isValid` but does not cast) and 200 of `GET /api/appointments`. */
  datatype Listing = ListFailed | Fetched(appointments: seq<Appointment>)

  /** The query names a service: `service_id && isValid(service_id)`. */
  predicate NamesService(serviceId: Option<string>) {
    serviceId.Some? && IsValidObjectId(serviceId.value)
  }

  /** `GET /api/appointments?service_id=...`: the filter holds the id as the query casts it. */
  function ListAppointments(appts: seq<Appointment>, serviceId: Option<string>): Listing {
    if !NamesService(serviceId) then Fetched(SortListing(ListFilter(appts, None)))
    else
      var c := CastId(serviceId.value);
      if c.None? then ListFailed else Fetched(SortListing(ListFilter(appts, c)))
  }

  /**
   * The listing fails exactly when the query names an id that does not
   * cast. Otherwise it holds every appointment of the service the cast id
   * names (or all of them, when the query is missing or not a valid id),
   * each as often as the filter finds it, by date descending and then time
   * descending.
   */
  lemma ListingFacts(appts: seq<Appointment>, serviceId: Option<string>)
    ensures var r := ListAppointments(appts, serviceId);
      && (r.ListFailed? <==> NamesService(serviceId) && CastId(serviceId.value).None?)
      && (r.Fetched? ==>
            var filter := if NamesService(serviceId) then CastId(serviceId.value) else None;
            && ListOrdered(r.appointments)
            && multiset(r.appointments) == multiset(ListFilter(appts, filter))
            && (forall a :: a in r.appointments <==>
                  a in appts && (NamesService(serviceId) ==> Some(a.serviceId) == CastId(serviceId.value)))
            && (forall a :: multiset(r.appointments)[a] ==
                  if !NamesService(serviceId) || Some(a.serviceId) == CastId(serviceId.value) then multiset(appts)[a] else 0))
  {
    var filter := if NamesService(serviceId) then CastId(serviceId.value) else None;
    SortListingOrdered(ListFilter(appts, filter));
    var r := SortListing(ListFilter(appts, filter));
    forall a
      ensures a in r <==> a in ListFilter(appts, filter)
    {
      assert a in r <==> a in multiset(r);
    }
  }

  /** Without a valid service id nothing is filtered out. */
  lemma UnfilteredListing(appts: seq<Appointment>, serviceId: Option<string>)
    requires !NamesService(serviceId)
    ensures ListAppointments(appts, serviceId).Fetched?
    ensures multiset(ListAppointments(appts, serviceId).appointments) == multiset(appts)
  {
    assert ListFilter(appts, None) == appts by { UnfilteredIsIdentity(appts); }
  }

  lemma {:induction false} UnfilteredIsIdentity(appts: seq<Appointment>)
    ensures ListFilter(appts, None) == appts
  {
    if appts != [] {
      UnfilteredIsIdentity(appts[1..]);
      assert appts == [appts[0]] + appts[1..];
    }
  }
}
