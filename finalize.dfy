/**
 * The lifecycle sweeper (jobs/finalizeAppointments.js): with one instant
 * `now`, every confirmed appointment dated before it becomes completed, and
 * then every pending appointment dated before it becomes cancelled.
 */
module Finalize {
  import opened Calendar
  import opened AppointmentModel
  import opened Store
  import Appointments

  /** One appointment under `updateMany({date: {$lt: now}, status: from}, {status: to})`. */
  function Swept(a: Appointment, now: int, from: Status, to: Status): Appointment {
    if IsBefore(a.date, now) && a.status == from then a.(status := to) else a
  }

  /** The whole collection under that `updateMany`. */
  function Sweep(appts: seq<Appointment>, now: int, from: Status, to: Status): (r: seq<Appointment>)
    ensures |r| == |appts|
  {
    seq(|appts|, i requires 0 <= i < |appts| => Swept(appts[i], now, from, to))
  }

  /** The two steps of the job, in order. */
  function FinalizeAll(appts: seq<Appointment>, now: int): seq<Appointment> {
    Sweep(Sweep(appts, now, Confirmed, Completed), now, Pending, Cancelled)
  }

  /** One `updateMany` over the appointment collection, document by document. */
  method UpdateMany(db: Db, now: int, from: Status, to: Status)
    modifies db
    ensures db.appointments == Sweep(old(db.appointments), now, from, to)
    ensures db.userIds == old(db.userIds) && db.categoryIds == old(db.categoryIds)
    ensures db.services == old(db.services) && db.ratings == old(db.ratings)
  {
    ghost var before := db.appointments;
    var i := 0;
    while i < |db.appointments|
      invariant |db.appointments| == |before| && 0 <= i <= |before|
      invariant forall k :: 0 <= k < i ==> db.appointments[k] == Swept(before[k], now, from, to)
      invariant forall k :: i <= k < |before| ==> db.appointments[k] == before[k]
      invariant db.userIds == old(db.userIds) && db.categoryIds == old(db.categoryIds)
      invariant db.services == old(db.services) && db.ratings == old(db.ratings)
    {
      var a := db.appointments[i];
      if IsBefore(a.date, now) && a.status == from {
        db.appointments := db.appointments[i := a.(status := to)];
      }
      i := i + 1;
    }
  }

  /** `finalizePastAppointments` at the instant `now` (milliseconds). */
  method FinalizePastAppointments(db: Db, now: int)
    modifies db
    ensures db.appointments == FinalizeAll(old(db.appointments), now)
    ensures db.userIds == old(db.userIds) && db.categoryIds == old(db.categoryIds)
    ensures db.services == old(db.services) && db.ratings == old(db.ratings)
  {
    UpdateMany(db, now, Confirmed, Completed);
    UpdateMany(db, now, Pending, Cancelled);
  }

  /**
   * The effect on each appointment: confirmed and dated before now becomes
   * completed, pending and dated before now becomes cancelled, everything
   * else (a later date, or cancelled, completed or unlisted) is unchanged.
   * In particular a pending appointment never becomes completed.
   */
  lemma FinalizeEffect(appts: seq<Appointment>, now: int, i: int)
    requires 0 <= i < |appts|
    ensures var r := FinalizeAll(appts, now);
      && |r| == |appts|
      && (IsBefore(appts[i].date, now) && appts[i].status == Confirmed ==> r[i] == appts[i].(status := Completed))
      && (IsBefore(appts[i].date, now) && appts[i].status == Pending ==> r[i] == appts[i].(status := Cancelled))
      && (!IsBefore(appts[i].date, now) || !appts[i].status.IsActive() ==> r[i] == appts[i])
      && (appts[i].status == Pending ==> r[i].status != Completed)
  {
    var s := Sweep(appts, now, Confirmed, Completed);
    assert s[i] == Swept(appts[i], now, Confirmed, Completed);
  }

  /** Only the status field is written. */
  lemma OnlyStatusWritten(appts: seq<Appointment>, now: int, i: int)
    requires 0 <= i < |appts|
    ensures FinalizeAll(appts, now)[i].(status := appts[i].status) == appts[i]
  {
    FinalizeEffect(appts, now, i);
  }

  /** After a run, nothing dated before now is pending or confirmed. */
  lemma NoActiveInPast(appts: seq<Appointment>, now: int)
    ensures var r := FinalizeAll(appts, now);
      forall i :: 0 <= i < |r| && IsBefore(r[i].date, now) ==> !r[i].status.IsActive()
  {
    var r := FinalizeAll(appts, now);
    forall i | 0 <= i < |r| && IsBefore(r[i].date, now)
      ensures !r[i].status.IsActive()
    {
      FinalizeEffect(appts, now, i);
    }
  }

  /** Running the job again with the same instant changes nothing. */
  lemma FinalizeIdempotent(appts: seq<Appointment>, now: int)
    ensures FinalizeAll(FinalizeAll(appts, now), now) == FinalizeAll(appts, now)
  {
    var r := FinalizeAll(appts, now);
    var rr := FinalizeAll(r, now);
    forall i | 0 <= i < |r|
      ensures rr[i] == r[i]
    {
      FinalizeEffect(appts, now, i);
      FinalizeEffect(r, now, i);
    }
  }

  /** The time string plays no part: appointments that differ only in time are swept alike. */
  lemma TimeIgnored(appts: seq<Appointment>, other: seq<Appointment>, now: int)
    requires |other| == |appts|
    requires forall i :: 0 <= i < |appts| ==> other[i] == appts[i].(time := other[i].time)
    ensures var r, q := FinalizeAll(appts, now), FinalizeAll(other, now);
      forall i :: 0 <= i < |appts| ==> q[i] == r[i].(time := other[i].time)
  {
    forall i | 0 <= i < |appts|
      ensures FinalizeAll(other, now)[i] == FinalizeAll(appts, now)[i].(time := other[i].time)
    {
      FinalizeEffect(appts, now, i);
      FinalizeEffect(other, now, i);
    }
  }

  /** The sweep only deactivates, so it keeps the ledger invariant of one active appointment per slot. */
  lemma FinalizeKeepsActiveUnique(appts: seq<Appointment>, now: int)
    requires Appointments.ActiveUnique(appts)
    ensures Appointments.ActiveUnique(FinalizeAll(appts, now))
  {
    var r := FinalizeAll(appts, now);
    forall i, j | 0 <= i < j < |r| && r[i].status.IsActive() && r[j].status.IsActive()
      ensures Appointments.SlotOf(r[i]) != Appointments.SlotOf(r[j])
    {
      FinalizeEffect(appts, now, i);
      FinalizeEffect(appts, now, j);
    }
  }
}
