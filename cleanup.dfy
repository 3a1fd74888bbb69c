/**
 * The orphan cleaner (jobs/cleanUp.js), run before every request: delete
 * the appointments whose user or service is missing, then the ratings whose
 * user or service is missing, then the services whose category is missing.
 * Users and categories are never deleted. A failing step is logged and the
 * request goes on; that path is not part of this model.
 */
module CleanUp {
  import opened Ids
  import opened AppointmentModel
  import opened ServiceModel
  import opened RatingModel
  import opened Store

  /** `Service.distinct('_id')`. */
  function ServiceIds(svcs: seq<Service>): (r: seq<Id>)
    ensures |r| == |svcs| && forall i :: 0 <= i < |svcs| ==> r[i] == svcs[i].id
  {
    seq(|svcs|, i requires 0 <= i < |svcs| => svcs[i].id)
  }

  lemma ServiceIdsOf(svcs: seq<Service>, id: Id)
    ensures id in ServiceIds(svcs) <==> exists s :: s in svcs && s.id == id
  {
    var ids := ServiceIds(svcs);
    if id in ids {
      var i :| 0 <= i < |ids| && ids[i] == id;
      assert svcs[i] in svcs;
    }
    if exists s :: s in svcs && s.id == id {
      var s :| s in svcs && s.id == id;
      var i :| 0 <= i < |svcs| && svcs[i] == s;
      assert ids[i] == id;
    }
  }

  /** The appointments the first `deleteMany` keeps, in their order. */
  function KeepAppointments(appts: seq<Appointment>, users: seq<Id>, services: seq<Id>): (r: seq<Appointment>)
    ensures |r| <= |appts|
    ensures forall a :: a in r <==> a in appts && a.userId in users && a.serviceId in services
  {
    if appts == [] then []
    else
      var init, last := appts[..|appts| - 1], appts[|appts| - 1];
      assert appts == init + [last];
      KeepAppointments(init, users, services) + (if last.userId in users && last.serviceId in services then [last] else [])
  }

  /** The ratings the second `deleteMany` keeps, in their order. */
  function KeepRatings(rs: seq<Rating>, users: seq<Id>, services: seq<Id>): (r: seq<Rating>)
    ensures |r| <= |rs|
    ensures forall x :: x in r <==> x in rs && x.userId in users && x.serviceId in services
  {
    if rs == [] then []
    else
      var init, last := rs[..|rs| - 1], rs[|rs| - 1];
      assert rs == init + [last];
      KeepRatings(init, users, services) + (if last.userId in users && last.serviceId in services then [last] else [])
  }

  /** The services the third `deleteMany` keeps, in their order. */
  function KeepServices(svcs: seq<Service>, categories: seq<Id>): (r: seq<Service>)
    ensures |r| <= |svcs|
    ensures forall s :: s in r <==> s in svcs && s.categoryId in categories
  {
    if svcs == [] then []
    else
      var init, last := svcs[..|svcs| - 1], svcs[|svcs| - 1];
      assert svcs == init + [last];
      KeepServices(init, categories) + (if last.categoryId in categories then [last] else [])
  }

  /** One pass of the cleaner: the three steps in order, each seeing the store the previous one left. */
  function CleanPass(st: State): State {
    var services := ServiceIds(st.services);
    st.(appointments := KeepAppointments(st.appointments, st.userIds, services),
        ratings := KeepRatings(st.ratings, st.userIds, services),
        services := KeepServices(st.services, st.categoryIds))
  }

  /** Every reference in the store points at an existing document. */
  predicate Consistent(st: State) {
    && (forall a :: a in st.appointments ==> a.userId in st.userIds && a.serviceId in ServiceIds(st.services))
    && (forall x :: x in st.ratings ==> x.userId in st.userIds && x.serviceId in ServiceIds(st.services))
    && (forall s :: s in st.services ==> s.categoryId in st.categoryIds)
  }

  /** Step 1, document by document. */
  method DeleteOrphanAppointments(db: Db)
    modifies db
    ensures db.Contents() == old(db.Contents()).(appointments :=
      KeepAppointments(old(db.appointments), old(db.userIds), ServiceIds(old(db.services))))
  {
    var appts, users, services := db.appointments, db.userIds, ServiceIds(db.services);
    var kept: seq<Appointment> := [];
    var i := 0;
    while i < |appts|
      invariant 0 <= i <= |appts|
      invariant kept == KeepAppointments(appts[..i], users, services)
    {
      var a := appts[i];
      assert appts[..i + 1][..i] == appts[..i];
      if a.userId in users && a.serviceId in services {
        kept := kept + [a];
      }
      i := i + 1;
    }
    assert appts[..i] == appts;
    db.SetAppointments(kept);
  }

  /** Step 2, document by document. */
  method DeleteOrphanRatings(db: Db)
    modifies db
    ensures db.Contents() == old(db.Contents()).(ratings :=
      KeepRatings(old(db.ratings), old(db.userIds), ServiceIds(old(db.services))))
  {
    var rs, users, services := db.ratings, db.userIds, ServiceIds(db.services);
    var kept: seq<Rating> := [];
    var i := 0;
    while i < |rs|
      invariant 0 <= i <= |rs|
      invariant kept == KeepRatings(rs[..i], users, services)
    {
      var x := rs[i];
      assert rs[..i + 1][..i] == rs[..i];
      if x.userId in users && x.serviceId in services {
        kept := kept + [x];
      }
      i := i + 1;
    }
    assert rs[..i] == rs;
    db.SetRatings(kept);
  }

  /** Step 3, document by document. */
  method DeleteOrphanServices(db: Db)
    modifies db
    ensures db.Contents() == old(db.Contents()).(services := KeepServices(old(db.services), old(db.categoryIds)))
  {
    var svcs, categories := db.services, db.categoryIds;
    var kept: seq<Service> := [];
    var i := 0;
    while i < |svcs|
      invariant 0 <= i <= |svcs|
      invariant kept == KeepServices(svcs[..i], categories)
    {
      var s := svcs[i];
      assert svcs[..i + 1][..i] == svcs[..i];
      if s.categoryId in categories {
        kept := kept + [s];
      }
      i := i + 1;
    }
    assert svcs[..i] == svcs;
    db.SetServices(kept);
  }

  /** `cleaner`: the three steps in order. */
  method Cleaner(db: Db)
    modifies db
    ensures db.Contents() == CleanPass(old(db.Contents()))
  {
    DeleteOrphanAppointments(db);
    DeleteOrphanRatings(db);
    DeleteOrphanServices(db);
  }

  /**
   * After one pass, every appointment and every rating left references a
   * user and a service that existed when it was checked, every service left
   * references an existing category, exactly the records meeting these
   * conditions remain, and users and categories are untouched.
   */
  lemma CleanPassEffect(st: State)
    ensures var r := CleanPass(st);
      && r.userIds == st.userIds && r.categoryIds == st.categoryIds
      && (forall a :: a in r.appointments <==>
            a in st.appointments && a.userId in st.userIds && exists s :: s in st.services && s.id == a.serviceId)
      && (forall x :: x in r.ratings <==>
            x in st.ratings && x.userId in st.userIds && exists s :: s in st.services && s.id == x.serviceId)
      && (forall s :: s in r.services <==> s in st.services && s.categoryId in st.categoryIds)
  {
    forall a: Appointment
      ensures a.serviceId in ServiceIds(st.services) <==> exists s :: s in st.services && s.id == a.serviceId
    {
      ServiceIdsOf(st.services, a.serviceId);
    }
    forall x: Rating
      ensures x.serviceId in ServiceIds(st.services) <==> exists s :: s in st.services && s.id == x.serviceId
    {
      ServiceIdsOf(st.services, x.serviceId);
    }
  }

  /** A service kept by the third step was a service when the first two steps looked. */
  lemma KeptServiceIds(svcs: seq<Service>, categories: seq<Id>, id: Id)
    requires id in ServiceIds(KeepServices(svcs, categories))
    ensures id in ServiceIds(svcs)
  {
    ServiceIdsOf(KeepServices(svcs, categories), id);
    ServiceIdsOf(svcs, id);
  }

  /**
   * Services go last, so one pass can leave an appointment pointing at a
   * service it has just deleted; the second pass removes it.
   */
  lemma DanglingAfterOnePass(st: State, a: Appointment, svc: Service)
    requires st.services == [svc] && st.appointments == [a] && st.ratings == []
    requires a.userId in st.userIds && a.serviceId == svc.id && svc.categoryId !in st.categoryIds
    ensures a in CleanPass(st).appointments && !Consistent(CleanPass(st))
    ensures CleanPass(CleanPass(st)).appointments == [] && Consistent(CleanPass(CleanPass(st)))
  {
    ServiceIdsOf(st.services, a.serviceId);
    var one := CleanPass(st);
    assert one.services == [] by {
      assert svc !in one.services;
    }
    assert ServiceIds(one.services) == [];
    assert a in one.appointments;
    var two := CleanPass(one);
    assert two.appointments == [] by {
      assert a !in two.appointments;
    }
  }

  /** With no other writes between them, two passes leave a consistent store. */
  lemma TwoPassesConsistent(st: State)
    ensures Consistent(CleanPass(CleanPass(st)))
  {
    var one := CleanPass(st);
    var two := CleanPass(one);
    assert forall s :: s in one.services ==> s.categoryId in st.categoryIds;
    KeepAllServices(one.services, one.categoryIds);
    assert two.services == one.services;
  }

  lemma {:induction false} KeepAllServices(svcs: seq<Service>, categories: seq<Id>)
    requires forall s :: s in svcs ==> s.categoryId in categories
    ensures KeepServices(svcs, categories) == svcs
  {
    if svcs != [] {
      var init := svcs[..|svcs| - 1];
      assert svcs == init + [svcs[|svcs| - 1]];
      assert forall s :: s in init ==> s in svcs;
      KeepAllServices(init, categories);
    }
  }

  lemma {:induction false} KeepAllAppointments(appts: seq<Appointment>, users: seq<Id>, services: seq<Id>)
    requires forall a :: a in appts ==> a.userId in users && a.serviceId in services
    ensures KeepAppointments(appts, users, services) == appts
  {
    if appts != [] {
      var init := appts[..|appts| - 1];
      assert appts == init + [appts[|appts| - 1]];
      assert forall a :: a in init ==> a in appts;
      KeepAllAppointments(init, users, services);
    }
  }

  lemma {:induction false} KeepAllRatings(rs: seq<Rating>, users: seq<Id>, services: seq<Id>)
    requires forall x :: x in rs ==> x.userId in users && x.serviceId in services
    ensures KeepRatings(rs, users, services) == rs
  {
    if rs != [] {
      var init := rs[..|rs| - 1];
      assert rs == init + [rs[|rs| - 1]];
      assert forall x :: x in init ==> x in rs;
      KeepAllRatings(init, users, services);
    }
  }

  /** On a consistent store a pass deletes nothing. */
  lemma ConsistentUnchanged(st: State)
    requires Consistent(st)
    ensures CleanPass(st) == st
  {
    var services := ServiceIds(st.services);
    KeepAllAppointments(st.appointments, st.userIds, services);
    KeepAllRatings(st.ratings, st.userIds, services);
    KeepAllServices(st.services, st.categoryIds);
  }
}
