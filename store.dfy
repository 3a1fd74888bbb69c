/** The persistent store: the collections the core reads and writes. */
module Store {
  import opened Ids
  import opened AppointmentModel
  import opened ServiceModel
  import opened RatingModel

  /** The contents of the store at one moment. */
  datatype State = State(
    userIds: seq<Id>, categoryIds: seq<Id>, services: seq<Service>,
    appointments: seq<Appointment>, ratings: seq<Rating>)

  class Db {
    var userIds: seq<Id>
    var categoryIds: seq<Id>
    var services: seq<Service>
    var appointments: seq<Appointment>
    var ratings: seq<Rating>

    constructor (userIds: seq<Id>, categoryIds: seq<Id>, services: seq<Service>, appointments: seq<Appointment>, ratings: seq<Rating>)
      ensures this.userIds == userIds && this.categoryIds == categoryIds && this.services == services
      ensures this.appointments == appointments && this.ratings == ratings
    {
      this.userIds := userIds;
      this.categoryIds := categoryIds;
      this.services := services;
      this.appointments := appointments;
      this.ratings := ratings;
    }

    function Contents(): State
      reads this
    {
      State(userIds, categoryIds, services, appointments, ratings)
    }

    /** The write of a query on the appointments: the collection becomes `a`. */
    method SetAppointments(a: seq<Appointment>)
      modifies this
      ensures appointments == a
      ensures userIds == old(userIds) && categoryIds == old(categoryIds)
      ensures services == old(services) && ratings == old(ratings)
      ensures Contents() == old(Contents()).(appointments := a)
    {
      appointments := a;
    }

    /** The write of a query on the ratings: the collection becomes `r`. */
    method SetRatings(r: seq<Rating>)
      modifies this
      ensures ratings == r
      ensures userIds == old(userIds) && categoryIds == old(categoryIds)
      ensures services == old(services) && appointments == old(appointments)
      ensures Contents() == old(Contents()).(ratings := r)
    {
      ratings := r;
    }

    /** The write of a query on the services: the collection becomes `s`. */
    method SetServices(s: seq<Service>)
      modifies this
      ensures services == s
      ensures userIds == old(userIds) && categoryIds == old(categoryIds)
      ensures appointments == old(appointments) && ratings == old(ratings)
      ensures Contents() == old(Contents()).(services := s)
    {
      services := s;
    }
  }
}
