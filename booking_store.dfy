/**
 * The booking collection and the handlers of routes/bookings.js that load, change and save
 * records: `POST /` inserts an admitted booking, `GET /:id` reads one, `PUT /:id/cancel` and
 * `PUT /:id/status` rewrite the fields of one loaded record and save it again.
 */
module BookingStore {
  import opened Wrappers
  import opened ServiceSchema
  import opened Bookings

  class BookingCollection {
    /** The saved bookings by id. */
    var bookings: map<nat, Booking>
    /** The id the next saved booking receives. */
    var nextId: nat
    /** The status the Booking model gives a new record. */
    const initialStatus: Status

    ghost predicate Valid()
      reads this
    {
      && Canonical(initialStatus)
      && forall id | id in bookings :: id < nextId && Canonical(bookings[id].status)
    }

    /** An empty collection whose new records get the status named `initialStatus`. */
    constructor(initialStatus: string)
      ensures Valid()
      ensures bookings == map[] && StatusName(this.initialStatus) == initialStatus
    {
      bookings := map[];
      nextId := 0;
      this.initialStatus := ParseStatus(initialStatus);
    }

    /** `POST /api/bookings`: an admitted request is saved under a fresh id; a refused one returns
        before `save()` and leaves the collection as it was.  A slot that ends before midnight keeps
        the active bookings free of overlaps. */
    method Create(catalog: map<string, Service>, req: Request, user: string, today: Day)
      returns (r: Result<nat, AdmissionError>)
      requires Valid()
      modifies this
      ensures Valid()
      ensures r.Success? <==> Admit(catalog, old(bookings), req, user, today, initialStatus).Success?
      ensures r.Success? ==>
        && r.value !in old(bookings)
        && bookings == old(bookings)[r.value := Admit(catalog, old(bookings), req, user, today, initialStatus).value]
      ensures r.Failure? ==>
        && r.error == Admit(catalog, old(bookings), req, user, today, initialStatus).error
        && bookings == old(bookings) && nextId == old(nextId)
      ensures r.Success? && old(Disjoint(bookings)) &&
              0 <= bookings[r.value].duration && bookings[r.value].time + bookings[r.value].duration < 1440 ==>
        Disjoint(bookings)
    {
      var outcome := Admit(catalog, bookings, req, user, today, initialStatus);
      match outcome
      case Failure(e) =>
        r := Failure(e);
      case Success(b) =>
        var id := nextId;
        if Disjoint(bookings) && 0 <= b.duration && b.time + b.duration < 1440 {
          AdmitKeepsDisjoint(catalog, bookings, req, user, today, initialStatus, b, id);
        }
        bookings := bookings[id := b];
        nextId := nextId + 1;
        r := Success(id);
    }

    /** `GET /api/bookings/:id`. */
    method Get(id: nat, who: Requester) returns (r: Result<Booking, BookingError>)
      ensures id !in bookings ==> r == Failure(NotFound)
      ensures id in bookings && !MayAccess(bookings[id], who) ==> r == Failure(NotAuthorized)
      ensures id in bookings && MayAccess(bookings[id], who) ==> r == Success(bookings[id])
    {
      if id !in bookings {
        return Failure(NotFound);
      }
      var b := bookings[id];
      if !MayAccess(b, who) {
        return Failure(NotAuthorized);
      }
      r := Success(b);
    }

    /** `PUT /api/bookings/:id/cancel`: only the one booking changes, and only when the cancel rules
        allow it. */
    method Cancel(id: nat, who: Requester, reason: Option<string>) returns (r: Result<Booking, BookingError>)
      requires Valid()
      modifies this
      ensures Valid() && nextId == old(nextId)
      ensures id !in old(bookings) ==> r == Failure(NotFound) && bookings == old(bookings)
      ensures id in old(bookings) ==> r == Bookings.Cancel(old(bookings)[id], who, reason)
      ensures r.Success? ==> bookings == old(bookings)[id := r.value]
      ensures r.Failure? ==> bookings == old(bookings)
    {
      if id !in bookings {
        return Failure(NotFound);
      }
      r := Bookings.Cancel(bookings[id], who, reason);
      if r.Success? {
        bookings := bookings[id := r.value];
      }
    }

    /** `PUT /api/bookings/:id/status`: the requested status, and the notes when given, are written
        to the one booking. */
    method UpdateStatus(id: nat, status: string, notes: Option<string>) returns (r: Result<Booking, BookingError>)
      requires Valid()
      modifies this
      ensures Valid() && nextId == old(nextId)
      ensures id !in old(bookings) ==> r == Failure(NotFound) && bookings == old(bookings)
      ensures id in old(bookings) ==>
        && r == Success(Bookings.UpdateStatus(old(bookings)[id], status, notes))
        && bookings == old(bookings)[id := r.value]
    {
      if id !in bookings {
        return Failure(NotFound);
      }
      var b := Bookings.UpdateStatus(bookings[id], status, notes);
      bookings := bookings[id := b];
      r := Success(b);
    }
  }
}
