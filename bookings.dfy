/**
 * The decision logic of the booking routes (routes/bookings.js): the admission chain of
 * `POST /api/bookings`, the conflict rule, the record a successful request creates, the
 * authorisation shared by `GET /:id` and `PUT /:id/cancel`, the cancel rules, and the fields
 * `PUT /:id/status` writes.  The handlers that load and save records are in BookingStore.
 *
 * A date is a day number, day 0 being Thursday 1 January 1970; a time is a Minute.
 */
module Bookings {
  import opened Wrappers
  import opened JsStrings
  import opened ServiceSchema

  type Day = int

  /** The weekdays from day 0 on: 1 January 1970 was a Thursday. */
  const EpochWeek: seq<Weekday> := [Thursday, Friday, Saturday, Sunday, Monday, Tuesday, Wednesday]

  /** The weekday whose `availability` entry applies to a date (`format('dddd')`). */
  function WeekdayOf(day: Day): (r: Weekday)
    ensures r == EpochWeek[day % 7]
  {
    var k := (day + 3) % 7;
    if k == 0 then Monday
    else if k == 1 then Tuesday
    else if k == 2 then Wednesday
    else if k == 3 then Thursday
    else if k == 4 then Friday
    else if k == 5 then Saturday
    else Sunday
  }

  lemma WeekdayCycle(day: Day)
    ensures WeekdayOf(0) == Thursday
    ensures WeekdayOf(day + 7) == WeekdayOf(day)
    ensures WeekdayOf(day + 1) != WeekdayOf(day)
  {
  }

  /** A booking's `status`.  The four values the routes name have their own constructors; any other
      string a status update writes is an OtherStatus. */
  datatype Status = Pending | Confirmed | Cancelled | Completed | OtherStatus(name: string)

  const NamedStatuses: seq<string> := ["pending", "confirmed", "cancelled", "completed"]

  /** The string stored in the record. */
  function StatusName(s: Status): string {
    match s
    case Pending => "pending"
    case Confirmed => "confirmed"
    case Cancelled => "cancelled"
    case Completed => "completed"
    case OtherStatus(name) => name
  }

  /** One value per string: an OtherStatus never carries one of the four named values. */
  predicate Canonical(s: Status) {
    s.OtherStatus? ==> s.name !in NamedStatuses
  }

  /** The status a stored string stands for. */
  function ParseStatus(name: string): (s: Status)
    ensures Canonical(s)
    ensures StatusName(s) == name
  {
    if name == "pending" then Pending
    else if name == "confirmed" then Confirmed
    else if name == "cancelled" then Cancelled
    else if name == "completed" then Completed
    else OtherStatus(name)
  }

  /** Canonical statuses and their strings are in one-to-one correspondence. */
  lemma StatusRoundTrip(s: Status, t: Status)
    requires Canonical(s) && Canonical(t)
    ensures ParseStatus(StatusName(s)) == s
    ensures StatusName(s) == StatusName(t) ==> s == t
  {
  }

  /** The statuses the conflict query looks for: `{ $in: ['pending', 'confirmed'] }`. */
  function IsActive(s: Status): (r: bool)
    ensures Canonical(s) ==> (r <==> StatusName(s) in ["pending", "confirmed"])
  {
    s == Pending || s == Confirmed
  }

  /** The role of the authenticated caller; Customer stands for every role other than the two named. */
  datatype Role = Customer | StoreManager | Admin

  datatype Requester = Requester(id: string, role: Role)

  /** `cancelledBy`: 'customer', 'store' or 'admin'. */
  datatype Canceller = ByCustomer | ByStore | ByAdmin

  datatype Booking = Booking(
    user: string,
    service: string,
    store: string,
    date: Day,
    time: Minute,
    duration: int,
    numberOfPeople: int,
    totalPrice: real,
    specialRequests: Option<string>,
    status: Status,
    cancelledBy: Option<Canceller>,
    cancellationReason: Option<string>,
    notes: Option<string>)

  /** The body of a create request after parsing; None is a field that is absent or empty, and a
      `numberOfPeople` that is not an integer. */
  datatype Request = Request(
    serviceId: string,
    date: Option<Day>,
    time: Option<Minute>,
    numberOfPeople: Option<int>,
    specialRequests: Option<string>)

  datatype RequestField = ServiceIdField | DateField | TimeField | PeopleField

  /** The position of a field's validator in the route's list. */
  function FieldRank(f: RequestField): nat {
    match f
    case ServiceIdField => 0
    case DateField => 1
    case TimeField => 2
    case PeopleField => 3
  }

  /** The express-validator messages. */
  function FieldMessage(f: RequestField): string {
    match f
    case ServiceIdField => "Service ID is required"
    case DateField => "Date is required"
    case TimeField => "Time is required"
    case PeopleField => "Number of people must be at least 1"
  }

  predicate FieldFails(req: Request, f: RequestField) {
    match f
    case ServiceIdField => req.serviceId == ""
    case DateField => req.date.None?
    case TimeField => req.time.None?
    case PeopleField => req.numberOfPeople.None? || req.numberOfPeople.value < 1
  }

  /** A request no validator objects to. */
  predicate WellFormed(req: Request) {
    && req.serviceId != "" && req.date.Some? && req.time.Some?
    && req.numberOfPeople.Some? && req.numberOfPeople.value >= 1
  }

  /** `errors.array()`: every failing field, in the order the validators are declared. */
  function RequestErrors(req: Request): (r: seq<RequestField>)
    ensures forall f: RequestField :: f in r <==> FieldFails(req, f)
    ensures forall i, j | 0 <= i < j < |r| :: FieldRank(r[i]) < FieldRank(r[j])
    ensures forall i, j | 0 <= i < j < |r| :: r[i] != r[j]
    ensures r == [] <==> WellFormed(req)
  {
    var r := (if FieldFails(req, ServiceIdField) then [ServiceIdField] else [])
      + (if FieldFails(req, DateField) then [DateField] else [])
      + (if FieldFails(req, TimeField) then [TimeField] else [])
      + (if FieldFails(req, PeopleField) then [PeopleField] else []);
    RequestFieldsCovered(req, r);
    RequestFieldsOrdered(req, r);
    r
  }

  lemma RequestFieldsOrdered(req: Request, r: seq<RequestField>)
    requires r == (if FieldFails(req, ServiceIdField) then [ServiceIdField] else [])
      + (if FieldFails(req, DateField) then [DateField] else [])
      + (if FieldFails(req, TimeField) then [TimeField] else [])
      + (if FieldFails(req, PeopleField) then [PeopleField] else [])
    ensures forall i, j | 0 <= i < j < |r| :: FieldRank(r[i]) < FieldRank(r[j])
  {
  }

  lemma RequestFieldsCovered(req: Request, r: seq<RequestField>)
    requires r == (if FieldFails(req, ServiceIdField) then [ServiceIdField] else [])
      + (if FieldFails(req, DateField) then [DateField] else [])
      + (if FieldFails(req, TimeField) then [TimeField] else [])
      + (if FieldFails(req, PeopleField) then [PeopleField] else [])
    ensures forall f: RequestField :: f in r <==> FieldFails(req, f)
  {
    forall f: RequestField ensures f in r <==> FieldFails(req, f) {
      match f
      case ServiceIdField =>
      case DateField =>
      case TimeField =>
      case PeopleField =>
    }
  }

  /** Why a create request is refused; each is answered with status 400. */
  datatype AdmissionError =
    | InvalidRequest(fields: seq<RequestField>)
    | ServiceUnavailable
    | PastDate
    | ClosedOnDay
    | OutsideOperatingHours
    | SlotConflict

  function AdmissionMessage(e: AdmissionError): string
    requires !e.InvalidRequest?
  {
    match e
    case ServiceUnavailable => "Service not found or inactive"
    case PastDate => "Cannot book for past dates"
    case ClosedOnDay => "Service is not available on this day"
    case OutsideOperatingHours => "Booking time is outside operating hours"
    case SlotConflict => "Time slot is already booked"
  }

  /** An error answer: the status code and the JSON body, `{ message }` or `{ errors }` with the
      `msg` of each failing validator. */
  datatype Reply = Reply(code: int, body: ReplyBody)
  datatype ReplyBody = MessageBody(message: string) | ErrorsBody(errors: seq<string>)

  /** How `POST /api/bookings` answers a refused request: always 400, the validators' messages for a
      malformed request and one message for each later check. */
  function AdmissionReply(e: AdmissionError): (r: Reply)
    ensures r.code == 400
    ensures r.body.ErrorsBody? <==> e.InvalidRequest?
    ensures e.InvalidRequest? ==>
      |r.body.errors| == |e.fields| && forall i | 0 <= i < |e.fields| :: r.body.errors[i] == FieldMessage(e.fields[i])
  {
    if e.InvalidRequest? then Reply(400, ErrorsBody(seq(|e.fields|, i requires 0 <= i < |e.fields| => FieldMessage(e.fields[i]))))
    else Reply(400, MessageBody(AdmissionMessage(e)))
  }

  /** The answer tells every refusal apart: distinct errors give distinct bodies. */
  lemma AdmissionRepliesDistinct(e1: AdmissionError, e2: AdmissionError)
    requires AdmissionReply(e1) == AdmissionReply(e2)
    ensures e1 == e2
  {
  }

  /** The end of a slot as the conflict query sees it: start plus duration, formatted as "HH:mm",
      which wraps past midnight. */
  function EndOfSlot(time: Minute, duration: int): (r: Minute)
    ensures 0 <= time + duration < 1440 ==> r == time + duration
    ensures 1440 <= time + duration < 2 * 1440 ==> r == time + duration - 1440
    ensures (time + duration - r) % 1440 == 0
  {
    (time + duration) % 1440
  }

  /** An existing booking that the conflict query (`findOne`) matches. */
  function Blocks(e: Booking, serviceId: string, date: Day, end: Minute): (r: bool)
    ensures Canonical(e.status) ==>
      (r <==> e.service == serviceId && e.date == date && StatusName(e.status) in ["pending", "confirmed"] && e.time < end)
    ensures e.status == Cancelled || e.status == Completed ==> !r
  {
    e.service == serviceId && e.date == date && IsActive(e.status) && e.time < end
  }

  function SlotTaken(bookings: map<nat, Booking>, serviceId: string, date: Day, end: Minute): (r: bool)
    ensures !r ==> forall id | id in bookings && bookings[id].service == serviceId && bookings[id].date == date
                              && IsActive(bookings[id].status) :: bookings[id].time >= end
    ensures end == 0 || bookings == map[] ==> !r
  {
    exists id | id in bookings :: Blocks(bookings[id], serviceId, date, end)
  }

  /** The operating-hours check: an absent `open` or `close` parses to an invalid moment, against
      which neither `isBefore` nor `isAfter` holds, so that side is unbounded. */
  function WithinHours(hours: DayHours, time: Minute): (r: bool)
    ensures hours.open.Some? && time < hours.open.value ==> !r
    ensures hours.close.Some? && time > hours.close.value ==> !r
    ensures hours.open.None? && hours.close.None? ==> r
    ensures hours.open.Some? && hours.close.Some? ==> (r <==> hours.open.value <= time <= hours.close.value)
  {
    (hours.open.None? || hours.open.value <= time) && (hours.close.None? || time <= hours.close.value)
  }

  /** The record `new Booking({...})` builds; its status is the Booking model's default. */
  function NewBooking(svc: Service, req: Request, user: string, initialStatus: Status): (r: Booking)
    requires req.date.Some? && req.time.Some? && req.numberOfPeople.Some?
    ensures r.user == user && r.service == req.serviceId && r.store == svc.store
    ensures Some(r.date) == req.date && Some(r.time) == req.time && Some(r.numberOfPeople) == req.numberOfPeople
    ensures r.duration == svc.duration && r.totalPrice == svc.price * (r.numberOfPeople as real)
    ensures r.specialRequests == req.specialRequests && r.status == initialStatus
    ensures r.cancelledBy.None? && r.cancellationReason.None? && r.notes.None?
  {
    var n := req.numberOfPeople.value;
    Booking(user, req.serviceId, svc.store, req.date.value, req.time.value, svc.duration, n,
            svc.price * (n as real), req.specialRequests, initialStatus, None, None, None)
  }

  /** `POST /api/bookings`: the checks in the order the handler makes them, the first that fails
      deciding the answer, and the record that is saved when none does. */
  function Admit(catalog: map<string, Service>, bookings: map<nat, Booking>, req: Request, user: string,
                 today: Day, initialStatus: Status): (r: Result<Booking, AdmissionError>)
    ensures r.Success? ==>
      && r.value.user == user && r.value.service == req.serviceId
      && req.serviceId in catalog && catalog[req.serviceId].isActive
      && Some(r.value.date) == req.date && Some(r.value.time) == req.time
      && Some(r.value.numberOfPeople) == req.numberOfPeople && r.value.numberOfPeople >= 1
      && r.value.totalPrice == catalog[req.serviceId].price * (r.value.numberOfPeople as real)
      && r.value.duration == catalog[req.serviceId].duration
      && r.value.store == catalog[req.serviceId].store
      && r.value.specialRequests == req.specialRequests
      && r.value.status == initialStatus
      && r.value.cancelledBy.None? && r.value.cancellationReason.None? && r.value.notes.None?
    ensures r.Failure? && r.error.InvalidRequest? <==> !WellFormed(req)
  {
    var invalid := RequestErrors(req);
    if invalid != [] then Failure(InvalidRequest(invalid))
    else if req.serviceId !in catalog || !catalog[req.serviceId].isActive then Failure(ServiceUnavailable)
    else
      var svc := catalog[req.serviceId];
      var date, time := req.date.value, req.time.value;
      var hours := svc.availability.Get(WeekdayOf(date));
      if date < today then Failure(PastDate)
      else if !hours.isOpen then Failure(ClosedOnDay)
      else if !WithinHours(hours, time) then Failure(OutsideOperatingHours)
      else if SlotTaken(bookings, req.serviceId, date, EndOfSlot(time, svc.duration)) then Failure(SlotConflict)
      else Success(NewBooking(svc, req, user, initialStatus))
  }

  /** The request passes every check before the conflict query. */
  predicate ReachesConflictCheck(catalog: map<string, Service>, req: Request, today: Day) {
    && WellFormed(req)
    && req.serviceId in catalog && catalog[req.serviceId].isActive
    && req.date.value >= today
    && catalog[req.serviceId].availability.Get(WeekdayOf(req.date.value)).isOpen
    && WithinHours(catalog[req.serviceId].availability.Get(WeekdayOf(req.date.value)), req.time.value)
  }

  /** A missing or inactive service is refused once the fields are well formed, whatever the date,
      the time and the bookings. */
  lemma ServiceCheckedFirst(catalog: map<string, Service>, bookings: map<nat, Booking>, req: Request,
                            user: string, today: Day, initialStatus: Status)
    requires WellFormed(req)
    requires req.serviceId !in catalog || !catalog[req.serviceId].isActive
    ensures Admit(catalog, bookings, req, user, today, initialStatus) == Failure(ServiceUnavailable)
  {
  }

  /** A day before today is refused; today itself is not refused as past. */
  lemma PastDaysOnly(catalog: map<string, Service>, bookings: map<nat, Booking>, req: Request,
                     user: string, today: Day, initialStatus: Status)
    requires WellFormed(req)
    requires req.serviceId in catalog && catalog[req.serviceId].isActive
    ensures req.date.value < today ==> Admit(catalog, bookings, req, user, today, initialStatus) == Failure(PastDate)
    ensures req.date.value == today ==> Admit(catalog, bookings, req, user, today, initialStatus) != Failure(PastDate)
  {
  }

  /** A weekday whose entry is closed is refused, and the start time is accepted exactly within
      `[open, close]`, both ends included. */
  lemma DayAndHours(catalog: map<string, Service>, bookings: map<nat, Booking>, req: Request,
                    user: string, today: Day, initialStatus: Status)
    requires WellFormed(req)
    requires req.serviceId in catalog && catalog[req.serviceId].isActive && req.date.value >= today
    ensures var hours := catalog[req.serviceId].availability.Get(WeekdayOf(req.date.value));
      && (!hours.isOpen ==> Admit(catalog, bookings, req, user, today, initialStatus) == Failure(ClosedOnDay))
      && (hours.isOpen ==>
            (Admit(catalog, bookings, req, user, today, initialStatus) == Failure(OutsideOperatingHours) <==>
             (hours.open.Some? && req.time.value < hours.open.value) ||
             (hours.close.Some? && req.time.value > hours.close.value)))
  {
  }

  /** Past the earlier checks, a request is refused as a conflict exactly when some active booking
      of the same service on the same date starts before the candidate's wrapped end. */
  lemma ConflictIff(catalog: map<string, Service>, bookings: map<nat, Booking>, req: Request,
                    user: string, today: Day, initialStatus: Status)
    requires ReachesConflictCheck(catalog, req, today)
    ensures Admit(catalog, bookings, req, user, today, initialStatus) == Failure(SlotConflict) <==>
      exists id | id in bookings ::
        var e := bookings[id];
        && e.service == req.serviceId && e.date == req.date.value && IsActive(e.status)
        && e.time < (req.time.value + catalog[req.serviceId].duration) % 1440
    ensures Admit(catalog, bookings, req, user, today, initialStatus).Success? <==>
      Admit(catalog, bookings, req, user, today, initialStatus) != Failure(SlotConflict)
  {
  }

  /** True overlap of two slots given by start and length, on one day. */
  predicate Overlaps(t1: int, d1: int, t2: int, d2: int) {
    t1 < t2 + d2 && t2 < t1 + d1
  }

  lemma OverlapsSymmetric(t1: int, d1: int, t2: int, d2: int)
    ensures Overlaps(t1, d1, t2, d2) == Overlaps(t2, d2, t1, d1)
  {
  }

  /** When the new slot ends before midnight, an admitted booking overlaps no active booking of the
      same service on the same date: every such booking starts at or after its end. */
  lemma AdmittedNeverOverlaps(catalog: map<string, Service>, bookings: map<nat, Booking>, req: Request,
                              user: string, today: Day, initialStatus: Status, b: Booking)
    requires Admit(catalog, bookings, req, user, today, initialStatus) == Success(b)
    requires b.time + b.duration < 1440 && b.duration >= 0
    ensures forall id | id in bookings && bookings[id].service == b.service && bookings[id].date == b.date
                        && IsActive(bookings[id].status) ::
      bookings[id].time >= b.time + b.duration && !Overlaps(b.time, b.duration, bookings[id].time, bookings[id].duration)
  {
    forall id | id in bookings && bookings[id].service == b.service && bookings[id].date == b.date
                && IsActive(bookings[id].status)
      ensures bookings[id].time >= b.time + b.duration
    {
      assert !Blocks(bookings[id], req.serviceId, b.date, EndOfSlot(b.time, b.duration));
    }
  }

  /** No two active bookings of one service on one date overlap. */
  predicate Disjoint(bookings: map<nat, Booking>) {
    forall i, j | i in bookings && j in bookings && i != j ::
      var a, c := bookings[i], bookings[j];
      a.service == c.service && a.date == c.date && IsActive(a.status) && IsActive(c.status) ==>
        !Overlaps(a.time, a.duration, c.time, c.duration)
  }

  /** Admitting a booking that ends before midnight keeps the schedule free of overlaps. */
  lemma AdmitKeepsDisjoint(catalog: map<string, Service>, bookings: map<nat, Booking>, req: Request,
                           user: string, today: Day, initialStatus: Status, b: Booking, id: nat)
    requires Disjoint(bookings) && id !in bookings
    requires Admit(catalog, bookings, req, user, today, initialStatus) == Success(b)
    requires b.time + b.duration < 1440 && b.duration >= 0
    ensures Disjoint(bookings[id := b])
  {
    AdmittedNeverOverlaps(catalog, bookings, req, user, today, initialStatus, b);
    var after := bookings[id := b];
    forall i, j | i in after && j in after && i != j
      ensures var a, c := after[i], after[j];
        a.service == c.service && a.date == c.date && IsActive(a.status) && IsActive(c.status) ==>
          !Overlaps(a.time, a.duration, c.time, c.duration)
    {
      if i == id {
        OverlapsSymmetric(b.time, b.duration, after[j].time, after[j].duration);
      } else if j != id {
        assert after[i] == bookings[i] && after[j] == bookings[j];
      }
    }
  }

  /** A service open all day on every weekday. */
  function AllDayService(duration: int): Service {
    var h := DayHours(Some(0), Some(1439), true);
    Service("Court", "Tennis court", Fitness, "store1", 10.0, duration, 1, true, Week(h, h, h, h, h, h, h))
  }

  /** The "HH:mm" wrap lets a true overlap through: a 45-minute slot at 23:30 ends at "00:15", and an
      active booking at 23:40 does not start before that. */
  lemma WrapAdmitsOverlap()
    ensures var catalog := map["court" := AllDayService(45)];
      var existing := Booking("u1", "court", "store1", 20000, 1420, 45, 1, 10.0, None, Pending, None, None, None);
      var req := Request("court", Some(20000), Some(1410), Some(1), None);
      var r := Admit(catalog, map[0 := existing], req, "u2", 20000, Pending);
      r.Success? && Overlaps(r.value.time, r.value.duration, existing.time, existing.duration)
  {
    var existing := Booking("u1", "court", "store1", 20000, 1420, 45, 1, 10.0, None, Pending, None, None, None);
    assert !Blocks(existing, "court", 20000, EndOfSlot(1410, 45));
  }

  /** The wrap also admits the very same slot twice when it runs past midnight. */
  lemma WrapAdmitsSameSlotTwice()
    ensures var catalog := map["court" := AllDayService(45)];
      var req := Request("court", Some(20000), Some(1410), Some(1), None);
      var first := Admit(catalog, map[], req, "u1", 20000, Pending);
      && first.Success?
      && Admit(catalog, map[0 := first.value], req, "u2", 20000, Pending).Success?
  {
    var catalog := map["court" := AllDayService(45)];
    var req := Request("court", Some(20000), Some(1410), Some(1), None);
    assert EndOfSlot(1410, 45) == 15;
    assert ReachesConflictCheck(catalog, req, 20000);
    var b := NewBooking(catalog["court"], req, "u1", Pending);
    assert Admit(catalog, map[], req, "u1", 20000, Pending) == Success(b);
    assert !Blocks(b, "court", 20000, 15);
    assert !SlotTaken(map[0 := b], "court", 20000, 15);
  }

  /** The rule is one-sided: a booking that ended before the candidate starts still blocks it. */
  lemma EarlierBookingBlocks(catalog: map<string, Service>, bookings: map<nat, Booking>, req: Request,
                             user: string, today: Day, initialStatus: Status, id: nat)
    requires ReachesConflictCheck(catalog, req, today)
    requires catalog[req.serviceId].duration > 0 && req.time.value + catalog[req.serviceId].duration < 1440
    requires id in bookings && bookings[id].service == req.serviceId && bookings[id].date == req.date.value
    requires IsActive(bookings[id].status) && bookings[id].time <= req.time.value
    ensures Admit(catalog, bookings, req, user, today, initialStatus) == Failure(SlotConflict)
  {
    assert Blocks(bookings[id], req.serviceId, req.date.value, EndOfSlot(req.time.value, catalog[req.serviceId].duration));
  }

  /** Repeating an admitted request, once its booking is saved with an active status, is refused as a
      conflict, provided the slot ends before midnight. */
  lemma SameRequestTwiceConflicts(catalog: map<string, Service>, bookings: map<nat, Booking>, req: Request,
                                  user: string, other: string, today: Day, initialStatus: Status,
                                  b: Booking, id: nat)
    requires Admit(catalog, bookings, req, user, today, initialStatus) == Success(b)
    requires IsActive(initialStatus) && b.duration > 0 && b.time + b.duration < 1440
    ensures Admit(catalog, bookings[id := b], req, other, today, initialStatus) == Failure(SlotConflict)
  {
    assert Blocks(bookings[id := b][id], req.serviceId, b.date, EndOfSlot(b.time, b.duration));
  }

  /** Who may read or cancel a booking: its owner, any admin, and any store manager, whichever store
      the booking belongs to. */
  function MayAccess(b: Booking, who: Requester): (r: bool)
    ensures who.role == Customer ==> (r <==> b.user == who.id)
    ensures who.role != Customer ==> r
  {
    b.user == who.id || who.role == Admin || who.role == StoreManager
  }

  /** How the single-booking routes fail: 404, 403, and two 400s. */
  datatype BookingError = NotFound | NotAuthorized | AlreadyCancelled | CompletedNotCancellable

  function ErrorMessage(e: BookingError): string {
    match e
    case NotFound => "Booking not found"
    case NotAuthorized => "Not authorized"
    case AlreadyCancelled => "Booking is already cancelled"
    case CompletedNotCancellable => "Cannot cancel completed booking"
  }

  function HttpStatus(e: BookingError): (code: int)
    ensures code == 404 <==> e == NotFound
    ensures code == 403 <==> e == NotAuthorized
  {
    match e
    case NotFound => 404
    case NotAuthorized => 403
    case AlreadyCancelled => 400
    case CompletedNotCancellable => 400
  }

  /** How the single-booking routes answer an error: its status code and `{ message }`. */
  function ErrorReply(e: BookingError): (r: Reply)
    ensures r.code == HttpStatus(e) && r.body.MessageBody?
    ensures r.code == 400 ==> e == AlreadyCancelled || e == CompletedNotCancellable
  {
    Reply(HttpStatus(e), MessageBody(ErrorMessage(e)))
  }

  /** Distinct errors give distinct answers, the two 400s differing in their message. */
  lemma ErrorRepliesDistinct(e1: BookingError, e2: BookingError)
    requires ErrorReply(e1) == ErrorReply(e2)
    ensures e1 == e2
  {
  }

  /** `cancelledBy`: 'admin' for an admin, 'store' for a store manager, 'customer' otherwise. */
  function CancellerOf(role: Role): (c: Canceller)
    ensures c == ByAdmin <==> role == Admin
    ensures c == ByStore <==> role == StoreManager
    ensures c == ByCustomer <==> role == Customer
  {
    match role
    case Admin => ByAdmin
    case StoreManager => ByStore
    case Customer => ByCustomer
  }

  const DefaultReason := "Cancelled by user"

  /** `PUT /:id/cancel` on a loaded booking: authorisation, then the two refused statuses, then the
      three fields it writes. */
  function Cancel(b: Booking, who: Requester, reason: Option<string>): (r: Result<Booking, BookingError>)
    ensures r.Success? <==> MayAccess(b, who) && b.status != Cancelled && b.status != Completed
    ensures !MayAccess(b, who) ==> r == Failure(NotAuthorized)
    ensures MayAccess(b, who) && b.status == Cancelled ==> r == Failure(AlreadyCancelled)
    ensures MayAccess(b, who) && b.status == Completed ==> r == Failure(CompletedNotCancellable)
    ensures r.Success? ==>
      && r.value.status == Cancelled
      && r.value.cancelledBy == Some(CancellerOf(who.role))
      && r.value.cancellationReason == Some(if Truthy(reason) then reason.value else DefaultReason)
      && r.value.(status := b.status, cancelledBy := b.cancelledBy, cancellationReason := b.cancellationReason) == b
  {
    if !MayAccess(b, who) then Failure(NotAuthorized)
    else if b.status == Cancelled then Failure(AlreadyCancelled)
    else if b.status == Completed then Failure(CompletedNotCancellable)
    else
      var given := if Truthy(reason) then reason.value else DefaultReason;
      Success(b.(status := Cancelled, cancelledBy := Some(CancellerOf(who.role)), cancellationReason := Some(given)))
  }

  /** The status checks compare the stored strings, as the route does: for a canonical status, cancelling
      is refused exactly on "cancelled" and "completed". */
  lemma CancelComparesNames(b: Booking, who: Requester, reason: Option<string>)
    requires Canonical(b.status) && MayAccess(b, who)
    ensures Cancel(b, who, reason).Success? <==> StatusName(b.status) != "cancelled" && StatusName(b.status) != "completed"
  {
    StatusRoundTrip(b.status, Cancelled);
    StatusRoundTrip(b.status, Completed);
  }

  /** Who may cancel is decided before the status: a stranger is told 403 even for a cancelled
      booking. */
  lemma AuthorisationDecidedFirst(b: Booking, who: Requester, reason: Option<string>)
    requires b.user != who.id && who.role == Customer
    ensures HttpStatus(Cancel(b, who, reason).error) == 403
  {
  }

  /** A cancelled booking cannot be cancelled again, by anyone allowed to try. */
  lemma CancelTwiceRefused(b: Booking, who: Requester, again: Requester, reason: Option<string>, reason2: Option<string>)
    requires Cancel(b, who, reason).Success?
    requires MayAccess(b, again)
    ensures Cancel(Cancel(b, who, reason).value, again, reason2) == Failure(AlreadyCancelled)
  {
  }

  /** A cancelled booking no longer blocks its slot. */
  lemma CancelFreesSlot(b: Booking, who: Requester, reason: Option<string>, serviceId: string, date: Day, end: Minute)
    requires Cancel(b, who, reason).Success?
    ensures !Blocks(Cancel(b, who, reason).value, serviceId, date, end)
  {
  }

  /** `PUT /:id/status` on a loaded booking: the requested status is written whatever the current one,
      and the notes only when non-empty notes are given. */
  function UpdateStatus(b: Booking, status: string, notes: Option<string>): (r: Booking)
    ensures StatusName(r.status) == status && Canonical(r.status)
    ensures Truthy(notes) ==> r.notes == notes
    ensures !Truthy(notes) ==> r.notes == b.notes
    ensures r.(status := b.status, notes := b.notes) == b
  {
    var updated := b.(status := ParseStatus(status));
    if Truthy(notes) then updated.(notes := notes) else updated
  }

  /** There is no transition check: a completed or cancelled booking can be made pending again, and
      then blocks its slot like any active booking. */
  lemma UpdateReopens(b: Booking, end: Minute)
    requires b.status == Completed || b.status == Cancelled
    requires b.time < end
    ensures UpdateStatus(b, "pending", None).status == Pending
    ensures Blocks(UpdateStatus(b, "pending", None), b.service, b.date, end)
  {
  }

  lemma UpdateIdempotent(b: Booking, status: string, notes: Option<string>)
    ensures UpdateStatus(UpdateStatus(b, status, notes), status, notes) == UpdateStatus(b, status, notes)
  {
  }
}
