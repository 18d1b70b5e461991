/**
 * The persisted documents of the reservation core (the Booking, AccessoryOrder,
 * CoachBooking and Payment schemas), the catalog data the handlers read, and the
 * database as one immutable value: a map from document id to document per
 * collection, plus the append-only list of payments.
 *
 * Schema constraints are carried by the types: a field that is required is a plain
 * field, an optional one is an `Option`, an enum is a datatype, and a `min` bound is
 * a subset type. A document that would break them cannot be built, just as Mongoose
 * refuses to save it.
 */
module Records {
  import opened Wrappers

  /** Document ids (Mongo ObjectIds, as their hex strings). */
  type Id = string

  /** Milliseconds since the epoch, the value of a JavaScript `Date`. */
  type Millis = int

  /** A string field of a request body that is present and non-empty, i.e. truthy. */
  predicate Given(s: Option<string>) {
    s.Some? && s.value != ""
  }

  /** The status values any reservation schema admits. */
  datatype Status = Pending | Paid | Cancelled | Returned

  /** The status enum of facility and coach bookings: no `returned`. */
  type ReservationStatus = s: Status | s != Returned witness Pending

  /** The status every reservation document starts in. */
  const DefaultStatus: ReservationStatus := Pending

  /** Parse a status string from a request body against the accessory-order enum. */
  function ParseStatus(s: string): (r: Option<Status>)
    ensures r.Some? <==> s in {"pending", "paid", "cancelled", "returned"}
    ensures r == Some(Pending) <==> s == "pending"
    ensures r == Some(Paid) <==> s == "paid"
    ensures r == Some(Cancelled) <==> s == "cancelled"
    ensures r == Some(Returned) <==> s == "returned"
  {
    if s == "pending" then Some(Pending)
    else if s == "paid" then Some(Paid)
    else if s == "cancelled" then Some(Cancelled)
    else if s == "returned" then Some(Returned)
    else None
  }

  /** Parse a status string against the facility and coach booking enum. */
  function ParseReservationStatus(s: string): (r: Option<ReservationStatus>)
    ensures r.Some? <==> s in {"pending", "paid", "cancelled"}
    ensures r.Some? ==> ParseStatus(s) == Some(r.value)
  {
    match ParseStatus(s)
    case Some(st) => if st == Returned then None else Some(st)
    case None => None
  }

  // ---------------------------------------------------------------------------
  // Facility booking (models/Booking.js)

  datatype Pricing = Pricing(base: real, discount: real, total: real, membershipApplied: bool)

  datatype Booking = Booking(
    playerId: Id,
    clubId: Id,
    sport: string,
    facilityId: Id,
    startTime: Millis,
    endTime: Millis,
    pricing: Pricing,
    status: ReservationStatus)

  // ---------------------------------------------------------------------------
  // Accessory order (models/AccessoryOrder.js)

  datatype OrderType = Rent | Buy

  function ParseOrderType(s: string): (r: Option<OrderType>)
    ensures r.Some? <==> s in {"rent", "buy"}
    ensures r == Some(Rent) <==> s == "rent"
  {
    if s == "rent" then Some(Rent) else if s == "buy" then Some(Buy) else None
  }

  /** `qty` carries `min: 1`. */
  type Qty = q: int | 1 <= q witness 1

  /** Rental hours when none are given. */
  const DefaultOrderHours: real := 0.0

  datatype OrderPricing = OrderPricing(unitPrice: real, hours: real, total: real)

  datatype AccessoryOrder = AccessoryOrder(
    playerId: Id,
    clubId: Id,
    accessoryId: Id,
    orderType: OrderType,
    qty: Qty,
    startTime: Option<Millis>,   // rentals only
    endTime: Option<Millis>,     // rentals only
    pricing: OrderPricing,
    status: Status)

  // ---------------------------------------------------------------------------
  // Coach booking (models/CoachBooking.js)

  datatype CoachType = Personal | Class

  function ParseCoachType(s: string): (r: Option<CoachType>)
    ensures r.Some? <==> s in {"personal", "class"}
    ensures r == Some(Personal) <==> s == "personal"
  {
    if s == "personal" then Some(Personal) else if s == "class" then Some(Class) else None
  }

  /** Participants when none are given. */
  const DefaultParticipants: int := 1

  datatype CoachBooking = CoachBooking(
    playerId: Id,
    clubId: Id,
    coachId: Id,
    coachType: CoachType,
    startTime: Option<Millis>,       // personal sessions
    endTime: Option<Millis>,         // personal sessions
    classDateTime: Option<Millis>,   // class sessions
    participants: int,
    total: real,
    status: ReservationStatus)

  // ---------------------------------------------------------------------------
  // Payment (models/Payment.js)

  /** Which collection a payment or a polymorphic request refers to. */
  datatype PayableType = Facility | Accessory | Coach

  /** Parse an item type string against the payment enum. */
  function ParsePayableType(s: string): (r: Option<PayableType>)
    ensures r.Some? <==> s in {"facility", "accessory", "coach"}
    ensures r == Some(Facility) <==> s == "facility"
    ensures r == Some(Accessory) <==> s == "accessory"
  {
    if s == "facility" then Some(Facility)
    else if s == "accessory" then Some(Accessory)
    else if s == "coach" then Some(Coach)
    else None
  }

  datatype PaymentStatus = PaymentPaid | PaymentRefunded

  /** The payment method when the request names none. */
  const DefaultMethod: string := "card"

  datatype Payment = Payment(
    payableType: PayableType,
    payableId: Id,
    bookingId: Option<Id>,   // legacy, facility payments only
    playerId: Id,
    clubId: Id,
    amount: real,
    payMethod: string,
    status: PaymentStatus,
    commissionRate: real,    // snapshot of the club's rate when paid
    adminFee: real,
    clubEarning: real)

  // ---------------------------------------------------------------------------
  // Catalog data read by the core (clubs and users are owned elsewhere)

  datatype FacilityInfo = FacilityInfo(name: string, sport: string, hourlyPrice: real)

  datatype Club = Club(approved: bool, commissionRate: Option<real>, facilities: map<Id, FacilityInfo>)

  datatype Membership = NoMembership | Member

  datatype Catalog = Catalog(clubs: map<Id, Club>, memberships: map<Id, Membership>)

  // ---------------------------------------------------------------------------
  // The database

  datatype Db = Db(
    bookings: map<Id, Booking>,
    orders: map<Id, AccessoryOrder>,
    coachBookings: map<Id, CoachBooking>,
    payments: seq<Payment>)

  /** A rejection, named after the message the handler answers with. */
  datatype Error =
    | InvalidTimes          // "Invalid startTime/endTime"
    | ClubNotFound          // "Club not found"
    | InvalidFacility       // "Invalid facilityId"
    | SlotAlreadyBooked     // "Time slot already booked"
    | InvalidDuration       // "Invalid duration"
    | NotFound(kind: PayableType)        // "<kind> not found"
    | MissingId             // "Missing booking/order id"
    | ItemCancelled(kind: PayableType)   // "Booking cancelled" / "Order cancelled"
    | AlreadyPaid           // "Already paid"
    | ClubNotApproved       // "Club not approved"
    | InvalidAmount         // "Invalid amount"
    | UpdateFailed          // save refused by schema validation
    | InvalidRequest        // request body or new document refused by its schema

  // ---------------------------------------------------------------------------
  // A uniform view of the three reservation kinds

  /** The fields the polymorphic handlers read from any reservation. */
  datatype Item = Item(playerId: Id, clubId: Id, total: real, status: Status)

  predicate Has(db: Db, kind: PayableType, id: Id) {
    match kind
    case Facility => id in db.bookings
    case Accessory => id in db.orders
    case Coach => id in db.coachBookings
  }

  function Lookup(db: Db, kind: PayableType, id: Id): (r: Option<Item>)
    ensures r.Some? <==> Has(db, kind, id)
  {
    match kind
    case Facility =>
      if id in db.bookings then
        var b := db.bookings[id];
        Some(Item(b.playerId, b.clubId, b.pricing.total, b.status))
      else None
    case Accessory =>
      if id in db.orders then
        var o := db.orders[id];
        Some(Item(o.playerId, o.clubId, o.pricing.total, o.status))
      else None
    case Coach =>
      if id in db.coachBookings then
        var c := db.coachBookings[id];
        Some(Item(c.playerId, c.clubId, c.total, c.status))
      else None
  }

  /**
   * `db'` is `db` with the status of one existing reservation set to `s`: every
   * other field of that document, every other document and the payments are as they were.
   */
  predicate OnlyStatusChanged(db: Db, db': Db, kind: PayableType, id: Id, s: ReservationStatus) {
    && Has(db, kind, id)
    && db'.payments == db.payments
    && match kind
       case Facility =>
         && db'.bookings == db.bookings[id := db.bookings[id].(status := s)]
         && db'.orders == db.orders && db'.coachBookings == db.coachBookings
       case Accessory =>
         && db'.orders == db.orders[id := db.orders[id].(status := s)]
         && db'.bookings == db.bookings && db'.coachBookings == db.coachBookings
       case Coach =>
         && db'.coachBookings == db.coachBookings[id := db.coachBookings[id].(status := s)]
         && db'.bookings == db.bookings && db'.orders == db.orders
  }

  /**
   * Overwrite the status of one existing reservation. Only that document's status
   * changes: the other collections, the other documents and the payments stay.
   */
  function SetStatus(db: Db, kind: PayableType, id: Id, s: ReservationStatus): (r: Db)
    requires Has(db, kind, id)
    ensures Lookup(r, kind, id) == Some(Lookup(db, kind, id).value.(status := s))
    ensures forall k, i :: (k, i) != (kind, id) ==> Lookup(r, k, i) == Lookup(db, k, i)
    ensures OnlyStatusChanged(db, r, kind, id, s)
    ensures r.bookings.Keys == db.bookings.Keys && r.orders.Keys == db.orders.Keys
    ensures r.coachBookings.Keys == db.coachBookings.Keys
  {
    match kind
    case Facility => db.(bookings := db.bookings[id := db.bookings[id].(status := s)])
    case Accessory => db.(orders := db.orders[id := db.orders[id].(status := s)])
    case Coach => db.(coachBookings := db.coachBookings[id := db.coachBookings[id].(status := s)])
  }

  /** Remove one reservation; nothing else changes. */
  function Remove(db: Db, kind: PayableType, id: Id): (r: Db)
    ensures !Has(r, kind, id)
    ensures forall k, i :: (k, i) != (kind, id) ==> Lookup(r, k, i) == Lookup(db, k, i)
    ensures r.payments == db.payments
  {
    match kind
    case Facility => db.(bookings := db.bookings - {id})
    case Accessory => db.(orders := db.orders - {id})
    case Coach => db.(coachBookings := db.coachBookings - {id})
  }

  /** The payment was recorded against this reservation. */
  predicate RefersTo(p: Payment, kind: PayableType, id: Id) {
    p.payableType == kind && p.payableId == id
  }

  /** The number of payments recorded against one reservation. */
  function PaymentCount(ps: seq<Payment>, kind: PayableType, id: Id): (n: nat)
    ensures n <= |ps|
    ensures n == 0 <==> forall j | 0 <= j < |ps| :: !RefersTo(ps[j], kind, id)
  {
    if ps == [] then 0
    else
      var last := ps[|ps| - 1];
      PaymentCount(ps[..|ps| - 1], kind, id) + (if RefersTo(last, kind, id) then 1 else 0)
  }

  /** Appending one payment adds one to its reservation's count and leaves every other count. */
  lemma PaymentCountAppend(ps: seq<Payment>, p: Payment, kind: PayableType, id: Id)
    ensures PaymentCount(ps + [p], kind, id)
         == PaymentCount(ps, kind, id) + (if RefersTo(p, kind, id) then 1 else 0)
  {
    assert (ps + [p])[..|ps|] == ps;
  }
}
