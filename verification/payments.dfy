/**
 * The player's mock payment (routes/payment.routes.js, POST `/pay`): one handler for
 * facility bookings, accessory orders and coach bookings. It normalises the request,
 * finds the caller's own reservation, refuses cancelled and already-paid ones,
 * checks the club, splits the amount into the platform's fee and the club's earning,
 * marks the reservation `paid` and records exactly one payment.
 */
module Payments {
  import opened Wrappers
  import opened Money
  import opened Records

  /**
   * The request body, each field as the request schema sees it: absent, or the
   * string that was sent. `bookingId` is the legacy spelling of `itemId`.
   */
  datatype PayRequest = PayRequest(
    bookingId: Option<Id>,
    itemType: Option<string>,
    itemId: Option<Id>,
    payMethod: Option<string>)

  /** The request schema accepts the body: an `itemType`, when sent, names one of the three kinds. */
  predicate WellFormed(req: PayRequest) {
    req.itemType.Some? ==> ParsePayableType(req.itemType.value).Some?
  }

  /** `itemType || "facility"`, for a body the request schema accepted. */
  function KindOf(req: PayRequest): (k: PayableType)
    ensures req.itemType.None? ==> k == Facility
    ensures WellFormed(req) && req.itemType.Some? ==> Some(k) == ParsePayableType(req.itemType.value)
  {
    match req.itemType
    case None => Facility
    case Some(s) => ParsePayableType(s).GetOr(Facility)
  }

  /** `itemId || bookingId`: the new field wins, an empty string counts as absent. */
  function PayableId(req: PayRequest): (r: Option<Id>)
    ensures r.Some? <==> Given(req.itemId) || Given(req.bookingId)
    ensures r.Some? ==> r.value != ""
    ensures Given(req.itemId) ==> r == req.itemId
    ensures !Given(req.itemId) && Given(req.bookingId) ==> r == req.bookingId
  {
    if Given(req.itemId) then req.itemId
    else if Given(req.bookingId) then req.bookingId
    else None
  }

  /** `method || "card"`. */
  function MethodOf(req: PayRequest): (m: string)
    ensures m != ""
    ensures Given(req.payMethod) ==> m == req.payMethod.value
    ensures !Given(req.payMethod) ==> m == DefaultMethod
  {
    if Given(req.payMethod) then req.payMethod.value else DefaultMethod
  }

  /** The reservation with this id in the kind's collection, if the caller owns it. */
  function FindOwned(db: Db, kind: PayableType, id: Id, caller: Id): (r: Option<Item>)
    ensures r.Some? <==> Has(db, kind, id) && Lookup(db, kind, id).value.playerId == caller
    ensures r.Some? ==> r == Lookup(db, kind, id)
  {
    match Lookup(db, kind, id)
    case Some(item) => if item.playerId == caller then Some(item) else None
    case None => None
  }

  /** The club's commission rate, or 15% when its record carries none. */
  function RateOf(club: Club): real {
    club.commissionRate.GetOr(DefaultCommissionRate)
  }

  /** The checks before anything is written all pass for this reservation. */
  predicate Payable(cat: Catalog, item: Item) {
    && item.status != Cancelled
    && item.status != Paid
    && item.clubId in cat.clubs
    && cat.clubs[item.clubId].approved
    && item.total > 0.0
  }

  /** The request names a reservation of the caller that passes every check. */
  predicate Admitted(db: Db, cat: Catalog, caller: Id, req: PayRequest) {
    && WellFormed(req)
    && PayableId(req).Some?
    && FindOwned(db, KindOf(req), PayableId(req).value, caller).Some?
    && Payable(cat, FindOwned(db, KindOf(req), PayableId(req).value, caller).value)
  }

  /** The payment recorded for an admitted request. */
  function Receipt(kind: PayableType, id: Id, item: Item, rate: real, payMethod: string): (p: Payment)
    ensures RefersTo(p, kind, id)
  {
    var split := Settle(item.total, rate);
    Payment(kind, id, if kind == Facility then Some(id) else None,
            item.playerId, item.clubId, item.total, payMethod, PaymentPaid,
            rate, split.adminFee, split.clubEarning)
  }

  /**
   * POST `/pay`. Every rejection leaves the database as it was. A request that
   * names a reservation of the caller passing every check is paid: exactly one
   * thing happens to the reservations, its status becoming `paid`, and exactly one
   * payment is appended, carrying the amount, a snapshot of the rate, and a fee and
   * earning that add up to the amount.
   */
  function Pay(db: Db, cat: Catalog, caller: Id, req: PayRequest): (r: Result<(Db, Payment), Error>)
    ensures r.Success? <==> Admitted(db, cat, caller, req)
    ensures r == Failure(InvalidRequest) <==> !WellFormed(req)
    ensures r == Failure(MissingId) <==> WellFormed(req) && PayableId(req).None?
    ensures WellFormed(req) && PayableId(req).Some? ==>
      var kind, id := KindOf(req), PayableId(req).value;
      && (r == Failure(NotFound(kind)) <==> FindOwned(db, kind, id, caller).None?)
      && (FindOwned(db, kind, id, caller).Some? ==>
            var item := FindOwned(db, kind, id, caller).value;
            && (r == Failure(ItemCancelled(kind)) <==> item.status == Cancelled)
            && (r == Failure(AlreadyPaid) <==> item.status == Paid)
            && (item.status !in {Cancelled, Paid} ==>
                  && (r == Failure(ClubNotFound) <==> item.clubId !in cat.clubs)
                  && (r == Failure(ClubNotApproved) <==>
                        item.clubId in cat.clubs && !cat.clubs[item.clubId].approved)
                  && (r == Failure(InvalidAmount) <==>
                        item.clubId in cat.clubs && cat.clubs[item.clubId].approved && item.total <= 0.0)))
    ensures r.Success? ==>
      var (db', p) := r.value;
      var kind, id := KindOf(req), PayableId(req).value;
      var item := Lookup(db, kind, id).value;
      && item.status in {Pending, Returned}
      && db'.(payments := db.payments) == SetStatus(db, kind, id, Paid)
      && db'.payments == db.payments + [p]
      && PaymentCount(db'.payments, kind, id) == PaymentCount(db.payments, kind, id) + 1
      && (forall k, i :: (k, i) != (kind, id) ==> PaymentCount(db'.payments, k, i) == PaymentCount(db.payments, k, i))
      && p.payableType == kind && p.payableId == id
      && p.bookingId == (if kind == Facility then Some(id) else None)
      && p.playerId == caller && p.clubId == item.clubId
      && p.amount == item.total
      && p.commissionRate == RateOf(cat.clubs[item.clubId])
      && Settlement(p.adminFee, p.clubEarning) == Settle(p.amount, p.commissionRate)
      && (IsCents(p.amount) ==> p.adminFee + p.clubEarning == p.amount)
      && p.payMethod == MethodOf(req)
      && p.status == PaymentPaid
  {
    if !WellFormed(req) then Failure(InvalidRequest)
    else
      var kind := KindOf(req);
      match PayableId(req)
      case None => Failure(MissingId)
      case Some(id) =>
        match FindOwned(db, kind, id, caller)
        case None => Failure(NotFound(kind))
        case Some(item) =>
          if item.status == Cancelled then Failure(ItemCancelled(kind))
          else if item.status == Paid then Failure(AlreadyPaid)
          else if item.clubId !in cat.clubs then Failure(ClubNotFound)
          else if !cat.clubs[item.clubId].approved then Failure(ClubNotApproved)
          else if item.total <= 0.0 then Failure(InvalidAmount)
          else
            var p := Receipt(kind, id, item, RateOf(cat.clubs[item.clubId]), MethodOf(req));
            PaymentCountsAfterAppend(db.payments, p);
            Success((SetStatus(db, kind, id, Paid).(payments := db.payments + [p]), p))
  }

  /** Appending a payment raises its own reservation's count by one and no other. */
  lemma PaymentCountsAfterAppend(ps: seq<Payment>, p: Payment)
    ensures forall k, i :: PaymentCount(ps + [p], k, i)
                          == PaymentCount(ps, k, i) + (if RefersTo(p, k, i) then 1 else 0)
  {
    forall k, i { PaymentCountAppend(ps, p, k, i); }
  }

  /** Paying the same reservation again, with the same request, is refused as "Already paid". */
  lemma PayTwiceRejected(db: Db, cat: Catalog, caller: Id, req: PayRequest)
    requires Pay(db, cat, caller, req).Success?
    ensures Pay(Pay(db, cat, caller, req).value.0, cat, caller, req) == Failure(AlreadyPaid)
  {
    var db' := Pay(db, cat, caller, req).value.0;
    var kind, id := KindOf(req), PayableId(req).value;
    assert Lookup(db', kind, id) == Some(Lookup(db, kind, id).value.(status := Paid));
  }

  /**
   * A `returned` accessory order passes the status guards: the caller can pay for it
   * (again), and the payment is recorded like any other.
   */
  lemma ReturnedOrderIsPayable(db: Db, cat: Catalog, caller: Id, id: Id)
    requires id != "" && id in db.orders
    requires db.orders[id].playerId == caller && db.orders[id].status == Returned
    requires Payable(cat, Lookup(db, Accessory, id).value)
    ensures Pay(db, cat, caller, PayRequest(None, Some("accessory"), Some(id), None)).Success?
  {
  }
}
