/**
 * The club analytics screen's write actions (routes/club.analytics.routes.js):
 * mark-paid, field-overwriting updates and deletes for the three reservation kinds.
 * Updates overwrite whatever fields the body supplies, with no time-order check, no
 * conflict scan and no re-pricing; only the schema's own validation on save can
 * refuse them ("Update failed", nothing stored).
 */
module ClubAnalytics {
  import opened Wrappers
  import opened Records
  import ClubPayments

  /**
   * PATCH `/analytics/<kind>/:id/mark-paid`. The extra `paymentStatus` field it sets
   * is not in any schema and is dropped on save, so the effect is that of the
   * club payments mark-paid: only the status changes, to `paid`, and no payment is written.
   */
  function MarkPaid(db: Db, kind: PayableType, clubId: Id, id: Id): (r: Result<Db, Error>)
    ensures r.Success? <==> ClubPayments.OwnedByClub(db, kind, id, clubId)
    ensures r.Failure? ==> r.error == NotFound(kind)
    ensures r.Success? ==> OnlyStatusChanged(db, r.value, kind, id, Paid)
  {
    ClubPayments.MarkPaid(db, kind, clubId, id)
  }

  // ---------------------------------------------------------------------------
  // Facility bookings

  /** The updatable fields of a facility booking; absent or empty means "keep". */
  datatype FacilityPatch = FacilityPatch(
    startTime: Option<Millis>,
    endTime: Option<Millis>,
    status: Option<string>,
    total: Option<real>)

  /** The patch passes the booking schema: a status, when given, is in the booking enum. */
  predicate FacilityPatchValid(patch: FacilityPatch) {
    Given(patch.status) ==> ParseReservationStatus(patch.status.value).Some?
  }

  /**
   * PUT `/analytics/facility/:id`. Supplied times, status and total are written as
   * given; `base`, `discount`, `membershipApplied`, the owner, club, sport and
   * facility are kept. A status outside the booking enum (`returned` included)
   * fails validation and nothing is stored.
   */
  function UpdateFacility(db: Db, clubId: Id, id: Id, patch: FacilityPatch): (r: Result<Db, Error>)
    ensures r.Success? <==> ClubPayments.OwnedByClub(db, Facility, id, clubId) && FacilityPatchValid(patch)
    ensures r == Failure(NotFound(Facility)) <==> !ClubPayments.OwnedByClub(db, Facility, id, clubId)
    ensures r == Failure(UpdateFailed) <==>
      ClubPayments.OwnedByClub(db, Facility, id, clubId)
      && Given(patch.status) && patch.status.value !in {"pending", "paid", "cancelled"}
    ensures r.Success? ==> id in db.bookings && id in r.value.bookings
    ensures r.Success? ==>
      var b, b' := db.bookings[id], r.value.bookings[id];
      && r.value.bookings == db.bookings[id := b']
      && r.value.orders == db.orders && r.value.coachBookings == db.coachBookings
      && r.value.payments == db.payments
      && b'.startTime == patch.startTime.GetOr(b.startTime)
      && b'.endTime == patch.endTime.GetOr(b.endTime)
      && (Given(patch.status) ==> ParseStatus(patch.status.value) == Some(b'.status))
      && (!Given(patch.status) ==> b'.status == b.status)
      && b'.pricing.total == patch.total.GetOr(b.pricing.total)
      && b'.pricing.base == b.pricing.base && b'.pricing.discount == b.pricing.discount
      && b'.pricing.membershipApplied == b.pricing.membershipApplied
      && b'.playerId == b.playerId && b'.clubId == b.clubId
      && b'.sport == b.sport && b'.facilityId == b.facilityId
  {
    if !ClubPayments.OwnedByClub(db, Facility, id, clubId) then Failure(NotFound(Facility))
    else
      var b := db.bookings[id];
      var status := if Given(patch.status) then ParseReservationStatus(patch.status.value) else Some(b.status);
      if status.None? then Failure(UpdateFailed)
      else
        var b' := b.(startTime := patch.startTime.GetOr(b.startTime),
                     endTime := patch.endTime.GetOr(b.endTime),
                     status := status.value,
                     pricing := b.pricing.(total := patch.total.GetOr(b.pricing.total)));
        Success(db.(bookings := db.bookings[id := b']))
  }

  // ---------------------------------------------------------------------------
  // Accessory orders

  datatype OrderPatch = OrderPatch(
    qty: Option<int>,
    orderType: Option<string>,
    startTime: Option<Millis>,
    endTime: Option<Millis>,
    status: Option<string>,
    total: Option<real>)

  /** The patch passes the order schema: `qty >= 1`, a known type, a known status. */
  predicate OrderPatchValid(patch: OrderPatch) {
    && (patch.qty.Some? ==> patch.qty.value >= 1)
    && (Given(patch.orderType) ==> ParseOrderType(patch.orderType.value).Some?)
    && (Given(patch.status) ==> ParseStatus(patch.status.value).Some?)
  }

  /**
   * PUT `/analytics/accessory/:id`. Supplied qty, type, times, status and total are
   * written as given; the owner, club, accessory, unit price and hours are kept. A
   * qty below 1, an unknown type or an unknown status fails validation and nothing
   * is stored.
   */
  function UpdateOrder(db: Db, clubId: Id, id: Id, patch: OrderPatch): (r: Result<Db, Error>)
    ensures r.Success? <==> ClubPayments.OwnedByClub(db, Accessory, id, clubId) && OrderPatchValid(patch)
    ensures r == Failure(NotFound(Accessory)) <==> !ClubPayments.OwnedByClub(db, Accessory, id, clubId)
    ensures r == Failure(UpdateFailed) <==>
      ClubPayments.OwnedByClub(db, Accessory, id, clubId) && !OrderPatchValid(patch)
    ensures r.Success? ==> id in db.orders && id in r.value.orders
    ensures r.Success? ==>
      var o, o' := db.orders[id], r.value.orders[id];
      && r.value.orders == db.orders[id := o']
      && r.value.bookings == db.bookings && r.value.coachBookings == db.coachBookings
      && r.value.payments == db.payments
      && o'.qty as int == patch.qty.GetOr(o.qty)
      && (Given(patch.orderType) ==> Some(o'.orderType) == ParseOrderType(patch.orderType.value))
      && (!Given(patch.orderType) ==> o'.orderType == o.orderType)
      && o'.startTime == (if patch.startTime.Some? then patch.startTime else o.startTime)
      && o'.endTime == (if patch.endTime.Some? then patch.endTime else o.endTime)
      && (Given(patch.status) ==> Some(o'.status) == ParseStatus(patch.status.value))
      && (!Given(patch.status) ==> o'.status == o.status)
      && o'.pricing.total == patch.total.GetOr(o.pricing.total)
      && o'.pricing.unitPrice == o.pricing.unitPrice && o'.pricing.hours == o.pricing.hours
      && o'.playerId == o.playerId && o'.clubId == o.clubId && o'.accessoryId == o.accessoryId
  {
    if !ClubPayments.OwnedByClub(db, Accessory, id, clubId) then Failure(NotFound(Accessory))
    else if !OrderPatchValid(patch) then Failure(UpdateFailed)
    else
      var o := db.orders[id];
      var o' := o.(qty := if patch.qty.Some? then patch.qty.value else o.qty,
                   orderType := if Given(patch.orderType) then ParseOrderType(patch.orderType.value).value
                                else o.orderType,
                   startTime := if patch.startTime.Some? then patch.startTime else o.startTime,
                   endTime := if patch.endTime.Some? then patch.endTime else o.endTime,
                   status := if Given(patch.status) then ParseStatus(patch.status.value).value else o.status,
                   pricing := o.pricing.(total := patch.total.GetOr(o.pricing.total)));
      Success(db.(orders := db.orders[id := o']))
  }

  // ---------------------------------------------------------------------------
  // Coach bookings

  datatype CoachPatch = CoachPatch(
    coachType: Option<string>,
    startTime: Option<Millis>,
    endTime: Option<Millis>,
    classDateTime: Option<Millis>,
    participants: Option<int>,
    status: Option<string>,
    total: Option<real>)

  /** The patch passes the coach-booking schema: a known type, a status other than `returned`. */
  predicate CoachPatchValid(patch: CoachPatch) {
    && (Given(patch.coachType) ==> ParseCoachType(patch.coachType.value).Some?)
    && (Given(patch.status) ==> ParseReservationStatus(patch.status.value).Some?)
  }

  /**
   * PUT `/analytics/coach/:id`. Supplied type, times, class time, participants,
   * status and total are written as given; the owner, club and coach are kept. An
   * unknown type or a status outside the coach-booking enum fails validation and
   * nothing is stored.
   */
  function UpdateCoach(db: Db, clubId: Id, id: Id, patch: CoachPatch): (r: Result<Db, Error>)
    ensures r.Success? <==> ClubPayments.OwnedByClub(db, Coach, id, clubId) && CoachPatchValid(patch)
    ensures r == Failure(NotFound(Coach)) <==> !ClubPayments.OwnedByClub(db, Coach, id, clubId)
    ensures r == Failure(UpdateFailed) <==>
      ClubPayments.OwnedByClub(db, Coach, id, clubId) && !CoachPatchValid(patch)
    ensures r.Success? ==> id in db.coachBookings && id in r.value.coachBookings
    ensures r.Success? ==>
      var c, c' := db.coachBookings[id], r.value.coachBookings[id];
      && r.value.coachBookings == db.coachBookings[id := c']
      && r.value.bookings == db.bookings && r.value.orders == db.orders
      && r.value.payments == db.payments
      && (Given(patch.coachType) ==> Some(c'.coachType) == ParseCoachType(patch.coachType.value))
      && (!Given(patch.coachType) ==> c'.coachType == c.coachType)
      && c'.startTime == (if patch.startTime.Some? then patch.startTime else c.startTime)
      && c'.endTime == (if patch.endTime.Some? then patch.endTime else c.endTime)
      && c'.classDateTime == (if patch.classDateTime.Some? then patch.classDateTime else c.classDateTime)
      && c'.participants == patch.participants.GetOr(c.participants)
      && (Given(patch.status) ==> ParseStatus(patch.status.value) == Some(c'.status))
      && (!Given(patch.status) ==> c'.status == c.status)
      && c'.total == patch.total.GetOr(c.total)
      && c'.playerId == c.playerId && c'.clubId == c.clubId && c'.coachId == c.coachId
  {
    if !ClubPayments.OwnedByClub(db, Coach, id, clubId) then Failure(NotFound(Coach))
    else if !CoachPatchValid(patch) then Failure(UpdateFailed)
    else
      var c := db.coachBookings[id];
      var s := if Given(patch.status) then ParseReservationStatus(patch.status.value).value else c.status;
      var c' := c.(coachType := if Given(patch.coachType) then ParseCoachType(patch.coachType.value).value
                                else c.coachType,
                   startTime := if patch.startTime.Some? then patch.startTime else c.startTime,
                   endTime := if patch.endTime.Some? then patch.endTime else c.endTime,
                   classDateTime := if patch.classDateTime.Some? then patch.classDateTime else c.classDateTime,
                   participants := patch.participants.GetOr(c.participants),
                   status := s,
                   total := patch.total.GetOr(c.total));
      Success(db.(coachBookings := db.coachBookings[id := c']))
  }

  // ---------------------------------------------------------------------------
  // Deletes

  /**
   * DELETE `/analytics/<kind>/:id`: remove the club's reservation; any payment that
   * refers to it stays. A reservation of another club, or none, is "not found".
   */
  function Delete(db: Db, kind: PayableType, clubId: Id, id: Id): (r: Result<Db, Error>)
    ensures r.Success? <==> ClubPayments.OwnedByClub(db, kind, id, clubId)
    ensures r.Failure? ==> r.error == NotFound(kind)
    ensures r.Success? ==>
      && !Has(r.value, kind, id)
      && (forall k, i :: (k, i) != (kind, id) ==> Lookup(r.value, k, i) == Lookup(db, k, i))
      && r.value.payments == db.payments
  {
    if ClubPayments.OwnedByClub(db, kind, id, clubId) then Success(Remove(db, kind, id))
    else Failure(NotFound(kind))
  }
}
