/**
 * Player-side facility bookings (routes/booking.routes.js): the half-open overlap
 * test, the conflict scan over a facility's live bookings, the duration bound, the
 * membership pricing and the create and cancel handlers.
 */
module Bookings {
  import opened Wrappers
  import opened Money
  import opened Records

  /** `1000 * 60 * 60`. */
  const MillisPerHour: int := 3600000

  /** The longest bookable slot, in hours. */
  const MaxHours: real := 8.0

  /** The members' share off the base price. */
  const MemberDiscountRate: real := 0.2

  // ---------------------------------------------------------------------------
  // Intervals

  /** The half-open ranges `[aStart, aEnd)` and `[bStart, bEnd)` intersect. */
  predicate Overlaps(aStart: Millis, aEnd: Millis, bStart: Millis, bEnd: Millis) {
    aStart < bEnd && bStart < aEnd
  }

  /** Instant `t` lies in the half-open range `[start, end)`. */
  predicate Within(t: Millis, start: Millis, end: Millis) {
    start <= t < end
  }

  /** Overlap does not depend on argument order, and ranges that only touch do not overlap. */
  lemma OverlapsHalfOpen(aStart: Millis, aEnd: Millis, bStart: Millis, bEnd: Millis)
    ensures Overlaps(aStart, aEnd, bStart, bEnd) <==> Overlaps(bStart, bEnd, aStart, aEnd)
    ensures !Overlaps(aStart, aEnd, aEnd, bEnd)
    ensures !Overlaps(bStart, aStart, aStart, aEnd)
  {
  }

  /** For non-empty ranges, overlapping means sharing at least one instant. */
  lemma OverlapsIffSharedInstant(aStart: Millis, aEnd: Millis, bStart: Millis, bEnd: Millis)
    requires aStart < aEnd && bStart < bEnd
    ensures Overlaps(aStart, aEnd, bStart, bEnd)
        <==> exists t :: Within(t, aStart, aEnd) && Within(t, bStart, bEnd)
  {
    if Overlaps(aStart, aEnd, bStart, bEnd) {
      var t := if aStart < bStart then bStart else aStart;
      assert Within(t, aStart, aEnd) && Within(t, bStart, bEnd);
    }
  }

  // ---------------------------------------------------------------------------
  // Conflicts

  /** Booking `b` stands in the way of `[start, end)` on the given club's facility. */
  predicate Blocks(b: Booking, clubId: Id, facilityId: Id, start: Millis, end: Millis) {
    && b.clubId == clubId
    && b.facilityId == facilityId
    && b.status != Cancelled
    && Overlaps(start, end, b.startTime, b.endTime)
  }

  /** Some stored booking stands in the way of `[start, end)`. */
  predicate SlotTaken(bookings: map<Id, Booking>, clubId: Id, facilityId: Id, start: Millis, end: Millis) {
    exists id | id in bookings :: Blocks(bookings[id], clubId, facilityId, start, end)
  }

  /**
   * The conflict scan: walk the facility's non-cancelled bookings and stop at the
   * first that overlaps the request. It finds one exactly when the slot is taken.
   */
  method FindConflict(bookings: map<Id, Booking>, clubId: Id, facilityId: Id, start: Millis, end: Millis)
    returns (conflict: Option<Id>)
    ensures conflict.None? <==> !SlotTaken(bookings, clubId, facilityId, start, end)
    ensures conflict.Some? ==>
      conflict.value in bookings && Blocks(bookings[conflict.value], clubId, facilityId, start, end)
  {
    var unseen := bookings.Keys;
    while unseen != {}
      invariant unseen <= bookings.Keys
      invariant forall id | id in bookings.Keys - unseen :: !Blocks(bookings[id], clubId, facilityId, start, end)
      decreases unseen
    {
      var id :| id in unseen;
      var b := bookings[id];
      if b.clubId == clubId && b.facilityId == facilityId && b.status != Cancelled
        && Overlaps(start, end, b.startTime, b.endTime)
      {
        return Some(id);
      }
      unseen := unseen - {id};
    }
    return None;
  }

  // ---------------------------------------------------------------------------
  // Duration and price

  /** The requested length in hours. */
  function Hours(start: Millis, end: Millis): real {
    (end - start) as real / MillisPerHour as real
  }

  /** The duration check `0 < hours <= 8`, stated on milliseconds: at most 28 800 000 ms. */
  lemma DurationBound(start: Millis, end: Millis)
    ensures 0.0 < Hours(start, end) <==> start < end
    ensures Hours(start, end) <= MaxHours <==> end - start <= 8 * MillisPerHour
  {
  }

  /**
   * The booking price: `base = hourlyPrice * hours`, a 20% discount for members
   * only, and the total rounded to cents. `base` and `discount` keep full precision.
   */
  function Quote(hourlyPrice: real, hours: real, isMember: bool): (p: Pricing)
    ensures p.base == hourlyPrice * hours
    ensures p.membershipApplied == isMember
    ensures p.base - p.discount == (if isMember then 0.8 else 1.0) * (hourlyPrice * hours)
    ensures p.discount != 0.0 <==> isMember && p.base != 0.0
    ensures IsCents(p.total)
    ensures p.base - p.discount - 0.005 < p.total <= p.base - p.discount + 0.005
  {
    var base := hourlyPrice * hours;
    var discount := if isMember then base * MemberDiscountRate else 0.0;
    Pricing(base, discount, Round2(base - discount), isMember)
  }

  /** Every booking stored through `Create` keeps this relation between its prices. */
  predicate PricedConsistently(p: Pricing) {
    && p.total == Round2(p.base - p.discount)
    && p.discount == (if p.membershipApplied then p.base * MemberDiscountRate else 0.0)
  }

  /** 50 an hour for two hours: 100 / 0 / 100 for a non-member, 100 / 20 / 80 for a member. */
  lemma QuoteExamples()
    ensures Quote(50.0, 2.0, false) == Pricing(100.0, 0.0, 100.0, false)
    ensures Quote(50.0, 2.0, true) == Pricing(100.0, 20.0, 80.0, true)
  {
    Round2OfCents(100.0);
    Round2OfCents(80.0);
  }

  // ---------------------------------------------------------------------------
  // Handlers

  /** A create request; a time is `None` when its string is not a parseable date. */
  datatype CreateRequest = CreateRequest(
    clubId: Id,
    sport: string,
    facilityId: Id,
    startTime: Option<Millis>,
    endTime: Option<Millis>)

  predicate ValidTimes(req: CreateRequest) {
    req.startTime.Some? && req.endTime.Some? && req.startTime.value < req.endTime.value
  }

  /** The club exists and has been approved. */
  predicate ApprovedClub(cat: Catalog, clubId: Id) {
    clubId in cat.clubs && cat.clubs[clubId].approved
  }

  /** The request names valid times and an existing facility of an approved club. */
  predicate Admissible(cat: Catalog, req: CreateRequest) {
    ValidTimes(req) && ApprovedClub(cat, req.clubId) && req.facilityId in cat.clubs[req.clubId].facilities
  }

  /** The caller's user record says `membership: "member"`; a missing user is no member. */
  predicate IsMember(cat: Catalog, player: Id) {
    player in cat.memberships && cat.memberships[player] == Member
  }

  /**
   * POST `/`: book a facility for `[startTime, endTime)`. The checks run in the
   * source's order: times, club, facility, conflicts, duration, and last the
   * schema's refusal of an empty `sport` when the document is saved. A booking is stored
   * under the fresh id `newId` only when every check passes; it is `pending`, owned
   * by the caller, priced by `Quote`, and overlaps no live booking of that facility.
   */
  function Create(db: Db, cat: Catalog, caller: Id, req: CreateRequest, newId: Id): (r: Result<(Db, Booking), Error>)
    requires newId !in db.bookings
    ensures r == Failure(InvalidTimes) <==> !ValidTimes(req)
    ensures r == Failure(ClubNotFound) <==> ValidTimes(req) && !ApprovedClub(cat, req.clubId)
    ensures r == Failure(InvalidFacility)
        <==> ValidTimes(req) && ApprovedClub(cat, req.clubId) && req.facilityId !in cat.clubs[req.clubId].facilities
    ensures r == Failure(SlotAlreadyBooked)
        <==> Admissible(cat, req)
             && SlotTaken(db.bookings, req.clubId, req.facilityId, req.startTime.value, req.endTime.value)
    ensures r == Failure(InvalidDuration)
        <==> Admissible(cat, req)
             && !SlotTaken(db.bookings, req.clubId, req.facilityId, req.startTime.value, req.endTime.value)
             && req.endTime.value - req.startTime.value > 8 * MillisPerHour
    ensures r == Failure(InvalidRequest)
        <==> Admissible(cat, req)
             && !SlotTaken(db.bookings, req.clubId, req.facilityId, req.startTime.value, req.endTime.value)
             && req.endTime.value - req.startTime.value <= 8 * MillisPerHour
             && req.sport == ""
    ensures r.Success?
        <==> Admissible(cat, req)
             && !SlotTaken(db.bookings, req.clubId, req.facilityId, req.startTime.value, req.endTime.value)
             && req.endTime.value - req.startTime.value <= 8 * MillisPerHour
             && req.sport != ""
    ensures r.Success? ==>
      var (db', b) := r.value;
      && Admissible(cat, req)
      && db' == db.(bookings := db.bookings[newId := b])
      && b.playerId == caller && b.clubId == req.clubId && b.facilityId == req.facilityId
      && b.sport == req.sport
      && b.startTime == req.startTime.value && b.endTime == req.endTime.value
      && 0 < b.endTime - b.startTime <= 8 * MillisPerHour
      && b.status == Pending
      && b.pricing == Quote(cat.clubs[req.clubId].facilities[req.facilityId].hourlyPrice,
                            Hours(b.startTime, b.endTime), IsMember(cat, caller))
      && PricedConsistently(b.pricing)
      && forall id | id in db.bookings :: !Blocks(db.bookings[id], b.clubId, b.facilityId, b.startTime, b.endTime)
  {
    if !ValidTimes(req) then Failure(InvalidTimes)
    else if !ApprovedClub(cat, req.clubId) then Failure(ClubNotFound)
    else if req.facilityId !in cat.clubs[req.clubId].facilities then Failure(InvalidFacility)
    else
      var start, end := req.startTime.value, req.endTime.value;
      if SlotTaken(db.bookings, req.clubId, req.facilityId, start, end) then Failure(SlotAlreadyBooked)
      else
        var hours := Hours(start, end);
        DurationBound(start, end);
        if hours <= 0.0 || hours > MaxHours then Failure(InvalidDuration)
        else if req.sport == "" then Failure(InvalidRequest)  // `sport` is required, and `""` fails that
        else
          var facility := cat.clubs[req.clubId].facilities[req.facilityId];
          var b := Booking(caller, req.clubId, req.sport, req.facilityId, start, end,
                           Quote(facility.hourlyPrice, hours, IsMember(cat, caller)), DefaultStatus);
          Success((db.(bookings := db.bookings[newId := b]), b))
  }

  /**
   * POST `/:id/cancel`: the caller's own booking becomes `cancelled`, whatever its
   * status was (`paid` included). Nothing but that status changes; a booking that
   * is missing or belongs to someone else is "not found".
   */
  function Cancel(db: Db, caller: Id, id: Id): (r: Result<Db, Error>)
    ensures r.Success? <==> id in db.bookings && db.bookings[id].playerId == caller
    ensures r.Failure? ==> r.error == NotFound(Facility)
    ensures r.Success? ==>
      && r.value.bookings == db.bookings[id := db.bookings[id].(status := Cancelled)]
      && r.value.orders == db.orders && r.value.coachBookings == db.coachBookings
      && r.value.payments == db.payments
  {
    if id in db.bookings && db.bookings[id].playerId == caller then
      Success(SetStatus(db, Facility, id, Cancelled))
    else
      Failure(NotFound(Facility))
  }

  /**
   * The create handler as the source runs it, one check after another, with the
   * conflict found by the linear scan. It answers exactly what `Create` specifies.
   */
  method CreateStep(db: Db, cat: Catalog, caller: Id, req: CreateRequest, newId: Id)
    returns (r: Result<(Db, Booking), Error>)
    requires newId !in db.bookings
    ensures r == Create(db, cat, caller, req, newId)
  {
    if !ValidTimes(req) {
      return Failure(InvalidTimes);
    }
    if !ApprovedClub(cat, req.clubId) {
      return Failure(ClubNotFound);
    }
    var club := cat.clubs[req.clubId];
    if req.facilityId !in club.facilities {
      return Failure(InvalidFacility);
    }
    var start, end := req.startTime.value, req.endTime.value;
    var conflict := FindConflict(db.bookings, req.clubId, req.facilityId, start, end);
    if conflict.Some? {
      return Failure(SlotAlreadyBooked);
    }
    var hours := Hours(start, end);
    if hours <= 0.0 || hours > MaxHours {
      return Failure(InvalidDuration);
    }
    if req.sport == "" {
      return Failure(InvalidRequest);
    }
    var pricing := Quote(club.facilities[req.facilityId].hourlyPrice, hours, IsMember(cat, caller));
    var b := Booking(caller, req.clubId, req.sport, req.facilityId, start, end, pricing, DefaultStatus);
    return Success((db.(bookings := db.bookings[newId := b]), b));
  }
}
