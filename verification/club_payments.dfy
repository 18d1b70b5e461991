/**
 * Club-side overrides (routes/club.payments.routes.js): a club manager marks any of
 * the club's reservations `paid` or `cancelled`. Neither action checks the prior
 * status, and marking paid records no payment.
 */
module ClubPayments {
  import opened Wrappers
  import opened Records

  /** The reservation exists and belongs to the caller's club. */
  predicate OwnedByClub(db: Db, kind: PayableType, id: Id, clubId: Id) {
    Has(db, kind, id) && Lookup(db, kind, id).value.clubId == clubId
  }

  /** The state a handler leaves behind: the new one on success, the old one on rejection. */
  function After(db: Db, r: Result<Db, Error>): Db {
    if r.Success? then r.value else db
  }

  /**
   * POST `/<kind>/:id/mark-paid`: set the club's reservation to `paid`, whatever it
   * was (`cancelled` included); its status is the only thing that changes and no
   * payment is written.
   */
  function MarkPaid(db: Db, kind: PayableType, clubId: Id, id: Id): (r: Result<Db, Error>)
    ensures r.Success? <==> OwnedByClub(db, kind, id, clubId)
    ensures r.Failure? ==> r.error == NotFound(kind)
    ensures r.Success? ==> OnlyStatusChanged(db, r.value, kind, id, Paid)
  {
    if OwnedByClub(db, kind, id, clubId) then Success(SetStatus(db, kind, id, Paid))
    else Failure(NotFound(kind))
  }

  /**
   * POST `/<kind>/:id/cancel`: set the club's reservation to `cancelled`, whatever it
   * was (`paid` included); its status is the only thing that changes.
   */
  function Cancel(db: Db, kind: PayableType, clubId: Id, id: Id): (r: Result<Db, Error>)
    ensures r.Success? <==> OwnedByClub(db, kind, id, clubId)
    ensures r.Failure? ==> r.error == NotFound(kind)
    ensures r.Success? ==> OnlyStatusChanged(db, r.value, kind, id, Cancelled)
  {
    if OwnedByClub(db, kind, id, clubId) then Success(SetStatus(db, kind, id, Cancelled))
    else Failure(NotFound(kind))
  }

  /** Overwriting a status with the value it already has changes nothing. */
  lemma SetStatusTwice(db: Db, kind: PayableType, id: Id, s: ReservationStatus)
    requires Has(db, kind, id)
    ensures SetStatus(SetStatus(db, kind, id, s), kind, id, s) == SetStatus(db, kind, id, s)
  {
    match kind
    case Facility =>
      var once := SetStatus(db, kind, id, s);
      assert once.bookings[id := once.bookings[id].(status := s)] == once.bookings;
    case Accessory =>
      var once := SetStatus(db, kind, id, s);
      assert once.orders[id := once.orders[id].(status := s)] == once.orders;
    case Coach =>
      var once := SetStatus(db, kind, id, s);
      assert once.coachBookings[id := once.coachBookings[id].(status := s)] == once.coachBookings;
  }

  /** Marking paid twice leaves the same state as marking paid once. */
  lemma MarkPaidIdempotent(db: Db, kind: PayableType, clubId: Id, id: Id)
    ensures var once := After(db, MarkPaid(db, kind, clubId, id));
            After(once, MarkPaid(once, kind, clubId, id)) == once
  {
    if OwnedByClub(db, kind, id, clubId) {
      SetStatusTwice(db, kind, id, Paid);
    }
  }

  /** Cancelling twice leaves the same state as cancelling once. */
  lemma CancelIdempotent(db: Db, kind: PayableType, clubId: Id, id: Id)
    ensures var once := After(db, Cancel(db, kind, clubId, id));
            After(once, Cancel(once, kind, clubId, id)) == once
  {
    if OwnedByClub(db, kind, id, clubId) {
      SetStatusTwice(db, kind, id, Cancelled);
    }
  }
}
