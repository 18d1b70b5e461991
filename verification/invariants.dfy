/**
 * Whole-database invariants and the handlers that keep or break them.
 *
 *  - NoOverlap: two distinct live (non-cancelled) bookings of one club facility never
 *    overlap.
 *  - AllPriced: every facility booking's total is its rounded `base - discount`, the
 *    discount being the member's 20% exactly when `membershipApplied`.
 *  - Ledger: at most one payment per reservation, and a reservation that has one is
 *    `paid` or `cancelled` (so the pay handler's status guard stops a second one).
 *
 * Player create, player cancel and pay keep all three; club cancel and delete keep
 * all three; club mark-paid keeps AllPriced and Ledger but can revive a cancelled
 * booking into an overlap; the analytics update can break each of them.
 */
module Invariants {
  import opened Wrappers
  import opened Money
  import opened Records
  import Bookings
  import Payments
  import ClubPayments
  import ClubAnalytics

  ghost predicate NoOverlap(bookings: map<Id, Booking>) {
    forall a, b | a in bookings && b in bookings && a != b && bookings[a].status != Cancelled ::
      !Bookings.Blocks(bookings[b], bookings[a].clubId, bookings[a].facilityId,
                       bookings[a].startTime, bookings[a].endTime)
  }

  ghost predicate AllPriced(bookings: map<Id, Booking>) {
    forall id | id in bookings :: Bookings.PricedConsistently(bookings[id].pricing)
  }

  ghost predicate Ledger(db: Db) {
    && (forall k, i :: PaymentCount(db.payments, k, i) <= 1)
    && (forall k, i :: PaymentCount(db.payments, k, i) == 1 && Has(db, k, i) ==>
          Lookup(db, k, i).value.status in {Paid, Cancelled})
  }

  ghost predicate Consistent(db: Db) {
    NoOverlap(db.bookings) && AllPriced(db.bookings) && Ledger(db)
  }

  // ---------------------------------------------------------------------------
  // Frame lemmas

  /**
   * `m'` keeps a subset of `m`'s bookings with their facility, times and prices, and
   * revives none: every booking live in `m'` was live in `m`.
   */
  ghost predicate Settles(m: map<Id, Booking>, m': map<Id, Booking>) {
    forall id | id in m' ::
      && id in m
      && m'[id].clubId == m[id].clubId && m'[id].facilityId == m[id].facilityId
      && m'[id].startTime == m[id].startTime && m'[id].endTime == m[id].endTime
      && m'[id].pricing == m[id].pricing
      && (m'[id].status != Cancelled ==> m[id].status != Cancelled)
  }

  /** Dropping, cancelling or confirming bookings keeps the calendar conflict-free and priced. */
  lemma SettlesPreserves(m: map<Id, Booking>, m': map<Id, Booking>)
    requires Settles(m, m')
    ensures NoOverlap(m) ==> NoOverlap(m')
    ensures AllPriced(m) ==> AllPriced(m')
  {
    if NoOverlap(m) {
      forall a, b | a in m' && b in m' && a != b && m'[a].status != Cancelled
        ensures !Bookings.Blocks(m'[b], m'[a].clubId, m'[a].facilityId, m'[a].startTime, m'[a].endTime)
      {
        assert !Bookings.Blocks(m[b], m[a].clubId, m[a].facilityId, m[a].startTime, m[a].endTime);
      }
    }
  }

  /**
   * The payments stay, no reservation appears, and each remaining one keeps its
   * status or ends `paid` or `cancelled`: the ledger still holds.
   */
  lemma LedgerFrame(db: Db, db': Db)
    requires Ledger(db)
    requires db'.payments == db.payments
    requires forall k, i :: Has(db', k, i) ==>
      Has(db, k, i)
      && (Lookup(db', k, i).value.status in {Paid, Cancelled}
          || Lookup(db', k, i).value.status == Lookup(db, k, i).value.status)
    ensures Ledger(db')
  {
  }

  // ---------------------------------------------------------------------------
  // Player create

  /** The new booking is a fresh document: no other collection or payment changes. */
  lemma CreateLookups(db: Db, cat: Catalog, caller: Id, req: Bookings.CreateRequest, newId: Id)
    requires newId !in db.bookings
    requires Bookings.Create(db, cat, caller, req, newId).Success?
    ensures var (db', b) := Bookings.Create(db, cat, caller, req, newId).value;
      && db'.payments == db.payments
      && Lookup(db', Facility, newId) == Some(Item(b.playerId, b.clubId, b.pricing.total, Pending))
      && forall k, i :: (k, i) != (Facility, newId) ==> Lookup(db', k, i) == Lookup(db, k, i)
  {
  }

  /**
   * Creating a booking keeps every invariant. The ledger part assumes the fresh id
   * was never used before, as no payment refers to it.
   */
  lemma CreatePreserves(db: Db, cat: Catalog, caller: Id, req: Bookings.CreateRequest, newId: Id)
    requires newId !in db.bookings
    requires forall j | 0 <= j < |db.payments| :: !RefersTo(db.payments[j], Facility, newId)
    requires Consistent(db)
    requires Bookings.Create(db, cat, caller, req, newId).Success?
    ensures Consistent(Bookings.Create(db, cat, caller, req, newId).value.0)
  {
    var (db', nb) := Bookings.Create(db, cat, caller, req, newId).value;
    forall a, b | a in db'.bookings && b in db'.bookings && a != b && db'.bookings[a].status != Cancelled
      ensures !Bookings.Blocks(db'.bookings[b], db'.bookings[a].clubId, db'.bookings[a].facilityId,
                               db'.bookings[a].startTime, db'.bookings[a].endTime)
    {
      if b == newId {
        var x := db.bookings[a];
        Bookings.OverlapsHalfOpen(x.startTime, x.endTime, nb.startTime, nb.endTime);
        assert !Bookings.Blocks(x, nb.clubId, nb.facilityId, nb.startTime, nb.endTime);
      }
    }
    CreateLookups(db, cat, caller, req, newId);
  }

  // ---------------------------------------------------------------------------
  // Player cancel

  lemma CancelPreserves(db: Db, caller: Id, id: Id)
    requires Consistent(db)
    requires Bookings.Cancel(db, caller, id).Success?
    ensures Consistent(Bookings.Cancel(db, caller, id).value)
  {
    var db' := Bookings.Cancel(db, caller, id).value;
    SettlesPreserves(db.bookings, db'.bookings);
    assert db' == SetStatus(db, Facility, id, Cancelled);
    LedgerFrame(db, db');
  }

  // ---------------------------------------------------------------------------
  // Pay

  /**
   * Paying keeps every invariant, and afterwards the paid reservation has exactly one
   * payment: the one just recorded.
   */
  lemma PayPreserves(db: Db, cat: Catalog, caller: Id, req: Payments.PayRequest)
    requires Consistent(db)
    requires Payments.Pay(db, cat, caller, req).Success?
    ensures var db' := Payments.Pay(db, cat, caller, req).value.0;
      && Consistent(db')
      && PaymentCount(db'.payments, Payments.KindOf(req), Payments.PayableId(req).value) == 1
  {
    var (db', p) := Payments.Pay(db, cat, caller, req).value;
    var kind, id := Payments.KindOf(req), Payments.PayableId(req).value;
    assert db' == SetStatus(db, kind, id, Paid).(payments := db.payments + [p]);
    // The status guard let the item through, so it had no payment yet.
    assert PaymentCount(db.payments, kind, id) == 0;
    PaidOncePreserves(db, p, db');
  }

  /** Marking a live, unpaid reservation `paid` and recording its one payment keeps every invariant. */
  lemma PaidOncePreserves(db: Db, p: Payment, db': Db)
    requires Consistent(db)
    requires Has(db, p.payableType, p.payableId)
    requires Lookup(db, p.payableType, p.payableId).value.status != Cancelled
    requires PaymentCount(db.payments, p.payableType, p.payableId) == 0
    requires db' == SetStatus(db, p.payableType, p.payableId, Paid).(payments := db.payments + [p])
    ensures Consistent(db')
    ensures PaymentCount(db'.payments, p.payableType, p.payableId) == 1
  {
    SettlesPreserves(db.bookings, db'.bookings);
    LedgerAppend(db, db', p);
  }

  /**
   * One payment is recorded against a reservation that had none and is now `paid`,
   * and no other reservation changes: the ledger still holds, with that reservation
   * paid exactly once.
   */
  lemma LedgerAppend(db: Db, db': Db, p: Payment)
    requires Ledger(db)
    requires PaymentCount(db.payments, p.payableType, p.payableId) == 0
    requires db'.payments == db.payments + [p]
    requires Has(db', p.payableType, p.payableId) ==>
      Lookup(db', p.payableType, p.payableId).value.status == Paid
    requires forall k, i :: (k, i) != (p.payableType, p.payableId) ==> Lookup(db', k, i) == Lookup(db, k, i)
    ensures Ledger(db')
    ensures PaymentCount(db'.payments, p.payableType, p.payableId) == 1
  {
    forall k, i
      ensures PaymentCount(db'.payments, k, i)
           == PaymentCount(db.payments, k, i) + (if (k, i) == (p.payableType, p.payableId) then 1 else 0)
    {
      PaymentCountAppend(db.payments, p, k, i);
    }
  }

  // ---------------------------------------------------------------------------
  // Club overrides

  lemma ClubCancelPreserves(db: Db, kind: PayableType, clubId: Id, id: Id)
    requires Consistent(db)
    requires ClubPayments.Cancel(db, kind, clubId, id).Success?
    ensures Consistent(ClubPayments.Cancel(db, kind, clubId, id).value)
  {
    var db' := ClubPayments.Cancel(db, kind, clubId, id).value;
    SettlesPreserves(db.bookings, db'.bookings);
    assert db' == SetStatus(db, kind, id, Cancelled);
    LedgerFrame(db, db');
  }

  /** Marking paid keeps the prices and the ledger (it writes no payment). */
  lemma MarkPaidPreservesPricingAndLedger(db: Db, kind: PayableType, clubId: Id, id: Id)
    requires AllPriced(db.bookings) && Ledger(db)
    requires ClubPayments.MarkPaid(db, kind, clubId, id).Success?
    ensures var db' := ClubPayments.MarkPaid(db, kind, clubId, id).value;
      AllPriced(db'.bookings) && Ledger(db')
  {
    var db' := ClubPayments.MarkPaid(db, kind, clubId, id).value;
    assert db' == SetStatus(db, kind, id, Paid);
    LedgerFrame(db, db');
  }

  lemma DeletePreserves(db: Db, kind: PayableType, clubId: Id, id: Id)
    requires Consistent(db)
    requires ClubAnalytics.Delete(db, kind, clubId, id).Success?
    ensures Consistent(ClubAnalytics.Delete(db, kind, clubId, id).value)
  {
    var db' := ClubAnalytics.Delete(db, kind, clubId, id).value;
    assert db' == Remove(db, kind, id);
    SettlesPreserves(db.bookings, db'.bookings);
    LedgerFrame(db, db');
  }

  /** Editing an accessory order touches no facility booking: the calendar invariants hold on. */
  lemma UpdateOrderKeepsCalendar(db: Db, clubId: Id, id: Id, patch: ClubAnalytics.OrderPatch)
    requires NoOverlap(db.bookings) && AllPriced(db.bookings)
    requires ClubAnalytics.UpdateOrder(db, clubId, id, patch).Success?
    ensures var db' := ClubAnalytics.UpdateOrder(db, clubId, id, patch).value;
      NoOverlap(db'.bookings) && AllPriced(db'.bookings)
  {
  }

  /** Editing a coach booking touches no facility booking: the calendar invariants hold on. */
  lemma UpdateCoachKeepsCalendar(db: Db, clubId: Id, id: Id, patch: ClubAnalytics.CoachPatch)
    requires NoOverlap(db.bookings) && AllPriced(db.bookings)
    requires ClubAnalytics.UpdateCoach(db, clubId, id, patch).Success?
    ensures var db' := ClubAnalytics.UpdateCoach(db, clubId, id, patch).value;
      NoOverlap(db'.bookings) && AllPriced(db'.bookings)
  {
  }

  // ---------------------------------------------------------------------------
  // What the overrides can break

  const Hour: int := Bookings.MillisPerHour

  function Court(start: Millis, end: Millis, status: ReservationStatus): Booking {
    Booking("p1", "c1", "tennis", "f1", start, end, Pricing(100.0, 0.0, 100.0, false), status)
  }

  function DbOf(bookings: map<Id, Booking>): Db {
    Db(bookings, map[], map[], [])
  }

  /**
   * A cancelled booking's slot can be re-booked; marking the cancelled one paid then
   * leaves two live bookings on the same slot.
   */
  lemma MarkPaidCanRevivePastACancellation()
    ensures var db := DbOf(map["b1" := Court(0, 2 * Hour, Pending), "b2" := Court(Hour, 3 * Hour, Cancelled)]);
      && NoOverlap(db.bookings)
      && ClubPayments.MarkPaid(db, Facility, "c1", "b2").Success?
      && !NoOverlap(ClubPayments.MarkPaid(db, Facility, "c1", "b2").value.bookings)
  {
    var db := DbOf(map["b1" := Court(0, 2 * Hour, Pending), "b2" := Court(Hour, 3 * Hour, Cancelled)]);
    var db' := ClubPayments.MarkPaid(db, Facility, "c1", "b2").value;
    assert db'.bookings["b2"].status == Paid;
    assert Bookings.Blocks(db'.bookings["b1"], "c1", "f1", Hour, 3 * Hour);
  }

  /** Moving a booking's times is not checked against the facility's other bookings. */
  lemma UpdateCanCreateOverlap()
    ensures var db := DbOf(map["b1" := Court(0, Hour, Pending), "b2" := Court(Hour, 2 * Hour, Pending)]);
      var patch := ClubAnalytics.FacilityPatch(Some(0), None, None, None);
      && NoOverlap(db.bookings)
      && ClubAnalytics.UpdateFacility(db, "c1", "b2", patch).Success?
      && !NoOverlap(ClubAnalytics.UpdateFacility(db, "c1", "b2", patch).value.bookings)
  {
    var db := DbOf(map["b1" := Court(0, Hour, Pending), "b2" := Court(Hour, 2 * Hour, Pending)]);
    var patch := ClubAnalytics.FacilityPatch(Some(0), None, None, None);
    var db' := ClubAnalytics.UpdateFacility(db, "c1", "b2", patch).value;
    assert db'.bookings["b2"].startTime == 0;
    assert Bookings.Blocks(db'.bookings["b1"], "c1", "f1", 0, 2 * Hour);
  }

  /** Overwriting a total leaves `base` and `discount` behind, so the total no longer follows from them. */
  lemma UpdateTotalBreaksPricing()
    ensures var db := DbOf(map["b1" := Court(0, Hour, Pending)]);
      var patch := ClubAnalytics.FacilityPatch(None, None, None, Some(1.0));
      && AllPriced(db.bookings)
      && ClubAnalytics.UpdateFacility(db, "c1", "b1", patch).Success?
      && !AllPriced(ClubAnalytics.UpdateFacility(db, "c1", "b1", patch).value.bookings)
  {
    Round2OfCents(100.0);
    var db := DbOf(map["b1" := Court(0, Hour, Pending)]);
    var patch := ClubAnalytics.FacilityPatch(None, None, None, Some(1.0));
    var db' := ClubAnalytics.UpdateFacility(db, "c1", "b1", patch).value;
    assert db'.bookings["b1"].pricing == Pricing(100.0, 0.0, 1.0, false);
  }

  /**
   * Pay, reset the status to `pending` through the analytics update, pay again: the
   * same booking now has two payments.
   */
  lemma StatusResetAllowsSecondPayment()
    ensures
      var db0 := DbOf(map["b1" := Court(0, Hour, Pending)]);
      var cat := Catalog(map["c1" := Club(true, None, map[])], map[]);
      var req := Payments.PayRequest(None, None, Some("b1"), None);
      var r1 := Payments.Pay(db0, cat, "p1", req);
      && Ledger(db0)
      && r1.Success?
      && var r2 := ClubAnalytics.UpdateFacility(r1.value.0, "c1", "b1", ClubAnalytics.FacilityPatch(None, None, Some("pending"), None));
      && r2.Success?
      && var r3 := Payments.Pay(r2.value, cat, "p1", req);
      && r3.Success?
      && PaymentCount(r3.value.0.payments, Facility, "b1") == 2
      && !Ledger(r3.value.0)
  {
    var db0 := DbOf(map["b1" := Court(0, Hour, Pending)]);
    var cat := Catalog(map["c1" := Club(true, None, map[])], map[]);
    var req := Payments.PayRequest(None, None, Some("b1"), None);
    assert Payments.PayableId(req) == Some("b1");
    var r1 := Payments.Pay(db0, cat, "p1", req);
    assert r1.Success?;
    var db1 := r1.value.0;
    assert PaymentCount(db1.payments, Facility, "b1") == 1;
    var r2 := ClubAnalytics.UpdateFacility(db1, "c1", "b1", ClubAnalytics.FacilityPatch(None, None, Some("pending"), None));
    assert r2.Success?;
    var db2 := r2.value;
    assert db2.bookings["b1"].status == Pending;
    assert db2.bookings["b1"].pricing.total == 100.0;
    var r3 := Payments.Pay(db2, cat, "p1", req);
    assert r3.Success?;
  }

  function RentalOf(status: Status): AccessoryOrder {
    AccessoryOrder("p1", "c1", "a1", Rent, 1, Some(0), Some(Hour), OrderPricing(10.0, 1.0, 10.0), status)
  }

  function SessionOf(status: ReservationStatus): CoachBooking {
    CoachBooking("p1", "c1", "k1", Personal, Some(0), Some(Hour), None, 1, 40.0, status)
  }

  /**
   * Pay for a rental, mark it `returned` through the analytics update, pay again:
   * `returned` passes the payment guards, so the same order now has two payments
   * and the ledger no longer holds.
   */
  lemma ReturnedOrderPaidTwice()
    ensures
      var db0 := Db(map[], map["o1" := RentalOf(Pending)], map[], []);
      var cat := Catalog(map["c1" := Club(true, None, map[])], map[]);
      var req := Payments.PayRequest(None, Some("accessory"), Some("o1"), None);
      var r1 := Payments.Pay(db0, cat, "p1", req);
      && Ledger(db0)
      && r1.Success?
      && var r2 := ClubAnalytics.UpdateOrder(r1.value.0, "c1", "o1",
                      ClubAnalytics.OrderPatch(None, None, None, None, Some("returned"), None));
      && r2.Success?
      && var r3 := Payments.Pay(r2.value, cat, "p1", req);
      && r3.Success?
      && PaymentCount(r3.value.0.payments, Accessory, "o1") == 2
      && !Ledger(r3.value.0)
  {
    var db0 := Db(map[], map["o1" := RentalOf(Pending)], map[], []);
    var cat := Catalog(map["c1" := Club(true, None, map[])], map[]);
    var req := Payments.PayRequest(None, Some("accessory"), Some("o1"), None);
    assert Payments.KindOf(req) == Accessory && Payments.PayableId(req) == Some("o1");
    var r1 := Payments.Pay(db0, cat, "p1", req);
    assert r1.Success?;
    var db1 := r1.value.0;
    assert PaymentCount(db1.payments, Accessory, "o1") == 1;
    var r2 := ClubAnalytics.UpdateOrder(db1, "c1", "o1",
                ClubAnalytics.OrderPatch(None, None, None, None, Some("returned"), None));
    assert r2.Success?;
    var db2 := r2.value;
    assert db2.orders["o1"].status == Returned;
    assert db2.orders["o1"].pricing.total == 10.0;
    var r3 := Payments.Pay(db2, cat, "p1", req);
    assert r3.Success?;
  }

  /**
   * Pay for a coach session, reset it to `pending` through the analytics update, pay
   * again: the same session now has two payments and the ledger no longer holds.
   */
  lemma CoachResetPaidTwice()
    ensures
      var db0 := Db(map[], map[], map["s1" := SessionOf(Pending)], []);
      var cat := Catalog(map["c1" := Club(true, None, map[])], map[]);
      var req := Payments.PayRequest(None, Some("coach"), Some("s1"), None);
      var r1 := Payments.Pay(db0, cat, "p1", req);
      && Ledger(db0)
      && r1.Success?
      && var r2 := ClubAnalytics.UpdateCoach(r1.value.0, "c1", "s1",
                      ClubAnalytics.CoachPatch(None, None, None, None, None, Some("pending"), None));
      && r2.Success?
      && var r3 := Payments.Pay(r2.value, cat, "p1", req);
      && r3.Success?
      && PaymentCount(r3.value.0.payments, Coach, "s1") == 2
      && !Ledger(r3.value.0)
  {
    var db0 := Db(map[], map[], map["s1" := SessionOf(Pending)], []);
    var cat := Catalog(map["c1" := Club(true, None, map[])], map[]);
    var req := Payments.PayRequest(None, Some("coach"), Some("s1"), None);
    assert Payments.KindOf(req) == Coach && Payments.PayableId(req) == Some("s1");
    var r1 := Payments.Pay(db0, cat, "p1", req);
    assert r1.Success?;
    var db1 := r1.value.0;
    assert PaymentCount(db1.payments, Coach, "s1") == 1;
    var r2 := ClubAnalytics.UpdateCoach(db1, "c1", "s1",
                ClubAnalytics.CoachPatch(None, None, None, None, None, Some("pending"), None));
    assert r2.Success?;
    var db2 := r2.value;
    assert db2.coachBookings["s1"].status == Pending;
    assert db2.coachBookings["s1"].total == 40.0;
    var r3 := Payments.Pay(db2, cat, "p1", req);
    assert r3.Success?;
  }
}
