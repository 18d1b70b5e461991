# Sports-hub reservation core in Dafny

A model of the reservation lifecycle and the money logic of a multi-club sports
marketplace backend. Players book club facilities and pay for facility bookings,
accessory orders and coach bookings. Club managers can mark reservations paid,
cancel, edit or delete them. Every route handler is one atomic step over an
immutable database value:

- one `map<Id, _>` per collection (bookings, accessory orders, coach bookings);
- an append-only `seq<Payment>`.

Each handler returns `Success` with the new state, or `Failure` with the rejection
it answers with. A rejection carries no state, so it changes nothing. Catalog data
owned elsewhere is passed in as a `Catalog` value: club approval, commission rate,
facilities with hourly prices, and user membership.

Modules follow the source files:

- `Money`: rounding to cents (`Math.round(x * 100) / 100`) and the commission split.
- `Records`: the Booking, AccessoryOrder, CoachBooking and Payment schemas, the
  catalog, the database, and a uniform view of the three reservation kinds. Schema
  enums are datatypes. `qty >= 1` and the bookings' "no `returned`" status are
  subset types.
- `Bookings`: `routes/booking.routes.js`. Covers overlap, the conflict scan, the
  duration bound, pricing, create and cancel.
- `Payments`: `routes/payment.routes.js`, the polymorphic `POST /pay`.
- `ClubPayments`: `routes/club.payments.routes.js`, the club's mark-paid and cancel.
- `ClubAnalytics`: the write handlers of `routes/club.analytics.routes.js`
  (mark-paid, PUT updates, DELETE).
- `Invariants`: three database invariants, and which handlers keep or break them.
  - No two live bookings of one facility overlap.
  - Every booking's total follows from its base and discount.
  - At most one payment exists per reservation.

Behaviour of the code that the model states as it is:

- Player cancel and club cancel have no status guard: a `paid` reservation can be
  cancelled.
- `POST /pay` guards only against `cancelled` and `paid`, so a `returned` accessory
  order can be paid (`Payments.ReturnedOrderIsPayable`).
- The member discount is 20% of the base, so a member booking a facility whose hourly
  price is 0 gets a discount of 0. `Bookings.Quote` states when the discount is
  non-zero: exactly when the player is a member and the base is non-zero.
- Fee plus earning lies within half a cent of the amount, and equals it exactly
  whenever the amount is a whole number of cents (`Money.Settle`).
- The club schema has no `commissionRate` field, so the rate read at payment time is
  normally absent and 0.15 applies. The catalog carries it as `Option<real>`.
- The `hours <= 0` half of the duration check can never fire. Times were already
  required to satisfy `start < end` (`Bookings.DurationBound`).
- Booking create checks the schema's required `sport` only when the document is
  saved, after every other check. An empty string fails it, and the handler answers
  400 (`InvalidRequest`).
- The club's edits of orders and coach bookings can reopen a paid reservation
  (`returned`, or back to `pending`), and `POST /pay` then records a second payment.

## Model

| member | source | states |
|---|---|---|
| `Money.Round2` | src/routes/payment.routes.js:80-81 | The rounded value is a whole number of cents in `(x - 0.005, x + 0.005]`, i.e. half-way cases round up |
| `Money.Round2Unique` | src/routes/booking.routes.js:63 | Any whole number of cents in that half-cent window is the rounded value, so rounding is fully determined by the window |
| `Money.Round2OfCents` | src/routes/payment.routes.js:81 | Rounding an amount that is already in cents returns it unchanged |
| `Money.NonNegativeParts` | src/routes/payment.routes.js:80-81 | Cents parts rounded from a share in [0, amount] and from the remainder are not negative |
| `Money.Settle` | src/routes/payment.routes.js:79-81 | Fee and earning are whole cents. The fee is within half a cent of `amount × rate`. Fee plus earning equals the amount exactly when the amount is in cents, and is within half a cent otherwise. Neither part is negative for a rate in [0, 1] |
| `Money.SettleEightyAtDefaultRate` | src/routes/payment.routes.js:79-81 | 80.00 at the default 0.15 rate splits into 12.00 and 68.00 |
| `Records.ParseStatus` | src/models/AccessoryOrder.js:22 | A status string is accepted exactly when it is one of `pending`, `paid`, `cancelled`, `returned`, and maps to that value |
| `Records.ParseReservationStatus` | src/models/Booking.js:21 | Facility (and coach) booking status accepts exactly `pending`, `paid`, `cancelled`. `returned` is refused |
| `Records.ParseOrderType` | src/models/AccessoryOrder.js:9 | Order type is exactly `rent` or `buy` |
| `Records.ParseCoachType` | src/models/CoachBooking.js:9 | Coach booking type is exactly `personal` or `class` |
| `Records.ParsePayableType` | src/routes/payment.routes.js:21 | An item type string is accepted exactly when it is `facility`, `accessory` or `coach`, and maps to that kind |
| `Records.PaymentCount` | src/models/Payment.js:6-14 | A reservation's payment count is 0 exactly when no recorded payment carries its type and id |
| `Records.PaymentCountAppend` | src/models/Payment.js:6-14 | Appending a payment adds one to the count of its own (type, id) and leaves every other reservation's count unchanged |
| `Bookings.OverlapsHalfOpen` | src/routes/booking.routes.js:18-20 | Overlap is symmetric. Ranges that only touch at an endpoint do not overlap |
| `Bookings.OverlapsIffSharedInstant` | src/routes/booking.routes.js:18-20 | For non-empty ranges, overlap holds iff some millisecond lies in both half-open ranges |
| `Bookings.FindConflict` | src/routes/booking.routes.js:39-50 | The scan returns nothing iff no non-cancelled booking of that club and facility overlaps the request. When it returns an id, that booking does overlap |
| `Bookings.DurationBound` | src/routes/booking.routes.js:52-54 | `hours > 0` iff `start < end`. `hours <= 8` iff the slot is at most 28 800 000 ms |
| `Bookings.Quote` | src/routes/booking.routes.js:56-63 | `base` is the unrounded `hourlyPrice × hours`. The discount is non-zero iff member and non-zero base. What remains after the discount is 80% (member) or 100% of the base. The total is whole cents within half a cent of it. `membershipApplied` records membership |
| `Bookings.QuoteExamples` | src/routes/booking.routes.js:56-77 | Price 50 for 2 h gives 100/0/100 for a non-member and 100/20/80 for a member |
| `Bookings.Create` | src/routes/booking.routes.js:22-85 | Each rejection happens exactly under its condition, checked in the source's order: times, club not found or not approved, facility, conflict (409), duration, then the save refusing an empty `sport` (Booking.js:8). So a conflicting over-long request reports the conflict. A request passing all of them succeeds. On success exactly one booking is added, under the new id. It is `pending`, owned by the caller, has the request's club, facility, sport and times, and lasts 0–8 h. It carries the quoted price and overlaps no live booking of that facility |
| `Bookings.CreateStep` | src/routes/booking.routes.js:26-79 | The step-by-step handler with the linear conflict scan gives the same answer as `Create` on every input |
| `Bookings.Cancel` | src/routes/booking.routes.js:94-102 | Succeeds iff the booking exists and belongs to the caller, otherwise "not found". It sets `cancelled` from any prior status (`paid` included), and nothing else changes |
| `Payments.PayableId` | src/routes/payment.routes.js:32-37 | The id is `itemId` when non-empty, else `bookingId` when non-empty, else absent. An absent id is the "Missing booking/order id" rejection |
| `Payments.KindOf` | src/routes/payment.routes.js:32 | An absent item type means facility. An accepted one names its kind |
| `Payments.MethodOf` | src/routes/payment.routes.js:98 | The method is the given non-empty one, or else `card` |
| `Payments.FindOwned` | src/routes/payment.routes.js:44-63 | A reservation is found only in its kind's collection, and only when the caller owns it |
| `Payments.Pay` | src/routes/payment.routes.js:27-109 | Succeeds exactly when the body passes the request schema and names a reservation of the caller's that passes every guard. The type defaults to facility. Each rejection happens exactly under its condition, in this order: an item type outside the three kinds (400), missing id, not found or not owned, cancelled, already paid, no club, club not approved, total ≤ 0. On success the item was `pending` or `returned` and becomes `paid`, with nothing else changed. Exactly one payment is appended and its reservation's payment count rises by one. The payment holds the amount, the club's rate or 0.15, a settlement that sums to the amount, the legacy `bookingId` for facilities only, the method and status `paid` |
| `Payments.PaymentCountsAfterAppend` | src/routes/payment.routes.js:88-103 | Recording a payment raises its own reservation's count by one and leaves every other count |
| `Payments.PayTwiceRejected` | src/routes/payment.routes.js:47-48 | Repeating a successful payment request is rejected with "Already paid" |
| `Payments.ReturnedOrderIsPayable` | src/routes/payment.routes.js:51-56 | An owned `returned` accessory order with an approved club and positive total passes every guard and is paid |
| `ClubPayments.MarkPaid` | src/routes/club.payments.routes.js:13-50 | Succeeds iff the reservation belongs to the caller's club, otherwise "not found". It sets `paid` from any status (`cancelled` included). Only that status changes, and no payment is written |
| `ClubPayments.Cancel` | src/routes/club.payments.routes.js:59-96 | Succeeds iff the reservation belongs to the caller's club, otherwise "not found". It sets `cancelled` from any status (`paid` included). Only that status changes |
| `ClubPayments.MarkPaidIdempotent` | src/routes/club.payments.routes.js:18-19 | Marking paid twice leaves the same state as once |
| `ClubPayments.CancelIdempotent` | src/routes/club.payments.routes.js:64-65 | Cancelling twice leaves the same state as once |
| `ClubAnalytics.MarkPaid` | src/routes/club.analytics.routes.js:93-139 | Same effect as the club mark-paid: matched by id and club, unconditional `paid`, only the status changes, no payment written |
| `ClubAnalytics.UpdateFacility` | src/routes/club.analytics.routes.js:144-166 | Succeeds exactly when the booking is the club's and any given status is in the booking enum. Not found unless the booking is the club's. A status outside the booking enum fails with nothing stored. Otherwise supplied start, end, status and total overwrite with no time-order or overlap check. Base, discount, `membershipApplied`, owner, club, sport and facility are kept |
| `ClubAnalytics.UpdateOrder` | src/routes/club.analytics.routes.js:168-192 | Succeeds exactly when the order is the club's and the patch passes the order schema. Not found unless the order is the club's. A qty below 1 (AccessoryOrder.js:10), an unknown type or an unknown status fails with nothing stored. Otherwise supplied qty, type, times, status and total overwrite, and unit price, hours, owner, club and accessory are kept |
| `ClubAnalytics.UpdateCoach` | src/routes/club.analytics.routes.js:194-219 | Succeeds exactly when the booking is the club's and the patch passes the coach-booking schema. Not found unless the booking is the club's. An unknown type or a status outside the coach enum (CoachBooking.js:21) fails with nothing stored. Otherwise supplied type, times, class time, participants, status and total overwrite, and owner, club and coach are kept |
| `ClubAnalytics.Delete` | src/routes/club.analytics.routes.js:224-255 | Succeeds iff the reservation is the club's, otherwise "not found". Only that reservation disappears, and payments referring to it stay |
| `Invariants.SettlesPreserves` | src/routes/club.payments.routes.js:59-68 | Dropping, cancelling or confirming bookings, without moving, repricing or reviving a cancelled one, keeps both the no-overlap and the pricing invariants |
| `Invariants.CreatePreserves` | src/routes/booking.routes.js:39-79 | A successful create keeps the invariants: no overlap among live bookings, consistent prices, and at most one payment per reservation, with paid-or-cancelled status for any reservation that has one. The last assumes no recorded payment refers to the new id |
| `Invariants.CancelPreserves` | src/routes/booking.routes.js:94-99 | Player cancel keeps all three invariants |
| `Invariants.PayPreserves` | src/routes/payment.routes.js:84-103 | Pay keeps all three invariants, and the paid reservation then has exactly one payment |
| `Invariants.PaidOncePreserves` | src/routes/payment.routes.js:84-103 | Marking a live, unpaid reservation `paid` and appending its first payment keeps all three invariants and leaves it with exactly one payment |
| `Invariants.LedgerAppend` | src/routes/payment.routes.js:88-103 | Recording the first payment of a reservation that is now `paid`, with every other reservation unchanged, keeps at most one payment per reservation |
| `Invariants.UpdateOrderKeepsCalendar` | src/routes/club.analytics.routes.js:168-192 | Editing an accessory order keeps the no-overlap and pricing invariants, as no facility booking changes |
| `Invariants.UpdateCoachKeepsCalendar` | src/routes/club.analytics.routes.js:194-219 | Editing a coach booking keeps the no-overlap and pricing invariants, as no facility booking changes |
| `Invariants.ClubCancelPreserves` | src/routes/club.payments.routes.js:64-65 | Club cancel keeps all three invariants |
| `Invariants.MarkPaidPreservesPricingAndLedger` | src/routes/club.payments.routes.js:18-19 | Club mark-paid keeps the pricing and payment-ledger invariants |
| `Invariants.DeletePreserves` | src/routes/club.analytics.routes.js:227-228 | Delete keeps all three invariants |
| `Invariants.MarkPaidCanRevivePastACancellation` | src/routes/club.payments.routes.js:15-19 | A cancelled booking whose slot was re-booked can be marked paid, after which two live bookings overlap |
| `Invariants.UpdateCanCreateOverlap` | src/routes/club.analytics.routes.js:152-153 | Moving a start time through the update creates an overlap between live bookings |
| `Invariants.UpdateTotalBreaksPricing` | src/routes/club.analytics.routes.js:156-159 | Overwriting the total leaves base and discount, so `total = round2(base − discount)` no longer holds |
| `Invariants.StatusResetAllowsSecondPayment` | src/routes/club.analytics.routes.js:154 | Pay, reset the status to `pending` through the update, then pay again: the booking has two payments and the ledger invariant is broken |
| `Invariants.ReturnedOrderPaidTwice` | src/routes/club.analytics.routes.js:176-185 | Pay for a rental, set it `returned` through the update, pay again: `returned` passes the payment guards, so the order has two payments and the ledger invariant is broken |
| `Invariants.CoachResetPaidTwice` | src/routes/club.analytics.routes.js:202-212 | Pay for a coach session, reset it to `pending` through the update, pay again: the session has two payments and the ledger invariant is broken |

## Left out

- Authentication and roles: the caller's user id and club id are trusted inputs.
  A club user without a club is not modelled.
- Concurrency: the find-then-create race in booking creation and the check-then-save
  race in payment are outside the model. Each handler is one atomic step.
- Floating point: money is exact `real` and rounding is `floor(100x + 1/2) / 100`.
  Binary-float artefacts of `Math.round` and NaN from `Number(...)` are not modelled.
- Request parsing: the create request's fields (zod schema) are assumed present and
  strings. The pay request's `bookingId`, `itemId` and `method` are assumed strings
  when sent. A non-string one makes the schema throw and the handler answer 400,
  which is not modelled. Only its `itemType` enum check is modelled. An unparseable date is `None` in create. Update patches carry
  already-parsed dates, so a malformed date in a PUT body is not modelled. Non-integer
  `qty`/`participants` and falsy non-string values (`0` as a date) are not modelled.
  Malformed ObjectId strings (cast errors) are not modelled.
- Ids: the database's fresh `_id` is the `newId` parameter of booking create. Only
  `Invariants.CreatePreserves` assumes no payment refers to it.
- The undeclared `paymentStatus` field written by the analytics mark-paid is dropped
  under the schema's strict mode, so the model does not carry it.
- Payment creation failing after the item was saved as `paid`: the two writes are one
  step here.
- Schema defaults that no modelled handler relies on (`discount` 0,
  `membershipApplied` false, order `hours` 0, `participants` 1, payment `method` and
  `status`): each is declared as a constant or written explicitly. Accessory orders
  and coach bookings are created in files that are not part of this model, so no
  creation of those is modelled.
- Coach availability windows, class capacity, accessory stock and rental pricing:
  no modelled handler checks them.
- Reads and display: `GET` lists, the analytics enrichment and receipt PDFs are not
  part of this model.
