/**
 * Exact money arithmetic. Amounts are exact reals; `Round2` is the source's
 * `Math.round(x * 100) / 100`, where `Math.round` rounds half-way cases towards
 * +infinity, i.e. `floor(y + 1/2)`.
 */
module Money {

  /** The commission rate applied when a club record carries none. */
  const DefaultCommissionRate: real := 0.15

  /** `x` has at most two decimal places (a whole number of cents). */
  predicate IsCents(x: real) {
    (x * 100.0).Floor as real == x * 100.0
  }

  /** Round to cents, half-way cases upwards. */
  function Round2(x: real): (r: real)
    ensures IsCents(r)
    ensures x - 0.005 < r <= x + 0.005
  {
    var n := (x * 100.0 + 0.5).Floor;
    assert (n as real / 100.0) * 100.0 == n as real;
    n as real / 100.0
  }

  /** `Round2(x)` is the only whole number of cents in the window `(x - 0.005, x + 0.005]`. */
  lemma Round2Unique(x: real, c: real)
    requires IsCents(c)
    requires x - 0.005 < c <= x + 0.005
    ensures Round2(x) == c
  {
    var m := (c * 100.0).Floor;
    assert m as real == c * 100.0;
    assert m as real <= x * 100.0 + 0.5 < m as real + 1.0;
    assert (x * 100.0 + 0.5).Floor == m;
  }

  /** Rounding an amount that is already in cents changes nothing. */
  lemma Round2OfCents(x: real)
    requires IsCents(x)
    ensures Round2(x) == x
  {
    Round2Unique(x, x);
  }

  /** Sums and differences of whole cents are whole cents. */
  lemma CentsClosed(a: real, b: real)
    requires IsCents(a) && IsCents(b)
    ensures IsCents(a + b) && IsCents(a - b)
  {
    var i := (a * 100.0).Floor;
    var j := (b * 100.0).Floor;
    assert (a + b) * 100.0 == a * 100.0 + b * 100.0 == i as real + j as real;
    assert (a - b) * 100.0 == a * 100.0 - b * 100.0 == i as real - j as real;
    assert ((a + b) * 100.0).Floor == i + j;
    assert ((a - b) * 100.0).Floor == i - j;
  }

  /** A whole number of cents strictly above minus one cent is not negative. */
  lemma CentsAboveMinusOneCent(c: real)
    requires IsCents(c)
    requires c > -0.01
    ensures c >= 0.0
  {
    var m := (c * 100.0).Floor;
    assert m as real == c * 100.0;
    assert m > -1;
  }

  /** A share of a non-negative amount at a rate in [0, 1] lies between nothing and all of it. */
  lemma ShareBetween(amount: real, rate: real)
    requires 0.0 <= amount && 0.0 <= rate <= 1.0
    ensures 0.0 <= amount * rate <= amount
  {
    assert amount - amount * rate == amount * (1.0 - rate);
  }

  /** What the two roundings of a settlement guarantee. */
  lemma SplitFacts(amount: real, rate: real, fee: real, earning: real)
    requires fee == Round2(amount * rate) && earning == Round2(amount - fee)
    ensures IsCents(amount) ==> fee + earning == amount
    ensures 0.0 <= amount && 0.0 <= rate <= 1.0 ==> 0.0 <= fee && 0.0 <= earning
  {
    if IsCents(amount) {
      CentsClosed(amount, fee);
      Round2OfCents(amount - fee);
    }
    if 0.0 <= amount && 0.0 <= rate <= 1.0 {
      ShareBetween(amount, rate);
      NonNegativeParts(amount, amount * rate, fee, earning);
    }
  }

  /** Parts rounded to cents from a share in [0, amount] and the rest are not negative. */
  lemma NonNegativeParts(amount: real, share: real, fee: real, earning: real)
    requires 0.0 <= share <= amount
    requires IsCents(fee) && share - 0.005 < fee <= share + 0.005
    requires IsCents(earning) && amount - fee - 0.005 < earning
    ensures 0.0 <= fee && 0.0 <= earning
  {
    CentsAboveMinusOneCent(fee);
    CentsAboveMinusOneCent(earning);
  }

  /** The split of a paid amount between the platform and the club. */
  datatype Settlement = Settlement(adminFee: real, clubEarning: real)

  /**
   * `adminFee = round2(amount * rate)`, `clubEarning = round2(amount - adminFee)`.
   * Both parts are whole cents, the fee is the rate's share to within half a cent,
   * the parts add up to the amount to within half a cent, exactly when the amount is
   * in cents, and neither part is negative for a rate between 0 and 1.
   */
  function Settle(amount: real, rate: real): (s: Settlement)
    ensures IsCents(s.adminFee) && IsCents(s.clubEarning)
    ensures amount * rate - 0.005 < s.adminFee <= amount * rate + 0.005
    ensures amount - 0.005 < s.adminFee + s.clubEarning <= amount + 0.005
    ensures IsCents(amount) ==> s.adminFee + s.clubEarning == amount
    ensures 0.0 <= amount && 0.0 <= rate <= 1.0 ==> 0.0 <= s.adminFee && 0.0 <= s.clubEarning
  {
    var fee := Round2(amount * rate);
    var earning := Round2(amount - fee);
    SplitFacts(amount, rate, fee, earning);
    Settlement(fee, earning)
  }

  /** 80.00 at the default rate of 15% splits into 12.00 for the platform and 68.00 for the club. */
  lemma SettleEightyAtDefaultRate()
    ensures Settle(80.0, DefaultCommissionRate) == Settlement(12.0, 68.0)
  {
    Round2OfCents(12.0);
    Round2OfCents(68.0);
  }
}
