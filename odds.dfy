/**
 * The odds meter: win chance as a percentage, odds as "1 in N", and the
 * progress bar scaled ten times and capped at 100.
 */
module Odds {

  function MaxReal(a: real, b: real): real {
    if a >= b then a else b
  }

  /** `winChance`: the user's share of all tickets, in percent; 0 when there are no tickets. */
  function WinChance(userTickets: real, totalTickets: real): (r: real)
    ensures totalTickets <= 0.0 ==> r == 0.0
    ensures totalTickets > 0.0 ==> r * totalTickets == userTickets * 100.0
  {
    if totalTickets > 0.0 then userTickets / totalTickets * 100.0 else 0.0
  }

  /** `odds`: floor(total / max(user, 1)); the divisor is never below 1. */
  function OddsOf(userTickets: real, totalTickets: real): (r: int)
    ensures totalTickets <= 0.0 ==> r == 0
    ensures totalTickets > 0.0 ==>
              var ratio := totalTickets / MaxReal(userTickets, 1.0);
              r as real <= ratio < r as real + 1.0
  {
    if totalTickets > 0.0 then (totalTickets / MaxReal(userTickets, 1.0)).Floor else 0
  }

  /** The progress bar's value, `Math.min(winChance * 10, 100)`. */
  function Progress(winChance: real): (r: real)
    ensures r <= 100.0
    ensures r == winChance * 10.0 || r == 100.0
    ensures winChance * 10.0 <= 100.0 ==> r == winChance * 10.0
  {
    if winChance * 10.0 <= 100.0 then winChance * 10.0 else 100.0
  }

  /** `userTickets === 0` shows the "make a deposit" placeholder instead of the odds. */
  predicate ShowsPlaceholder(userTickets: real) {
    userTickets == 0.0
  }

  /** When there are tickets in the pool, the placeholder is shown exactly when the user's chance is nil. */
  lemma PlaceholderIffNoChance(userTickets: real, totalTickets: real)
    requires totalTickets > 0.0
    ensures ShowsPlaceholder(userTickets) <==> WinChance(userTickets, totalTickets) == 0.0
  {
    if WinChance(userTickets, totalTickets) == 0.0 {
      assert userTickets * 100.0 == 0.0;
    }
  }

  /** With no tickets of one's own the odds are "1 in total". */
  lemma NoTicketsOddsAreTotal(totalTickets: real)
    requires totalTickets > 0.0
    ensures OddsOf(0.0, totalTickets) == totalTickets.Floor
  {
  }

  /** For a positive total and a non-negative user count, 0 <= odds <= total. */
  lemma OddsWithinTotal(userTickets: real, totalTickets: real)
    requires totalTickets > 0.0 && userTickets >= 0.0
    ensures 0 <= OddsOf(userTickets, totalTickets)
    ensures OddsOf(userTickets, totalTickets) as real <= totalTickets
  {
    var d := MaxReal(userTickets, 1.0);
    var ratio := totalTickets / d;
    assert ratio * d == totalTickets;
    assert ratio > 0.0 by {
      if ratio <= 0.0 {
        ProductSign(-ratio, d);
      }
    }
    assert totalTickets - ratio == ratio * (d - 1.0);
    ProductSign(ratio, d - 1.0);
  }

  /** A share of the tickets is a percentage between 0 and 100. */
  lemma WinChanceIsPercentage(userTickets: real, totalTickets: real)
    requires 0.0 <= userTickets <= totalTickets && totalTickets > 0.0
    ensures 0.0 <= WinChance(userTickets, totalTickets) <= 100.0
  {
  }

  /** More tickets never make the odds worse. */
  lemma OddsMonotone(u1: real, u2: real, totalTickets: real)
    requires u1 <= u2 && totalTickets > 0.0
    ensures OddsOf(u2, totalTickets) <= OddsOf(u1, totalTickets)
  {
    // below one ticket the divisor is 1, so only the clamped counts matter
    var d1, d2 := MaxReal(u1, 1.0), MaxReal(u2, 1.0);
    assert 1.0 <= d1 <= d2;
    var a, b := totalTickets / d1, totalTickets / d2;
    assert a * d1 == totalTickets && b * d2 == totalTickets;
    assert b <= a by {
      if b > a {
        ProductSign(b, d2 - d1);
        ProductSign(b - a, d1);
      }
    }
  }

  lemma ProductSign(x: real, y: real)
    ensures x >= 0.0 && y >= 0.0 ==> x * y >= 0.0
    ensures x > 0.0 && y > 0.0 ==> x * y > 0.0
  {
  }

  /** 50 of 5000 tickets: a 1% chance and odds of 1 in 100. */
  lemma FiftyOfFiveThousand()
    ensures WinChance(50.0, 5000.0) == 1.0
    ensures OddsOf(50.0, 5000.0) == 100
  {
    assert 5000.0 / 50.0 == 100.0;
  }
}
