/** Money. A `DecimalField(decimal_places=2)` amount is an integer number of
    cents. An intermediate `Decimal` with four decimal places (an amount in cents
    times a whole percentage) is an integer number of hundredths of a cent, and
    `round(x, 2)` brings it back to cents, rounding half to even. */
module Money {

  /** `round(x, 2)` on a `Decimal` holding `x` hundredths of a cent: the whole
      number of cents nearest to `x / 100`, ties to the even neighbour. */
  function RoundCents(x: int): (r: int)
    ensures 2 * (x - 100 * r) <= 100 && 2 * (100 * r - x) <= 100
    ensures 2 * (x - 100 * r) == 100 || 2 * (100 * r - x) == 100 ==> r % 2 == 0
  {
    var q, rem := x / 100, x % 100;
    if rem < 50 then q
    else if rem > 50 then q + 1
    else if q % 2 == 0 then q
    else q + 1
  }

  /** The two contract clauses of RoundCents leave exactly one candidate. */
  lemma RoundCentsUnique(x: int, r: int)
    requires 2 * (x - 100 * r) <= 100 && 2 * (100 * r - x) <= 100
    requires 2 * (x - 100 * r) == 100 || 2 * (100 * r - x) == 100 ==> r % 2 == 0
    ensures r == RoundCents(x)
  {
  }

  /** A whole number of cents is not moved. */
  lemma RoundCentsExact(c: int)
    ensures RoundCents(100 * c) == c
  {
    RoundCentsUnique(100 * c, c);
  }

  /** `round(amount * pct / 100, 2)` in cents, for an amount in cents and a
      whole percentage: `amount * pct` cents divided by 100 is `amount * pct`
      hundredths of a cent. */
  function Share(amountCents: int, pct: int): int {
    RoundCents(amountCents * pct)
  }

  /** For a non-negative amount and a percentage between 0 and 100 the share lies
      between nothing and the whole amount. */
  lemma ShareBounds(amountCents: int, pct: int)
    requires amountCents >= 0 && 0 <= pct <= 100
    ensures 0 <= Share(amountCents, pct) <= amountCents
  {
    assert 0 <= amountCents * pct <= amountCents * 100 by {
      assert amountCents * pct <= amountCents * 100;
    }
  }

  /** The share of 0 % is nothing and the share of 100 % is everything. */
  lemma ShareExtremes(amountCents: int)
    ensures Share(amountCents, 0) == 0
    ensures Share(amountCents, 100) == amountCents
  {
    RoundCentsExact(0);
    RoundCentsExact(amountCents);
  }

  /** For a percentage between 0 and 100 the share lies between nothing and the
      whole amount, whatever the sign of the amount. */
  lemma ShareBetween(amountCents: int, pct: int)
    requires 0 <= pct <= 100
    ensures amountCents >= 0 ==> 0 <= Share(amountCents, pct) <= amountCents
    ensures amountCents < 0 ==> amountCents <= Share(amountCents, pct) <= 0
  {
    if amountCents >= 0 {
      ShareBounds(amountCents, pct);
    } else {
      assert amountCents * 100 <= amountCents * pct <= 0 by {
        assert amountCents * pct >= amountCents * 100;
      }
    }
  }

  /** A `DecimalField(max_digits=10, decimal_places=2)` holds fewer than 10^8
      whole units either way, that is fewer than 10^10 cents. */
  predicate FitsAmount(cents: int) {
    -10_000_000_000 < cents < 10_000_000_000
  }
}
