/** The Elo update of `Season.update_ratings` (nbaelo/elo.py). The two
    floating-point pieces are left abstract and supplied as an `Engine`:
    `expected(r1, r2)` stands for `get_expected_outcome`, 1 / (1 + 10^((r2 - r1)/400)),
    and `multiplier(margin, home, away)` for the margin factor
    (|margin| + 3)^0.8 / (7.5 + 0.0006 * (home - away)). */
module EloFormula {

  /** `Season.k_factor`. */
  const KFactor: real := 20.0

  datatype Engine = Engine(expected: (real, real) -> real, multiplier: (int, real, real) -> real)

  /** A win expectancy strictly between 0 and 1, as the logistic formula gives. */
  ghost predicate ValidEngine(e: Engine) {
    forall a: real, b: real :: 0.0 < e.expected(a, b) < 1.0
  }

  /** The home team's rating change for a game with the given scores:
      k * multiplier * (1 - expected) on a home win, k * multiplier * (-expected)
      otherwise. The away team receives exactly the negation. */
  function HomeChange(e: Engine, k: real, homeRating: real, awayRating: real,
                      homePoints: int, awayPoints: int): real
  {
    var expected := e.expected(homeRating, awayRating);
    var outcome := if homePoints > awayPoints then 1.0 - expected else -expected;
    k * e.multiplier(homePoints - awayPoints, homeRating, awayRating) * outcome
  }

  lemma PositiveProduct(a: real, b: real, c: real)
    requires a > 0.0 && b > 0.0
    ensures c > 0.0 ==> a * b * c > 0.0
    ensures c < 0.0 ==> a * b * c < 0.0
  {
    assert a * b > 0.0;
  }

  /** With a win expectancy in (0, 1) and a positive margin factor, the home
      team gains rating exactly when it wins, and loses rating otherwise. */
  lemma WinnerGains(e: Engine, k: real, hr: real, ar: real, hp: int, ap: int)
    requires 0.0 < e.expected(hr, ar) < 1.0
    requires e.multiplier(hp - ap, hr, ar) > 0.0 && k > 0.0
    ensures HomeChange(e, k, hr, ar, hp, ap) > 0.0 <==> hp > ap
    ensures HomeChange(e, k, hr, ar, hp, ap) < 0.0 <==> hp <= ap
  {
    var expected := e.expected(hr, ar);
    var outcome := if hp > ap then 1.0 - expected else -expected;
    PositiveProduct(k, e.multiplier(hp - ap, hr, ar), outcome);
  }
}
