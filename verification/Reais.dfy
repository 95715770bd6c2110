/** Where reais meet centavos (infra/asaas/money.go): an amount leaves as a floating-point
  * number and is rounded back to centavos when it returns.
  *
  * A float64 operation is modelled by what the IEEE 754 standard promises of it: the result
  * lies within one part in 2^53 of the exact one. Which result is left open, so a statement
  * about every permitted result covers the one the hardware picks. */
module Reais {

  /** The unit roundoff of a float64, 2^-53. */
  const UNIT: real := 1.0 / 9007199254740992.0

  /** Every integer of this size is itself a float64. */
  const WHOLE := 0x20_0000_0000_0000

  /** Two to the fifty-first centavos, some twenty-two trillion reais. */
  const LIMIT := 0x8_0000_0000_0000

  function Abs(x: real): real {
    if x < 0.0 then -x else x
  }

  function Magnitude(n: int): nat {
    if n < 0 then -n else n
  }

  /** A float operation whose exact value is exact may yield got. */
  predicate Near(exact: real, got: real) {
    Abs(got - exact) <= UNIT * Abs(exact)
  }

  /** float64(cents): exact while the integer is itself a float64. */
  predicate Converts(cents: int, got: real) {
    && Near(cents as real, got)
    && (Magnitude(cents) <= WHOLE ==> got == cents as real)
  }

  /** Half away from zero, as math.Round rounds. */
  function Round(x: real): int {
    if x < 0.0 then -((-x + 0.5).Floor) else (x + 0.5).Floor
  }

  /** Toward zero, as the conversion int64(x) alone would do. */
  function Truncate(x: real): int {
    if x < 0.0 then -((-x).Floor) else x.Floor
  }

  /** toReais(cents) may yield reais. */
  ghost predicate ToReais(cents: int, reais: real) {
    exists converted :: Converts(cents, converted) && Near(converted / 100.0, reais)
  }

  /** The product reais * 100, before it is rounded, may yield scaled. */
  predicate Scales(reais: real, scaled: real) {
    Near(reais * 100.0, scaled)
  }

  /** toCents(reais) may yield cents. */
  ghost predicate ToCents(reais: real, cents: int) {
    exists scaled :: Scales(reais, scaled) && Round(scaled) == cents
  }

  /** Whatever the float operations do, the amount comes back as it left. */
  ghost predicate Survives(cents: int) {
    forall reais, back :: ToReais(cents, reais) && ToCents(reais, back) ==> back == cents
  }

  /** Rounding finds the one integer less than half a unit away. */
  lemma {:induction false} RoundFindsTheNearest(x: real, n: int)
    requires Abs(x - n as real) < 0.5
    ensures Round(x) == n
  {
    if x < 0.0 {
      assert (-n) as real <= -x + 0.5 < (-n + 1) as real;
    } else {
      assert n as real <= x + 0.5 < (n + 1) as real;
    }
  }

  /** Two roundings move a value by less than two and a bit units in 2^53. */
  lemma {:induction false} Drift(cents: int, reais: real, scaled: real)
    requires Magnitude(cents) < LIMIT
    requires Near(cents as real / 100.0, reais) && Scales(reais, scaled)
    ensures Abs(scaled - cents as real) < 0.5
  {
    var x := cents as real;
    assert Abs(100.0 * reais - x) <= UNIT * Abs(x);
    assert Abs(100.0 * reais) <= Abs(x) + UNIT * Abs(x);
    assert Abs(x) <= (LIMIT - 1) as real;
  }

  lemma {:induction false} SmallAmountsSurvive(cents: int)
    requires Magnitude(cents) < LIMIT
    ensures Survives(cents)
  {
    forall reais, back | ToReais(cents, reais) && ToCents(reais, back)
      ensures back == cents
    {
      var converted :| Converts(cents, converted) && Near(converted / 100.0, reais);
      var scaled :| Scales(reais, scaled) && Round(scaled) == back;
      Drift(cents, reais, scaled);
      RoundFindsTheNearest(scaled, cents);
    }
  }

  /** The two operations both err away from zero by all they may. */
  function Stretched(x: real): real {
    x + UNIT * x
  }

  lemma {:induction false} StretchedIsNear(x: real)
    ensures Near(x, Stretched(x))
  {
    assert Stretched(x) - x == UNIT * x;
  }

  lemma {:induction false} StretchedTwiceRoundsAway(cents: int)
    requires LIMIT <= Magnitude(cents)
    ensures Round(Stretched(Stretched(cents as real))) != cents
  {
    var x := cents as real;
    var y := Stretched(Stretched(x));
    if cents < 0 {
      assert -y >= -x + 0.5;
      assert -y + 0.5 >= (-cents + 1) as real;
      assert (-y + 0.5).Floor >= -cents + 1;
    } else {
      assert y >= x + 0.5;
      assert y + 0.5 >= (cents + 1) as real;
      assert (y + 0.5).Floor >= cents + 1;
    }
  }

  lemma {:induction false} LargeAmountsMayDrift(cents: int)
    requires LIMIT <= Magnitude(cents)
    ensures !Survives(cents)
  {
    var x := cents as real;
    var reais := Stretched(x / 100.0);
    var scaled := Stretched(reais * 100.0);
    StretchedIsNear(x / 100.0);
    StretchedIsNear(reais * 100.0);
    assert Converts(cents, x);
    assert ToReais(cents, reais);
    assert Scales(reais, scaled);
    assert ToCents(reais, Round(scaled));
    assert scaled == Stretched(Stretched(x));
    StretchedTwiceRoundsAway(cents);
  }

  /** The trip through a float keeps an amount, whatever each operation does within its
    * promise, exactly when the amount is below 2^51 centavos; and undisturbed arithmetic is
    * among what the model allows, so the statement is not empty. */
  lemma {:induction false} TheTripKeepsExactly(cents: int)
    ensures Survives(cents) <==> Magnitude(cents) < LIMIT
    ensures ToReais(cents, cents as real / 100.0) && ToCents(cents as real / 100.0, cents)
  {
    if Magnitude(cents) < LIMIT {
      SmallAmountsSurvive(cents);
    } else {
      LargeAmountsMayDrift(cents);
    }
    assert Converts(cents, cents as real);
    assert Scales(cents as real / 100.0, cents as real);
    RoundFindsTheNearest(cents as real, cents);
  }

  /** Why toCents rounds: truncating instead may lose a centavo of every amount but zero. */
  lemma {:induction false} TruncatingLosesACentavo(cents: int)
    ensures
      (forall reais, scaled :: ToReais(cents, reais) && Scales(reais, scaled) ==> Truncate(scaled) == cents)
      <==> cents == 0
  {
    var x := cents as real;
    var reais := x / 100.0;
    var scaled := x - UNIT * x;
    assert Converts(cents, x);
    assert Near(x / 100.0, reais);
    assert ToReais(cents, reais);
    assert Scales(reais, scaled);
    if cents == 0 {
      forall r, s | ToReais(cents, r) && Scales(r, s)
        ensures Truncate(s) == cents
      {
        var converted :| Converts(cents, converted) && Near(converted / 100.0, r);
        assert r == 0.0 && s == 0.0;
      }
    } else {
      assert Truncate(scaled) != cents;
    }
  }
}
