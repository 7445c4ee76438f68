/** Amounts of money.

    An exact amount, as decimal.js carries it, is a `real` counted in units of 0.0001 AZN.
    A stored amount is an `int` in the same units: the amount columns of the database are
    numeric(19,4), and storing an exact amount rounds it to the nearest unit, ties away
    from zero. */
module Money {

  /** The nearest integer, ties away from zero. */
  function HalfUp(x: real): int {
    if x >= 0.0 then (x + 0.5).Floor else -((0.5 - x).Floor)
  }

  function Abs(x: real): real {
    if x >= 0.0 then x else -x
  }

  /** An exact amount that storing does not change. */
  predicate OnGrid(x: real) {
    x == x.Floor as real
  }

  /** `roundMoney2`: two decimal places, that is, a multiple of 100 units. */
  function RoundMoney2(x: real): int {
    100 * HalfUp(x / 100.0)
  }

  function Min(a: int, b: int): int {
    if a <= b then a else b
  }

  /** HalfUp is the only function that picks a nearest integer and breaks ties away from zero. */
  lemma HalfUpIsNearest(x: real, n: int)
    ensures n == HalfUp(x) <==>
            Abs(n as real - x) <= 0.5 && (Abs(n as real - x) == 0.5 ==> Abs(n as real) > Abs(x))
  {
    var f := (if x >= 0.0 then x + 0.5 else 0.5 - x).Floor;
    if x >= 0.0 {
      assert f as real <= x + 0.5 < f as real + 1.0;
    } else {
      assert f as real <= 0.5 - x < f as real + 1.0;
    }
  }

  lemma HalfUpOfInt(n: int)
    ensures HalfUp(n as real) == n
  {
    HalfUpIsNearest(n as real, n);
  }

  lemma HalfUpMonotone(x: real, y: real)
    requires x <= y
    ensures HalfUp(x) <= HalfUp(y)
  {
    HalfUpIsNearest(x, HalfUp(x));
    HalfUpIsNearest(y, HalfUp(y));
  }

  /** A whole number of units can be taken out of the rounding. */
  lemma HalfUpShift(n: nat, x: real)
    requires x >= 0.0
    ensures HalfUp(n as real + x) == n + HalfUp(x)
  {
    assert (n as real + x + 0.5).Floor == n + (x + 0.5).Floor;
  }

  /** `roundMoney2` gives the nearest multiple of 0.01 AZN. */
  lemma RoundMoney2IsNearest(x: real)
    ensures RoundMoney2(x) % 100 == 0
    ensures Abs(RoundMoney2(x) as real - x) <= 50.0
    ensures Abs(RoundMoney2(x) as real - x) == 50.0 ==> Abs(RoundMoney2(x) as real) > Abs(x)
  {
    HalfUpIsNearest(x / 100.0, HalfUp(x / 100.0));
  }

  /** A whole number of 0.01 AZN can be taken out of `roundMoney2`. */
  lemma RoundMoney2Shift(k: nat, x: real)
    requires x >= 0.0
    ensures RoundMoney2((100 * k) as real + x) == 100 * k + RoundMoney2(x)
  {
    HalfUpShift(k, x / 100.0);
    assert ((100 * k) as real + x) / 100.0 == k as real + x / 100.0;
  }
}
