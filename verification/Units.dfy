/** Number conventions shared by every module.

    Dollars and prices are exact reals (floating-point noise is not modelled).
    Kalshi quantities are whole hundredths of a contract, so they are integers
    and `Contracts` turns them into the real share count the journal stores. */
module Units {

  /** Half of one unit in the sixth decimal: the most `round(x, 6)` can move x. */
  const HALF_MICRO := 0.0000005

  function Abs(x: real): (a: real) {
    if x < 0.0 then -x else x
  }

  function Min(x: real, y: real): (m: real) {
    if x <= y then x else y
  }

  function Max(x: real, y: real): (m: real) {
    if x <= y then y else x
  }

  /** Python's `round(x)`: to the nearest integer, ties to the even one. */
  function RoundHalfEven(x: real): (n: int)
    ensures n as real - 0.5 <= x <= n as real + 0.5
  {
    var f := x.Floor;
    var d := x - f as real;
    if d < 0.5 then f
    else if d > 0.5 then f + 1
    else if f % 2 == 0 then f
    else f + 1
  }

  /** Python's `round(x, 6)`. */
  function Round6(x: real): (y: real)
    ensures Abs(y - x) <= HALF_MICRO
  {
    RoundHalfEven(x * 1000000.0) as real / 1000000.0
  }

  /** Python's `round(x, 2)`. */
  function Round2(x: real): (y: real)
    ensures Abs(y - x) <= 0.005
  {
    RoundHalfEven(x * 100.0) as real / 100.0
  }

  /** `math.ceil(x)`. */
  function Ceil(x: real): (n: int)
    ensures n as real - 1.0 < x <= n as real
  {
    -((-x).Floor)
  }

  /** Share count of a quantity given in hundredths of a contract. */
  function Contracts(centis: int): real {
    centis as real / 100.0
  }

  /** Dollars for `shares` contracts at `price` each. */
  function Cost(price: real, shares: real): real {
    price * shares
  }

  /** Dollars for `qty` hundredths of a contract at `price` each. */
  function Worth(price: real, qty: int): real {
    Cost(price, Contracts(qty))
  }

  lemma WorthAdds(price: real, a: int, b: int)
    ensures Worth(price, a + b) == Worth(price, a) + Worth(price, b)
  {
    assert Contracts(a + b) == Contracts(a) + Contracts(b);
  }

  lemma WorthOfGain(price: real, paid: real, qty: int)
    ensures Worth(price - paid, qty) == Worth(price, qty) - Worth(paid, qty)
  {
  }

  lemma WorthOrder(price: real, qty: int)
    ensures price >= 0.0 && qty >= 0 ==> Worth(price, qty) >= 0.0
    ensures price >= 0.01 && qty >= 1 ==> Worth(price, qty) >= 0.0001
  {
    if price >= 0.01 && qty >= 1 {
      ProductSign(price - 0.01, Contracts(qty));
      assert price * Contracts(qty) == 0.01 * Contracts(qty) + (price - 0.01) * Contracts(qty);
    } else if price >= 0.0 && qty >= 0 {
      ProductSign(price, Contracts(qty));
    }
  }

  lemma ProductSign(a: real, b: real)
    requires 0.0 <= a && 0.0 <= b
    ensures 0.0 <= a * b
  {
  }

  /** Rounding leaves a value alone when it is already on the grid. */
  lemma RoundExact(n: int)
    ensures RoundHalfEven(n as real) == n
    ensures Round2(Contracts(n)) == Contracts(n)
  {
    assert (n as real).Floor == n;
    assert Contracts(n) * 100.0 == n as real;
  }
}
