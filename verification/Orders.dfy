/** Kalshi order arithmetic: the executor's buy limit and count, the stop-loss
    sell limit and count, and the client's snapping and validation. */
module Orders {
  import opened Units
  import opened Journal

  datatype Side = Bid | Ask

  /** What goes over the wire: hundredths of a contract at whole cents. */
  datatype Order = Order(ticker: string, side: Side, centis: int, cents: int)

  function Clamp(cents: int): (c: int)
    ensures 1 <= c <= 99
  {
    if cents < 1 then 1 else if cents > 99 then 99 else cents
  }

  function Dollars(cents: int): real {
    cents as real / 100.0
  }

  /** `min(0.99, max(0.01, ceil(price * (1 + offset) * 100) / 100))`, in cents. */
  function BuyCents(price: real, offset: real): int {
    Clamp(Ceil(price * (1.0 + offset) * 100.0))
  }

  /** `max(1, int(size / limit))` whole contracts. */
  function BuyCount(size: real, limit: real): (n: int)
    requires limit > 0.0
    ensures n >= 1
  {
    var n := Truncate(size / limit);
    if n < 1 then 1 else n
  }

  /** Python's `int(x)`: towards zero. */
  function Truncate(x: real): int {
    if x >= 0.0 then x.Floor else Ceil(x)
  }

  /** `min(0.99, max(0.01, floor(mark * 0.99 * 100) / 100))`, in cents. */
  function SellCents(mark: real): int {
    Clamp((mark * 0.99 * 100.0).Floor)
  }

  /** `round(shares, 2)`, in hundredths. */
  function SellCentis(shares: real): int {
    RoundHalfEven(shares * 100.0)
  }

  /** `create_order`'s snap and checks; None is its ValueError. */
  function Snap(ticker: string, side: Side, count: real, price: real): (o: Option<Order>)
    ensures o.Some? ==> 1 <= o.value.cents <= 99 && o.value.centis >= 1
  {
    var cents := RoundHalfEven(price * 100.0);
    var centis := RoundHalfEven(count * 100.0);
    if 1 <= cents <= 99 && centis >= 1 then Some(Order(ticker, side, centis, cents)) else None
  }

  /** The buy limit is a whole cent in 1..99 that covers the signal price, and no
      cheaper cent covers the offset price. */
  lemma BuyLimitCovers(price: real, offset: real)
    requires 0.0 < price <= 0.99 && 0.0 <= offset
    ensures price <= Dollars(BuyCents(price, offset)) <= 0.99
    ensures BuyCents(price, offset) > 1 ==>
              Dollars(BuyCents(price, offset) - 1) < price * (1.0 + offset)
  {
    var raw := price * (1.0 + offset);
    assert raw == price + price * offset;
    assert price * offset >= 0.0;
  }

  /** `create_order` sends exactly the buy the executor priced. */
  lemma BuyPassesUnchanged(ticker: string, size: real, price: real, offset: real)
    ensures var cents := BuyCents(price, offset);
            var count := BuyCount(size, Dollars(cents));
            Snap(ticker, Bid, count as real, Dollars(cents)) == Some(Order(ticker, Bid, 100 * count, cents))
  {
    var cents := BuyCents(price, offset);
    var count := BuyCount(size, Dollars(cents));
    assert Dollars(cents) * 100.0 == cents as real;
    RoundExact(cents);
    assert count as real * 100.0 == (100 * count) as real;
    RoundExact(100 * count);
  }

  lemma QuotientAtLeast(n: real, size: real, limit: real)
    requires 0.0 < limit
    ensures n <= size / limit <==> n * limit <= size
  {
    var q := size / limit;
    assert q * limit == size;
    if n <= q {
      assert (q - n) * limit >= 0.0;
    } else {
      assert (n - q) * limit > 0.0;
    }
  }

  /** A size that buys at least one contract is spent to within one contract. */
  lemma BuyFitsSize(size: real, limit: real)
    requires 0.0 < limit <= size
    ensures var n := BuyCount(size, limit) as real; n * limit <= size < (n + 1.0) * limit
  {
    var n := BuyCount(size, limit) as real;
    QuotientAtLeast(1.0, size, limit);
    QuotientAtLeast(n, size, limit);
    QuotientAtLeast(n + 1.0, size, limit);
  }

  /** The one-contract minimum overspends exactly when one contract at the limit
      costs more than the approved size, and then by less than one contract. */
  lemma OverspendsIff(size: real, limit: real)
    requires 0.0 < limit && 0.0 < size
    ensures BuyCount(size, limit) as real * limit > size <==> size < limit
    ensures BuyCount(size, limit) as real * limit < size + limit
  {
    if size >= limit {
      BuyFitsSize(size, limit);
    } else {
      QuotientAtLeast(1.0, size, limit);
      QuotientAtLeast(0.0, size, limit);
      assert BuyCount(size, limit) == 1;
    }
  }

  /** The stop-loss order: a whole cent at or below the mark, unchanged by the
      client, and refused only for less than a hundredth of a contract. */
  lemma SellPassesUnchanged(ticker: string, shares: real, mark: real)
    requires 0.01 <= mark <= 0.99
    ensures Dollars(SellCents(mark)) <= mark
    ensures Snap(ticker, Ask, Contracts(SellCentis(shares)), Dollars(SellCents(mark)))
         == if SellCentis(shares) >= 1 then Some(Order(ticker, Ask, SellCentis(shares), SellCents(mark))) else None
  {
    var cents, centis := SellCents(mark), SellCentis(shares);
    assert Dollars(cents) * 100.0 == cents as real;
    RoundExact(cents);
    assert Contracts(centis) * 100.0 == centis as real;
    RoundExact(centis);
  }
}
