/** One Kalshi position from fill to close: what the journal row says after any
    sequence of partial exits, and what its recorded PnL is worth. */
module Position {
  import opened Units
  import opened Journal
  import opened Orders
  import opened Settlement

  /** One execution on the exchange. */
  datatype Fill = Fill(qty: nat, price: real)

  function SoldBy(exits: seq<Fill>): nat {
    if exits == [] then 0 else SoldBy(exits[..|exits| - 1]) + exits[|exits| - 1].qty
  }

  function Proceeds(exits: seq<Fill>): real {
    if exits == [] then 0.0
    else
      var e := exits[|exits| - 1];
      Proceeds(exits[..|exits| - 1]) + Worth(e.price, e.qty)
  }

  /** metadata.partial_exit_pnl after these exits: every addition is rounded. */
  function Bank(paid: real, exits: seq<Fill>): real {
    if exits == [] then 0.0
    else
      var e := exits[|exits| - 1];
      Round6(Bank(paid, exits[..|exits| - 1]) + Worth(e.price - paid, e.qty))
  }

  /** Exchange prices are 1 to 99 cents and a fill is at least 0.01 contracts. */
  predicate Tradable(exits: seq<Fill>) {
    forall i :: 0 <= i < |exits| ==> exits[i].qty >= 1 && 0.01 <= exits[i].price <= 0.99
  }

  /** The row of a position bought as `bought` hundredths at `paid`, after `exits`. */
  predicate Tracks(r: Row, bought: nat, paid: real, exits: seq<Fill>) {
    && r.entryPrice == paid
    && r.shares == Contracts(bought - SoldBy(exits))
    && r.partialPnl == Bank(paid, exits)
    && r.sizeUsd == if exits == [] then Worth(paid, bought) else Round6(Cost(paid, r.shares))
  }

  lemma ExitsGrow(paid: real, exits: seq<Fill>, e: Fill)
    ensures SoldBy(exits + [e]) == SoldBy(exits) + e.qty
    ensures Proceeds(exits + [e]) == Proceeds(exits) + Worth(e.price, e.qty)
    ensures Bank(paid, exits + [e]) == Round6(Bank(paid, exits) + Worth(e.price - paid, e.qty))
  {
    var grown := exits + [e];
    assert grown[..|grown| - 1] == exits && grown[|grown| - 1] == e;
  }

  /** Selling `qty` of `held` hundredths: the journal closes the row exactly when
      nothing is left, and otherwise keeps exactly the remainder. */
  lemma RemainderExact(held: int, qty: nat)
    ensures Contracts(qty) < Contracts(held) - 0.005 <==> qty < held
    ensures Round2(Contracts(held) - Contracts(qty)) == Contracts(held - qty)
    ensures SellCentis(Contracts(held)) == held
  {
    assert Contracts(held) - Contracts(qty) == Contracts(held - qty);
    RoundExact(held - qty);
    assert Contracts(held) * 100.0 == held as real;
    RoundExact(held);
  }

  /** What a reported Kalshi sale of part or all of the row writes. */
  lemma SaleOp(id: nat, r: Row, held: int, mark: real, sale: Sale)
    requires r.shares == Contracts(held) && r.direction.YES?
    requires sale.Sold? && sale.reported && 0 < sale.qty <= held
    ensures StopOp(KalshiExit, id, r, mark, sale)
         == Some(if sale.qty < held
                 then PartialExit(id, Contracts(held - sale.qty), Round6(Worth(r.entryPrice, held - sale.qty)),
                                  Worth(sale.price - r.entryPrice, sale.qty))
                 else RecordExit(id, false, Worth(sale.price - r.entryPrice, sale.qty)))
  {
    RemainderExact(held, sale.qty);
  }

  /** A stop that sells less than the remainder keeps the row tracking the position. */
  lemma PartialKeepsTrack(id: nat, r: Row, bought: nat, paid: real, exits: seq<Fill>, mark: real, sale: Sale)
    requires Tracks(r, bought, paid, exits) && r.direction.YES?
    requires sale.Sold? && sale.reported && 0 < sale.qty < bought - SoldBy(exits)
    ensures var op := StopOp(KalshiExit, id, r, mark, sale);
            && op.Some? && op.value.PartialExit? && op.value.id == id
            && Tracks(Rewrite(r, op.value), bought, paid, exits + [Fill(sale.qty, sale.price)])
            && Rewrite(r, op.value).outcome == r.outcome
  {
    SaleOp(id, r, bought - SoldBy(exits), mark, sale);
    ExitsGrow(paid, exits, Fill(sale.qty, sale.price));
  }

  /** A stop that sells the whole remainder closes the row with that chunk alone. */
  lemma FullStopCloses(id: nat, r: Row, bought: nat, paid: real, exits: seq<Fill>, mark: real, sale: Sale)
    requires Tracks(r, bought, paid, exits) && r.direction.YES?
    requires sale.Sold? && sale.reported && 0 < sale.qty == bought - SoldBy(exits)
    ensures StopOp(KalshiExit, id, r, mark, sale) == Some(RecordExit(id, false, Worth(sale.price - paid, sale.qty)))
  {
    SaleOp(id, r, bought - SoldBy(exits), mark, sale);
  }

  /** The rounding in the bank: half a micro-dollar per exit. */
  lemma {:induction false} BankError(paid: real, exits: seq<Fill>)
    ensures Abs(Bank(paid, exits) - (Proceeds(exits) - Worth(paid, SoldBy(exits)))) <= |exits| as real * HALF_MICRO
  {
    if exits != [] {
      var n := |exits| - 1;
      var e := exits[n];
      BankError(paid, exits[..n]);
      WorthAdds(paid, SoldBy(exits[..n]), e.qty);
      WorthOfGain(e.price, paid, e.qty);
      assert |exits| as real * HALF_MICRO == n as real * HALF_MICRO + HALF_MICRO;
    }
  }

  /** The size column of a partly exited row is off by at most half a micro-dollar. */
  lemma SizeError(r: Row, bought: nat, paid: real, exits: seq<Fill>)
    requires Tracks(r, bought, paid, exits)
    ensures Abs(r.sizeUsd - Cost(paid, r.shares)) <= HALF_MICRO
    ensures exits == [] ==> r.sizeUsd == Cost(paid, r.shares)
  {
  }

  /** How far the recorded PnL may sit from the exact one. */
  function Tolerance(exits: seq<Fill>): real {
    101.0 * HALF_MICRO * |exits| as real
  }

  /** Settlement after any split of the exit: the recorded PnL is what the exits
      brought in, plus the payout of the rest, minus what was paid. */
  lemma SettledPnlExact(r: Row, bought: nat, paid: real, exits: seq<Fill>, yesWon: bool)
    requires Tracks(r, bought, paid, exits) && r.direction.YES? && 0.01 <= paid <= 0.99
    ensures var payout := if yesWon then r.shares else 0.0;
            Abs(ComputePnl(r, yesWon) - (Proceeds(exits) + payout - Worth(paid, bought))) <= Tolerance(exits)
  {
    BankError(paid, exits);
    SizeError(r, bought, paid, exits);
    WorthAdds(paid, SoldBy(exits), bought - SoldBy(exits));
    RemainderPnl(r.sizeUsd, paid, r.shares, yesWon);
    assert ComputePnl(r, yesWon)
        == (r.sizeUsd / paid) * (if yesWon then 1.0 else 0.0) - r.sizeUsd + r.partialPnl;
    if exits != [] {
      assert |exits| as real * HALF_MICRO + 100.0 * HALF_MICRO <= Tolerance(exits);
    }
  }

  /** The payoff computed from the rounded size instead of the share count. */
  lemma RemainderPnl(size: real, paid: real, shares: real, yesWon: bool)
    requires 0.01 <= paid <= 0.99
    requires Abs(size - Cost(paid, shares)) <= HALF_MICRO
    ensures var exact := (if yesWon then shares else 0.0) - Cost(paid, shares);
            var computed := (size / paid) * (if yesWon then 1.0 else 0.0) - size;
            Abs(computed - exact) <= 100.0 * HALF_MICRO && (size == Cost(paid, shares) ==> computed == exact)
  {
    var e := size - Cost(paid, shares);
    var d := size / paid - shares;
    assert d * paid == e by {
      assert (size / paid) * paid == size;
    }
    // d = e / paid, so |d| <= 100 |e|, and d - e = d (1 - paid) lies between 0 and d
    Between(d, paid);
    assert d * (1.0 - paid) == d - e;
  }

  lemma Between(d: real, paid: real)
    requires 0.01 <= paid <= 0.99
    ensures Abs(d) * 0.01 <= Abs(d * paid)
    ensures Abs(d * (1.0 - paid)) <= Abs(d)
  {
    var m := Abs(d);
    ProductSign(m, paid - 0.01);
    ProductSign(m, 1.0 - paid);
    assert m * (paid - 0.01) == m * paid - m * 0.01;
    assert m * (1.0 - paid) == m - m * paid;
    assert Abs(d * paid) == m * paid && Abs(d * (1.0 - paid)) == m * (1.0 - paid);
  }

  /** A full stop closes the trade; the chunk in `pnl` and the earlier chunks in the
      bank together are what the exits brought in minus what was paid. */
  lemma StoppedPnlExact(bought: nat, paid: real, exits: seq<Fill>, e: Fill)
    requires SoldBy(exits) + e.qty == bought
    ensures var recorded := Worth(e.price - paid, e.qty) + Bank(paid, exits);
            Abs(recorded - (Proceeds(exits + [e]) - Worth(paid, bought))) <= |exits| as real * HALF_MICRO
  {
    BankError(paid, exits);
    ExitsGrow(paid, exits, e);
    WorthAdds(paid, SoldBy(exits), e.qty);
    WorthOfGain(e.price, paid, e.qty);
  }

  /** Each exit brings in at least a cent on a hundredth of a contract. */
  lemma {:induction false} ProceedsAtLeast(exits: seq<Fill>)
    requires Tradable(exits)
    ensures Proceeds(exits) >= 0.0001 * |exits| as real
  {
    if exits != [] {
      var n := |exits| - 1;
      ProceedsAtLeast(exits[..n]);
      WorthOrder(exits[n].price, exits[n].qty);
      assert 0.0001 * |exits| as real == 0.0001 * n as real + 0.0001;
    }
  }

  /** However the exit is split, the trade never records a loss beyond its cost:
      what each exit brings in outweighs all the rounding it causes. */
  lemma NeverLosesMoreThanCost(r: Row, bought: nat, paid: real, exits: seq<Fill>, yesWon: bool)
    requires Tracks(r, bought, paid, exits) && r.direction.YES? && 0.01 <= paid <= 0.99
    requires Tradable(exits) && SoldBy(exits) <= bought
    ensures ComputePnl(r, yesWon) >= -Worth(paid, bought)
    ensures forall e: Fill :: SoldBy(exits) + e.qty == bought && 0.0 <= e.price ==>
              Worth(e.price - paid, e.qty) + Bank(paid, exits) >= -Worth(paid, bought)
  {
    SettledPnlExact(r, bought, paid, exits, yesWon);
    ProceedsAtLeast(exits);
    assert |exits| as real * HALF_MICRO <= Tolerance(exits) <= 0.0001 * |exits| as real;
    assert r.shares >= 0.0;
    forall e: Fill | SoldBy(exits) + e.qty == bought && 0.0 <= e.price
      ensures Worth(e.price - paid, e.qty) + Bank(paid, exits) >= -Worth(paid, bought)
    {
      StoppedPnlExact(bought, paid, exits, e);
      ExitsGrow(paid, exits, e);
      WorthOrder(e.price, e.qty);
    }
  }
}
