/**
 * What a valuation computes, stated on values: an asset seen as a snapshot of its id,
 * its price provider and its lots, and a portfolio as the list of its assets' snapshots.
 * The valuation methods of `Asset` and `Portfolio` are proved to return exactly these results.
 */
module Valuation {
  import opened Wrappers
  import opened Positions

  /** The external price source: the price per unit of the asset with this id at this instant. */
  type PriceProvider = (nat, Timestamp) -> real

  /** The exceptions a valuation raises. */
  datatype ValuationError =
    | BothModes         // ValueError: `as_of` and `initial` were both given
    | NoneComparison    // TypeError: a lot's opening time was compared with `as_of=None`
    | ZeroInitialValue  // division by an initial value of zero

  /** What valuing one asset depends on: its id, its provider and its lots in insertion order. */
  datatype Holding = Holding(id: nat, provider: PriceProvider, positions: seq<Position>)

  /** Sum of the purchase values of the lots. */
  function InitialValue(ps: seq<Position>): real
  {
    if |ps| == 0 then 0.0 else InitialValue(ps[..|ps| - 1]) + ps[|ps| - 1].Value()
  }

  /** Total quantity of the lots opened on or before `t`. */
  function HeldQuantity(ps: seq<Position>, t: Timestamp): real
  {
    if |ps| == 0 then 0.0
    else HeldQuantity(ps[..|ps| - 1], t) + (if ps[|ps| - 1].OpenedAt(t) then ps[|ps| - 1].quantity else 0.0)
  }

  /** Sum, over the lots opened on or before `t`, of their quantity times `price`: the as-of total lot by lot. */
  function MarketValue(ps: seq<Position>, price: real, t: Timestamp): real
  {
    if |ps| == 0 then 0.0
    else MarketValue(ps[..|ps| - 1], price, t) + (if ps[|ps| - 1].OpenedAt(t) then ps[|ps| - 1].quantity * price else 0.0)
  }

  /**
   * `asset.value(as_of, initial)`: both modes at once is an error; `initial` is the total
   * purchase value; `as_of=t` is the provider's price at `t` times the quantity held at `t`;
   * with neither, any lot makes the comparison with `None` fail, and no lot gives 0.
   */
  function AssetValue(h: Holding, asOf: Option<Timestamp>, initial: bool): Result<real, ValuationError>
  {
    if asOf.Some? && initial then Failure(BothModes)
    else if initial then Success(InitialValue(h.positions))
    else if asOf.Some? then Success(h.provider(h.id, asOf.value) * HeldQuantity(h.positions, asOf.value))
    else if |h.positions| == 0 then Success(0.0)
    else Failure(NoneComparison)
  }

  /** The values `portfolio.value` draws from its generator, asset by asset, in order. */
  function AssetValues(hs: seq<Holding>, asOf: Option<Timestamp>, initial: bool): seq<Result<real, ValuationError>>
  {
    seq(|hs|, i requires 0 <= i < |hs| => AssetValue(hs[i], asOf, initial))
  }

  /** `sum(...)` over a generator: the values added up from 0 in order; the first failure aborts the sum. */
  function Sum(rs: seq<Result<real, ValuationError>>): Result<real, ValuationError>
  {
    if |rs| == 0 then Success(0.0)
    else match Sum(rs[..|rs| - 1])
      case Failure(e) => Failure(e)
      case Success(s) =>
        match rs[|rs| - 1]
        case Failure(e) => Failure(e)
        case Success(v) => Success(s + v)
  }

  /** `portfolio.value(as_of, initial)`: the assets' values added up in order; the first failure aborts the sum. */
  function PortfolioValue(hs: seq<Holding>, asOf: Option<Timestamp>, initial: bool): Result<real, ValuationError>
  {
    Sum(AssetValues(hs, asOf, initial))
  }

  /** The running total of a valuation after one more lot, in the mode asked for. */
  lemma LotStep(ps: seq<Position>, i: nat, price: real, t: Timestamp, initial: bool, total: real)
    requires i < |ps|
    requires total == if initial then InitialValue(ps[..i]) else MarketValue(ps[..i], price, t)
    ensures initial ==> total + ps[i].Value() == InitialValue(ps[..i + 1])
    ensures !initial && ps[i].OpenedAt(t) ==> total + ps[i].quantity * price == MarketValue(ps[..i + 1], price, t)
    ensures !initial && !ps[i].OpenedAt(t) ==> total == MarketValue(ps[..i + 1], price, t)
  {
    assert ps[..i + 1][..i] == ps[..i];
  }

  /** Valuing lot by lot at one price is valuing the total quantity held at that price. */
  lemma {:induction false} MarketValueFactors(ps: seq<Position>, price: real, t: Timestamp)
    ensures MarketValue(ps, price, t) == price * HeldQuantity(ps, t)
  {
    if |ps| > 0 {
      var init, last := ps[..|ps| - 1], ps[|ps| - 1];
      MarketValueFactors(init, price, t);
      if last.OpenedAt(t) {
        calc {
          MarketValue(ps, price, t);
          price * HeldQuantity(init, t) + last.quantity * price;
          price * (HeldQuantity(init, t) + last.quantity);
        }
      }
    }
  }

  /** A lot-by-lot total in the mode asked for is the asset's value in that mode. */
  lemma RunningTotalIsValue(h: Holding, asOf: Option<Timestamp>, initial: bool, total: real)
    requires !(asOf.Some? && initial)
    requires initial ==> total == InitialValue(h.positions)
    requires asOf.Some? ==> total == MarketValue(h.positions, h.provider(h.id, asOf.value), asOf.value)
    requires asOf.None? && !initial ==> |h.positions| == 0 && total == 0.0
    ensures AssetValue(h, asOf, initial) == Success(total)
  {
    var r := AssetValue(h, asOf, initial);
    if asOf.Some? {
      MarketValueFactors(h.positions, h.provider(h.id, asOf.value), asOf.value);
    }
    assert r.Success? && r.value == total;
  }

  /**
   * One more value in a running sum: its success extends the sum, its failure is the
   * failure of the whole sum.
   */
  lemma SumStep(rs: seq<Result<real, ValuationError>>, i: nat, total: real)
    requires i < |rs| && Sum(rs[..i]) == Success(total)
    ensures rs[i].Success? ==> Sum(rs[..i + 1]) == Success(total + rs[i].value)
    ensures rs[i].Failure? ==> Sum(rs) == rs[i]
  {
    assert rs[..i + 1][..i] == rs[..i];
    var step := Sum(rs[..i + 1]);
    if rs[i].Success? {
      assert step.Success? && step.value == total + rs[i].value;
    } else {
      assert step.Failure? && step.error == rs[i].error;
      FailurePersists(rs, i + 1);
      assert rs[..|rs|] == rs;
    }
  }

  /** Once a prefix of the values fails, the whole sum fails with the same error. */
  lemma {:induction false} FailurePersists(rs: seq<Result<real, ValuationError>>, n: nat)
    requires n <= |rs| && Sum(rs[..n]).Failure?
    ensures Sum(rs) == Sum(rs[..n])
    decreases |rs| - n
  {
    if n < |rs| {
      var init := rs[..|rs| - 1];
      assert init[..n] == rs[..n];
      FailurePersists(init, n);
    } else {
      assert rs[..n] == rs;
    }
  }

  /** A portfolio's value is the value of all its assets but the last, extended by the last asset's value. */
  lemma PortfolioValueLast(hs: seq<Holding>, asOf: Option<Timestamp>, initial: bool)
    requires |hs| > 0
    ensures PortfolioValue(hs, asOf, initial) ==
      match PortfolioValue(hs[..|hs| - 1], asOf, initial)
      case Failure(e) => Failure(e)
      case Success(s) =>
        match AssetValue(hs[|hs| - 1], asOf, initial)
        case Failure(e) => Failure(e)
        case Success(v) => Success(s + v)
  {
    var rs := AssetValues(hs, asOf, initial);
    assert rs[..|rs| - 1] == AssetValues(hs[..|hs| - 1], asOf, initial);
  }

  /** Sum over the assets of their total purchase value. */
  function TotalInitial(hs: seq<Holding>): real
  {
    if |hs| == 0 then 0.0 else TotalInitial(hs[..|hs| - 1]) + InitialValue(hs[|hs| - 1].positions)
  }

  /** Sum over the assets of their price at `t` times the quantity they hold at `t`. */
  function TotalAsOf(hs: seq<Holding>, t: Timestamp): real
  {
    if |hs| == 0 then 0.0
    else
      var h := hs[|hs| - 1];
      TotalAsOf(hs[..|hs| - 1], t) + h.provider(h.id, t) * HeldQuantity(h.positions, t)
  }

  /** `portfolio.rate_of_return(as_of)`: the initial value first, then the value at `as_of`, then the relative change. */
  function RateOfReturnOf(hs: seq<Holding>, asOf: Timestamp): Result<real, ValuationError>
  {
    var initialValue := PortfolioValue(hs, None, true);
    var valueAsOf := PortfolioValue(hs, Some(asOf), false);
    if initialValue.Failure? then initialValue
    else if valueAsOf.Failure? then valueAsOf
    else if initialValue.value == 0.0 then Failure(ZeroInitialValue)
    else Success((valueAsOf.value - initialValue.value) / initialValue.value)
  }

  /** In `initial` mode the portfolio value never fails and is the sum of every lot's purchase value. */
  lemma {:induction false} PortfolioInitialIsTotal(hs: seq<Holding>)
    ensures PortfolioValue(hs, None, true) == Success(TotalInitial(hs))
  {
    if |hs| > 0 {
      PortfolioValueLast(hs, None, true);
      PortfolioInitialIsTotal(hs[..|hs| - 1]);
    }
  }

  /** In `as_of` mode the portfolio value never fails and is each asset's price times its held quantity, summed. */
  lemma {:induction false} PortfolioAsOfIsTotal(hs: seq<Holding>, t: Timestamp)
    ensures PortfolioValue(hs, Some(t), false) == Success(TotalAsOf(hs, t))
  {
    if |hs| > 0 {
      var h := hs[|hs| - 1];
      PortfolioValueLast(hs, Some(t), false);
      PortfolioAsOfIsTotal(hs[..|hs| - 1], t);
      var v := AssetValue(h, Some(t), false);
      assert v.Success? && v.value == h.provider(h.id, t) * HeldQuantity(h.positions, t);
      assert TotalAsOf(hs, t) == TotalAsOf(hs[..|hs| - 1], t) + v.value;
    }
  }

  /** Asking for both modes fails as soon as there is one asset; an empty portfolio never asks and is worth 0. */
  lemma {:induction false} PortfolioBothModes(hs: seq<Holding>, t: Timestamp)
    ensures PortfolioValue(hs, Some(t), true) == if |hs| == 0 then Success(0.0) else Failure(BothModes)
  {
    if |hs| > 0 {
      PortfolioValueLast(hs, Some(t), true);
    }
    if |hs| > 1 {
      PortfolioBothModes(hs[..|hs| - 1], t);
    }
  }

  /** With neither mode, the portfolio is worth 0 when no asset holds a lot and fails otherwise. */
  lemma {:induction false} PortfolioNoMode(hs: seq<Holding>)
    ensures PortfolioValue(hs, None, false) ==
      if forall i | 0 <= i < |hs| :: |hs[i].positions| == 0 then Success(0.0) else Failure(NoneComparison)
  {
    if |hs| > 0 {
      var init := hs[..|hs| - 1];
      PortfolioValueLast(hs, None, false);
      PortfolioNoMode(init);
      assert forall i | 0 <= i < |init| :: init[i] == hs[i];
    }
  }

  /**
   * The rate of return is undefined exactly when the total purchase value is 0; otherwise
   * it is the change from the total purchase value to the total value at `t`, relative to
   * the former.
   */
  lemma RateOfReturnCases(hs: seq<Holding>, t: Timestamp)
    ensures RateOfReturnOf(hs, t).Failure? <==> TotalInitial(hs) == 0.0
    ensures RateOfReturnOf(hs, t).Failure? ==> RateOfReturnOf(hs, t).error == ZeroInitialValue
    ensures RateOfReturnOf(hs, t).Success? ==>
      RateOfReturnOf(hs, t).value * TotalInitial(hs) == TotalAsOf(hs, t) - TotalInitial(hs)
  {
    PortfolioInitialIsTotal(hs);
    PortfolioAsOfIsTotal(hs, t);
  }

  /** Lots all open at `t` and all bought at price `price` are worth, at that price, exactly what was paid. */
  lemma {:induction false} HeldAtCost(ps: seq<Position>, t: Timestamp, price: real)
    requires forall i | 0 <= i < |ps| :: ps[i].OpenedAt(t) && ps[i].pricePerUnit == price
    ensures price * HeldQuantity(ps, t) == InitialValue(ps)
  {
    if |ps| > 0 {
      var init, last := ps[..|ps| - 1], ps[|ps| - 1];
      HeldAtCost(init, t, price);
      calc {
        price * HeldQuantity(ps, t);
        price * (HeldQuantity(init, t) + last.quantity);
        price * HeldQuantity(init, t) + price * last.quantity;
        InitialValue(init) + last.quantity * last.pricePerUnit;
      }
    }
  }

  /**
   * The two valuation modes agree when every lot is already open and the provider quotes
   * exactly the price each lot was bought at.
   */
  lemma AtCostValuation(h: Holding, t: Timestamp)
    requires forall i | 0 <= i < |h.positions| ::
      h.positions[i].OpenedAt(t) && h.positions[i].pricePerUnit == h.provider(h.id, t)
    ensures AssetValue(h, Some(t), false) == AssetValue(h, None, true)
  {
    var price := h.provider(h.id, t);
    HeldAtCost(h.positions, t, price);
    var v := AssetValue(h, Some(t), false);
    assert v.Success? && v.value == price * HeldQuantity(h.positions, t);
  }

  /** A lot's purchase value is what an as-of valuation at its own purchase price gives, once it is open. */
  lemma PositionValueAtCost(p: Position, t: Timestamp)
    requires p.OpenedAt(t)
    ensures p.pricePerUnit * HeldQuantity([p], t) == p.Value() == InitialValue([p])
  {
    HeldAtCost([p], t, p.pricePerUnit);
  }

  /**
   * One asset with lots of 20 at 10 and 30 at 40, both opened at `t`, and a provider
   * quoting 50: worth 2500 at `t`, 1400 at cost, a rate of return of 1100/1400.
   */
  lemma TwoLotExample(t: Timestamp)
    ensures var h := Holding(0, (id: nat, at: Timestamp) => 50.0,
                             [Position(1, t, 20.0, 10.0), Position(2, t, 30.0, 40.0)]);
      && AssetValue(h, Some(t), false) == Success(2500.0)
      && AssetValue(h, None, true) == Success(1400.0)
      && RateOfReturnOf([h], t) == Success(1100.0 / 1400.0)
  {
    var h := Holding(0, (id: nat, at: Timestamp) => 50.0,
                     [Position(1, t, 20.0, 10.0), Position(2, t, 30.0, 40.0)]);
    var first := h.positions[..1];
    assert first[..0] == [];
    assert HeldQuantity(first, t) == 20.0;
    assert HeldQuantity(h.positions, t) == 50.0;
    assert InitialValue(first) == 200.0;
    assert InitialValue(h.positions) == 1400.0;
    PortfolioValueLast([h], None, true);
    PortfolioValueLast([h], Some(t), false);
    assert [h][..0] == [];
    assert PortfolioValue([h], None, true) == Success(1400.0);
    assert PortfolioValue([h], Some(t), false) == Success(2500.0);
  }
}
