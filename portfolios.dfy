/** A portfolio: the assets it holds, keyed by asset id, and their aggregate value. */
module Portfolios {
  import opened Wrappers
  import opened Dicts
  import opened Positions
  import opened Valuation
  import opened Assets

  /**
   * Python's `==` between an int and an `Asset`: the asset class defines no `__eq__`, so
   * the comparison falls back to identity and an int never equals an asset.
   */
  predicate IntEqualsAsset(n: int, a: Asset)
  {
    false
  }

  /** `n in d.values()` for a dictionary of assets: some value compares equal to `n`. */
  predicate InAssetValues(n: int, held: seq<Asset>)
  {
    exists i | 0 <= i < |held| :: IntEqualsAsset(n, held[i])
  }

  /** The membership test of `add_asset` never succeeds: an id is never among the asset objects. */
  lemma InAssetValuesNever(n: int, held: seq<Asset>)
    ensures !InAssetValues(n, held)
  {
  }

  class Portfolio {
    var assets: Dict<nat, Asset>

    /** Each asset is filed under its own id, and no id twice. */
    ghost predicate Valid()
      reads this
    {
      && assets.Valid()
      && forall i | 0 <= i < |assets.items| :: assets.items[i].1.id == assets.items[i].0
    }

    constructor ()
      ensures Valid() && |assets.items| == 0
    {
      assets := Dict.Empty();
    }

    /** `portfolio.assets`: the assets in the order they were first added. */
    function Assets(): (held: seq<Asset>)
      reads this
      ensures |held| == |assets.items| && forall i | 0 <= i < |held| :: held[i] == assets.items[i].1
    {
      assets.Values()
    }

    /** The assets of a valid portfolio are listed under their own ids, so no asset is listed twice. */
    lemma AssetsAreDistinct()
      requires Valid()
      ensures forall i | 0 <= i < |Assets()| :: Assets()[i].id == assets.Keys()[i]
      ensures forall i, j | 0 <= i < j < |Assets()| :: Assets()[i].id != Assets()[j].id
    {
    }

    /**
     * `portfolio.add_asset(asset)`. The membership guard compares the id with the asset
     * objects of the values view, never matches, and so the asset is always written under
     * its id: a new id goes to the end, an id already present keeps its place and now
     * holds this asset, and adding the same asset again changes nothing.
     */
    method AddAsset(asset: Asset)
      requires Valid()
      modifies this
      ensures Valid()
      ensures assets == old(assets).Put(asset.id, asset)
      ensures asset.id !in old(assets.Keys()) ==> Assets() == old(Assets()) + [asset]
      ensures asset.id in old(assets.Keys()) ==> (
        && |Assets()| == old(|Assets()|)
        && forall i | 0 <= i < |Assets()| :: Assets()[i] == if old(assets.items[i].0) == asset.id then asset else old(Assets()[i]))
    {
      PutValues(assets, asset.id, asset);
      InAssetValuesNever(asset.id, Assets());
      if !InAssetValues(asset.id, Assets()) {
        UpdateWithOne(assets, asset.id, asset);
        assets := assets.Update(asset.ToDict());
      }
    }

    /** The data providers of the assets: all that a valuation of the portfolio may change. */
    ghost function Providers(): set<DataProvider>
      reads this
    {
      set a | a in Assets() :: a.provider
    }

    /** Snapshots of all the assets, in order: what a valuation of the portfolio reads. */
    ghost function Holdings(): (hs: seq<Holding>)
      reads this, Assets()
      ensures |hs| == |assets.items|
    {
      var held := Assets();
      seq(|held|, i requires 0 <= i < |held| reads held => held[i].Snapshot())
    }

    /**
     * `portfolio.value(as_of, initial)`: each asset valued in the same mode, in order, and
     * added up from 0; the first asset that raises aborts the sum with its error.
     */
    method Value(asOf: Option<Timestamp>, initial: bool) returns (r: Result<real, ValuationError>)
      modifies Providers()
      ensures r == PortfolioValue(old(Holdings()), asOf, initial)
    {
      var total: real := 0.0;
      var held := Assets();
      ghost var hs := Holdings();
      ghost var rs := AssetValues(hs, asOf, initial);
      var i := 0;
      while i < |held|
        invariant i <= |held| == |rs|
        invariant Sum(rs[..i]) == Success(total)
      {
        var asset := held[i];
        var v := asset.Value(asOf, initial);
        SumStep(rs, i, total);
        if v.Failure? {
          return v;
        }
        total := total + v.value;
        i := i + 1;
      }
      assert rs[..i] == rs;
      r := Success(total);
    }

    /**
     * `portfolio.rate_of_return(as_of)`: the value at cost, then the value at `as_of`, then
     * their difference relative to the value at cost, which fails when that is 0.
     */
    method RateOfReturn(asOf: Timestamp) returns (r: Result<real, ValuationError>)
      modifies Providers()
      ensures r == RateOfReturnOf(Holdings(), asOf)
    {
      var initialValue := Value(None, true);
      if initialValue.Failure? {
        return initialValue;
      }
      var valueAsOf := Value(Some(asOf), false);
      if valueAsOf.Failure? {
        return valueAsOf;
      }
      if initialValue.value == 0.0 {
        return Failure(ZeroInitialValue);
      }
      r := Success((valueAsOf.value - initialValue.value) / initialValue.value);
    }
  }
}
