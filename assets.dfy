/**
 * Assets: one tradable instrument on one exchange, owning its purchase lots, and the
 * process-wide registry that makes every construction for the same "symbol-exchange"
 * key share one state.
 */
module Assets {
  import opened Wrappers
  import opened Dicts
  import opened Identity
  import opened Positions
  import opened Valuation

  /** The registry key: the symbol, a dash, and the exchange as it prints (its name). */
  function Key(symbol: string, exchange: string): (k: string)
    ensures |k| == |symbol| + 1 + |exchange|
    ensures k[..|symbol|] == symbol && k[|symbol|] == '-' && k[|symbol| + 1..] == exchange
  {
    symbol + "-" + exchange
  }

  /**
   * The key does not tell the pair apart: a symbol or an exchange name that contains a
   * dash can make two different pairs share one key, and hence one state.
   */
  lemma KeyIsNotInjective()
    ensures Key("A-B", "C") == Key("A", "B-C")
  {
  }

  /**
   * The data provider an asset asks for prices. `quote` is what it answers for an asset id
   * and an instant; `asked` records every question put to it, in order.
   */
  class DataProvider {
    const quote: PriceProvider
    ghost var asked: seq<(nat, Timestamp)>

    constructor (quote: PriceProvider)
      ensures this.quote == quote && asked == []
    {
      this.quote := quote;
      asked := [];
    }

    /** `provider.get_price_for_asset(asset, as_of)`: one question, answered from `quote` and recorded. */
    method GetPriceForAsset(asset: nat, asOf: Timestamp) returns (price: real)
      modifies this
      ensures price == quote(asset, asOf)
      ensures asked == old(asked) + [(asset, asOf)]
    {
      price := quote(asset, asOf);
      asked := asked + [(asset, asOf)];
    }
  }

  /**
   * The shared state of an asset. The registry hands out one object per key, so every
   * reference to "the asset with this key" is this one object.
   */
  class Asset {
    const id: nat
    const exchange: string
    const symbol: string
    const provider: DataProvider
    var positions: Dict<nat, Position>

    /** Each lot is filed under its own id. */
    ghost predicate Valid()
      reads this
    {
      && positions.Valid()
      && forall i | 0 <= i < |positions.items| :: positions.items[i].1.id == positions.items[i].0
    }

    constructor (id: nat, exchange: string, symbol: string, provider: DataProvider)
      ensures Valid()
      ensures this.id == id && this.exchange == exchange && this.symbol == symbol && this.provider == provider
      ensures |positions.items| == 0
    {
      this.id := id;
      this.exchange := exchange;
      this.symbol := symbol;
      this.provider := provider;
      positions := Dict.Empty();
    }

    /** `{id: asset}`: the one-entry dictionary that files this asset under its own id. */
    function ToDict(): (d: Dict<nat, Asset>)
      ensures d.Valid() && d.Keys() == [id] && d.Values() == [this]
    {
      Dict([(id, this)])
    }

    /** `asset.positions`: the lots in the order they were first added. */
    function Positions(): (ps: seq<Position>)
      reads this
      ensures |ps| == |positions.items| && forall i | 0 <= i < |ps| :: ps[i] == positions.items[i].1
    {
      positions.Values()
    }

    /** The lots of a valid asset are listed under their own ids, so no lot is listed twice. */
    lemma LotsAreDistinct()
      requires Valid()
      ensures forall i | 0 <= i < |Positions()| :: Positions()[i].id == positions.Keys()[i]
      ensures forall i, j | 0 <= i < j < |Positions()| :: Positions()[i].id != Positions()[j].id
    {
    }

    /** What a valuation of this asset depends on. */
    function Snapshot(): Holding
      reads this
    {
      Holding(id, provider.quote, Positions())
    }

    /**
     * `asset.get_price(as_of)`: every call puts exactly one new question about this asset
     * to the asset's own provider, nothing cached, and returns its answer.
     */
    method GetPrice(asOf: Timestamp) returns (price: real)
      modifies provider
      ensures price == provider.quote(id, asOf)
      ensures provider.asked == old(provider.asked) + [(id, asOf)]
    {
      price := provider.GetPriceForAsset(id, asOf);
    }

    /**
     * `asset.add_position(position)`: files the lot under its id. A lot already present
     * keeps its place, so adding it again changes nothing; no other lot is touched.
     */
    method AddPosition(p: Position)
      requires Valid()
      modifies this
      ensures Valid()
      ensures positions == old(positions).Put(p.id, p)
      ensures p.id !in old(positions.Keys()) ==> Positions() == old(Positions()) + [p]
      ensures p.id in old(positions.Keys()) ==> (
        && |Positions()| == old(|Positions()|)
        && forall i | 0 <= i < |Positions()| :: Positions()[i] == if old(positions.items[i].0) == p.id then p else old(Positions()[i]))
    {
      PutValues(positions, p.id, p);
      UpdateWithOne(positions, p.id, p);
      positions := positions.Update(p.ToDict());
    }

    /**
     * `asset.value(as_of, initial)`: the lots are visited in order and their values added
     * up, in the mode asked for. The provider is asked exactly once, about `as_of`, in the
     * `as_of` mode, and never otherwise; the lots are left as they were.
     */
    method Value(asOf: Option<Timestamp>, initial: bool) returns (r: Result<real, ValuationError>)
      modifies provider
      ensures r == AssetValue(Snapshot(), asOf, initial)
      ensures provider.asked == old(provider.asked) + if asOf.Some? && !initial then [(id, asOf.value)] else []
    {
      if asOf.Some? && initial {
        return Failure(BothModes);
      }
      var price: real := 0.0;
      if asOf.Some? {
        price := GetPrice(asOf.value);
      }
      var total: real := 0.0;
      var lots := Positions();
      ghost var t := if asOf.Some? then asOf.value else 0;
      ghost var asked := provider.asked;
      var i := 0;
      while i < |lots|
        invariant i <= |lots| && provider.asked == asked
        invariant total == if initial then InitialValue(lots[..i]) else MarketValue(lots[..i], price, t)
        invariant asOf.None? && !initial ==> i == 0
      {
        var position := lots[i];
        LotStep(lots, i, price, t, initial, total);
        if initial {
          total := total + position.Value();
        } else if asOf.None? {
          r := Failure(NoneComparison);
          return;
        } else if position.OpenedAt(asOf.value) {
          total := total + position.quantity * price;
        }
        i := i + 1;
      }
      assert lots[..i] == lots;
      RunningTotalIsValue(Snapshot(), asOf, initial, total);
      r := Success(total);
    }
  }

  /**
   * `Asset.__instances`: the asset state registered under each key, with the id counter
   * that positions and assets both draw from.
   */
  class Registry {
    const ids: IdCounter
    var instances: map<string, Asset>

    /** Each state sits under its own key, holds an id already issued, and no two share an id. */
    ghost predicate Valid()
      reads this, ids, instances.Values
    {
      && ids.Valid()
      && (forall k | k in instances :: Key(instances[k].symbol, instances[k].exchange) == k)
      && (forall k | k in instances :: instances[k].id in ids.issued && instances[k].Valid())
      && (forall k, k' | k in instances && k' in instances && k != k' :: instances[k].id != instances[k'].id)
    }

    constructor (ids: IdCounter)
      requires ids.Valid()
      ensures Valid() && this.ids == ids && instances == map[]
    {
      this.ids := ids;
      instances := map[];
    }

    /**
     * `Asset(exchange, symbol, data_provider)`: the first construction for a key draws a
     * new id, keeps this provider and registers an asset with no lots; every later one
     * returns that same state, draws no id and ignores its own provider.
     */
    method Construct(exchange: string, symbol: string, provider: DataProvider) returns (a: Asset)
      requires Valid()
      modifies this, ids
      ensures Valid() && a.Valid()
      ensures Key(symbol, exchange) in old(instances) ==>
        && a == old(instances[Key(symbol, exchange)])
        && instances == old(instances)
        && ids.next == old(ids.next) && ids.issued == old(ids.issued)
      ensures Key(symbol, exchange) !in old(instances) ==>
        && fresh(a)
        && a.id == old(ids.next) && ids.next == a.id + 1
        && a.id !in old(ids.issued) && ids.issued == old(ids.issued) + {a.id}
        && a.exchange == exchange && a.symbol == symbol && a.provider == provider
        && |a.positions.items| == 0
        && instances == old(instances)[Key(symbol, exchange) := a]
    {
      var key := Key(symbol, exchange);
      if key in instances {
        a := instances[key];
      } else {
        var id := ids.Next();
        a := new Asset(id, exchange, symbol, provider);
        instances := instances[key := a];
      }
    }
  }

  /**
   * Two constructions with the same exchange and symbol give one shared state: a lot
   * added through the first reference is seen through the second, the first provider
   * stays in force, and only the first construction consumed an id.
   */
  method SharedState(registry: Registry, exchange: string, symbol: string,
                     first: DataProvider, second: DataProvider, p: Position)
    returns (a: Asset, b: Asset)
    requires registry.Valid() && Key(symbol, exchange) !in registry.instances
    modifies registry, registry.ids
    ensures a == b && b.Valid() && b.Positions() == [p]
    ensures b.provider == first
    ensures registry.ids.next == old(registry.ids.next) + 1
  {
    a := registry.Construct(exchange, symbol, first);
    b := registry.Construct(exchange, symbol, second);
    a.AddPosition(p);
    assert b.positions.items == [(p.id, p)];
  }
}
