# Portfolio valuation core, modelled in Dafny

This project models the valuation core of a small investment-portfolio library
(`src/portfolio.py`). The library has four parts:

- **Positions** are purchase lots. Each lot has an id, an opening time, a quantity and a
  price per unit.
- **Assets** are one instrument on one exchange. Each asset owns its lots, filed by lot id
  in insertion order, and asks an external price provider for prices. A process-wide
  registry keyed by `symbol-exchange` makes every construction with the same key share one
  state. This is the "Borg" pattern.
- **Portfolios** hold assets, filed by asset id. A portfolio adds up its assets' values and
  computes a rate of return.
- **Ids** come from one process-wide counter (`itertools.count()`) that positions and
  assets share.

How the model maps onto the source:

- `Decimal` amounts are exact `real`s and timestamps are `int`s.
- An absent `as_of` is `Option.None`. A `datetime` is always truthy, so "`as_of` is truthy"
  means `Some`.
- Exceptions become the `Failure` arm of a `Result`:
  - `BothModes` is the `ValueError` for asking for both modes.
  - `NoneComparison` is the `TypeError` raised when a lot's opening time is compared with
    `as_of=None`.
  - `ZeroInitialValue` is the division by a zero cost.
- The data provider is an `Assets.DataProvider` object. Its answers are a total function
  of (asset id, time), and a ghost log `asked` records every question put to it, in order.
  Each call of `get_price` appends one entry. The contracts of `get_price` and
  `Asset.value` state exactly which questions they add to the log.
- A Python `dict` is `Dicts.Dict`: its (key, value) items in insertion order, each key at
  most once. `update(x.to_dict())` writes one item under the object's id.
- The Borg registry is `Assets.Registry`. A second construction with a known key returns the
  very same `Asset` object, so the sharing is plain aliasing.

Each valuation method (`Asset.value`, `Portfolio.value`, `rate_of_return`) is proved against a
value-level specification in `Valuation`:

- `Asset.Value` visits the lots one by one, as the source's loop does. It is proved equal to
  `AssetValue`, which states the as-of value as the provider's price times the total
  quantity held.
- `Portfolio.Value` and `Portfolio.RateOfReturn` are proved equal to `PortfolioValue` and
  `RateOfReturnOf` over snapshots of the assets.

Where the code and its tests disagree, the model follows the code. The tests use a
`closed_at` attribute, an `opened_as_of` method and a Position `id` property
(tests/src/test_portfolio.py:36 and 56-95). The code defines none of these, so a position
here has no close time and no `opened_as_of`.

Some behaviour of the code is easy to miss:

- With neither `as_of` nor `initial`, `Asset.value` does not query the provider.
  - It fails on the first lot, because `datetime <= None` raises.
  - With no lots it returns 0.
- `add_asset` tests `asset.id` against the values view of asset objects. That test never
  matches, so the asset is always written under its id. Re-adding is still idempotent,
  because the write is keyed by id.
- `Portfolio.value` with both modes on an empty portfolio returns 0 without raising.

The registry key is not injective: `("A-B", "C")` and `("A", "B-C")` give the same key.
Two such pairs share one state. `Assets.KeyIsNotInjective` records this.

## Model

| member | source | states |
|---|---|---|
| `Dicts.Dict.Put` | src/portfolio.py:131 | writing a key: the item under that key holds the new value, every other item keeps its key, place and value, a new key goes last, an existing key keeps its place, and keys stay distinct |
| `Dicts.Dict.Update` | src/portfolio.py:87 | `dict.update`: the keys already present keep their places, every key of the other dictionary ends up present, and keys stay distinct (no other key appears: `Dicts.UpdateAddsNoKey`) |
| `Dicts.PutValues` | src/portfolio.py:86-94 | the values view keeps insertion order across a write: a new key's value goes last behind the existing values, and an existing key's value changes in place with every other value where it was |
| `Dicts.UpdateValues` | src/portfolio.py:87 | `dict.update` with a dictionary without repeated keys: every key of the other dictionary holds the value it gives |
| `Dicts.UpdateKeepsUntouched` | src/portfolio.py:87 | `dict.update`: every item whose key the other dictionary does not mention keeps its place, key and value |
| `Dicts.UpdateAddsNoKey` | src/portfolio.py:87 | `dict.update` brings in no key that neither dictionary holds |
| `Dicts.UpdateWithOne` | src/portfolio.py:54-55 | updating with a one-entry `to_dict()` result is exactly writing that entry |
| `Dicts.PutTwice` | src/portfolio.py:129-131 | writing the same entry twice gives the same dictionary as writing it once (idempotent re-add) |
| `Identity.IdCounter.constructor` | src/portfolio.py:7 | the shared counter starts at 0 with nothing issued |
| `Identity.IdCounter.Next` | src/portfolio.py:7 | each call returns the next number, which is larger than every id issued before and so distinct from all of them |
| `Positions.NewPosition` | src/portfolio.py:23-29 | a new lot takes the counter's next id, which no earlier lot or asset holds, and the given opening time, quantity and price |
| `Positions.Position.ToDict` | src/portfolio.py:54-55 | a one-entry dictionary holding the lot under its own id |
| `Positions.Position.Value` | src/portfolio.py:50-52 | the purchase value of a lot is its quantity times its price per unit, exactly |
| `Positions.Position.OpenedAt` | src/portfolio.py:43-44 | a lot is opened as of `t` when its opening time is at or before `t` |
| `Positions.OpenedAtIsInclusive` | src/portfolio.py:43-44 | a lot counts as opened at its own opening instant but not one instant earlier, and stays opened afterwards |
| `Valuation.PositionValueAtCost` | src/portfolio.py:51-52 | a lot's value, quantity times price paid, is what an as-of valuation at that price gives once the lot is open |
| `Valuation.MarketValueFactors` | src/portfolio.py:111-119 | adding quantity times price lot by lot over the open lots equals the price times the total open quantity |
| `Valuation.HeldAtCost` | src/portfolio.py:111-119 | when every lot is open and was bought at price p, p times the held quantity equals the sum of purchase values |
| `Valuation.AtCostValuation` | src/portfolio.py:101-121 | the as-of mode and the initial mode agree when every lot is open and the provider quotes each lot's purchase price |
| `Valuation.FailurePersists` | src/portfolio.py:137-141 | once one value drawn by `sum` raises, the whole sum raises that same error (fail fast) |
| `Valuation.PortfolioInitialIsTotal` | src/portfolio.py:137-141 | in `initial` mode the portfolio value never raises and is the sum of all assets' purchase values (0 when empty) |
| `Valuation.PortfolioAsOfIsTotal` | src/portfolio.py:137-141 | in `as_of` mode the portfolio value never raises and is the sum of each asset's price at `t` times its quantity held at `t` |
| `Valuation.PortfolioBothModes` | src/portfolio.py:137-141 | asking for both modes raises `BothModes` as soon as there is an asset; an empty portfolio returns 0 |
| `Valuation.PortfolioNoMode` | src/portfolio.py:137-141 | with neither mode the value is 0 when no asset holds a lot, and raises `NoneComparison` otherwise |
| `Valuation.RateOfReturnCases` | src/portfolio.py:143-147 | the rate of return fails exactly when the total purchase value is 0; otherwise it times that value equals the as-of total minus it |
| `Valuation.TwoLotExample` | tests/src/conftest.py:19-26 | lots of 20 at 10 and 30 at 40 and a price of 50 give 2500 as of `t`, 1400 at cost and a rate of return of 1100/1400 |
| `Assets.Key` | src/portfolio.py:63 | the registry key is the symbol, then a dash, then the exchange's name: its length is the sum plus one, the symbol is its prefix and the exchange name its suffix |
| `Assets.KeyIsNotInjective` | src/portfolio.py:63 | two different (symbol, exchange) pairs can produce the same registry key |
| `Assets.Asset.constructor` | src/portfolio.py:65-70 | first-time state: the given id, exchange, symbol and provider, and no lots |
| `Assets.Asset.ToDict` | src/portfolio.py:89-90 | a one-entry dictionary holding the asset under its own id |
| `Assets.Asset.Positions` | src/portfolio.py:92-94 | the lots view has one entry per filed lot, each the lot filed at that place of the dictionary |
| `Assets.Asset.LotsAreDistinct` | src/portfolio.py:92-94 | the lots view of a valid asset lists each lot under its own id, so no lot appears twice |
| `Assets.DataProvider.GetPriceForAsset` | src/portfolio.py:97-99 | one question to the provider: the answer is its quote for that asset and instant, and the question is appended to its log |
| `Assets.Asset.GetPrice` | src/portfolio.py:96-99 | every call asks the asset's own provider once more about this asset and instant (nothing cached) and returns that provider's quote |
| `Assets.Asset.AddPosition` | src/portfolio.py:86-87 | the lot is written under its id: a new id goes last, so the lots view becomes the old one followed by this lot; a known id keeps its place and now holds this lot; other lots are untouched, and the invariant is kept |
| `Assets.Asset.Value` | src/portfolio.py:101-121 | the result equals `AssetValue`: both modes raise, `initial` sums purchase values, `as_of=t` gives price times quantity held at `t`, and neither mode raises when there is a lot and gives 0 when there is none. The provider's log grows by exactly one question, about this asset at `t`, in the `as_of` mode and by nothing otherwise (both modes raise before asking); the lots are not changed |
| `Assets.Registry.constructor` | src/portfolio.py:59 | the registry starts empty and draws ids from the shared counter |
| `Assets.Registry.Construct` | src/portfolio.py:61-72 | A known key returns the registered state, consumes no id and ignores the new provider. A new key registers a fresh asset with the next id, this provider and no lots. Every state stays under its own key, and ids stay distinct |
| `Assets.SharedState` | src/portfolio.py:61-63 | two constructions with one key give one state: a lot added through the first is seen through the second, the first provider stays, and only one id is consumed |
| `Portfolios.Portfolio.constructor` | src/portfolio.py:126-127 | a new portfolio holds no assets |
| `Portfolios.Portfolio.Assets` | src/portfolio.py:133-135 | the assets view has one entry per filed asset, each the asset filed at that place of the dictionary |
| `Portfolios.Portfolio.AssetsAreDistinct` | src/portfolio.py:133-135 | the assets view of a valid portfolio lists each asset under its own id, so no asset appears twice |
| `Portfolios.InAssetValuesNever` | src/portfolio.py:130 | the guard's membership test of an int id among asset objects is always false |
| `Portfolios.Portfolio.AddAsset` | src/portfolio.py:129-131 | the never-matching guard is evaluated and the asset is written under its id: a new id goes last, so the assets view becomes the old one followed by this asset; a known id keeps its place and now holds this asset; other assets are untouched, and each asset stays filed under its own id |
| `Portfolios.Portfolio.Value` | src/portfolio.py:137-141 | the result equals `PortfolioValue` of the assets' snapshots taken on entry: each asset valued in the same mode, summed in order from 0, and aborted by the first asset that raises; only the assets' providers are changed |
| `Valuation.SumStep` | src/portfolio.py:137-141 | one more value in a running `sum`: a success extends the total by that value, a failure becomes the result of the whole sum |
| `Portfolios.Portfolio.RateOfReturn` | src/portfolio.py:143-147 | the result equals `RateOfReturnOf`: (value as of `t` minus value at cost) divided by value at cost, failing when the value at cost is 0 |

## Left out

- `DummyDataProvider` and `build_scenario`: random prices and printed demo wiring, which are nondeterminism and I/O.
- `Exchange` and all `__repr__`/`__str__` methods: display strings only. An exchange is modelled by its name, the only part that feeds the registry key.
- `__hash__` of Position and Asset: both return the id. It plays no part in the modelled dictionaries, because `to_dict` (src/portfolio.py:55, 90) keys `_positions` and `_assets` by the int `_id`, not by the objects.
- `src/asset_return.py` (`calculate_rate_of_return`): floating-point division followed by `round(…, 1)`. Floating-point rounding is not modelled.
- The price provider's own behaviour, including any exception it raises. Its answers are a total function of the asset id and the time. The source passes the asset object, and the model passes its id.
- `Dicts.Dict.Update`: the order in which keys new to the dictionary are appended is not stated (the source only ever updates with one-entry `to_dict()` results, whose effect `Dicts.UpdateWithOne` states exactly).
- `Portfolios.Portfolio.Value`: states that only the assets' providers change, but not the exact log of questions they receive (how many times each asset is valued); that log is stated per asset by `Assets.Asset.Value`.
- `Portfolios.Portfolio.RateOfReturn`: likewise states that only the assets' providers change, but not the log of questions a rate-of-return call puts to them (how many valuations it runs, or in which order).
- `Decimal` context precision and rounding: all arithmetic is exact.
- Live `dict.values()` views: `asset.positions` and `portfolio.assets` return views that also show later additions. `Assets.Asset.Positions` and `Portfolios.Portfolio.Assets` return the contents at the time of the call, so a view kept across a change is not modelled (no operation of the core keeps one).
- Python object identity of the Borg wrappers: each construction creates a new wrapper object sharing the registered `__dict__`. The model returns the shared state itself, so `is` between two wrappers is not modelled.
- `Portfolios.Portfolio.RateOfReturn`: takes a timestamp, as its signature says. A call with `as_of=None` is not modelled.
