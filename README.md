# Hyperliquid trade ledger: attribution and lifecycle engine in Dafny

This project models the core of the trade-ledger service in
`DEPRECATED-DO-NOT-USE/main.py`. The service takes a trader's raw fills from
Hyperliquid and attributes each fill to the builder that routed it. The file
also defines a lifecycle reconstructor, which replays trades in time order
and emits a position snapshot for each one. None of the file's endpoints
calls it: `get_trades` builds no snapshots, and `get_pnl` always reports
`"tainted": False`.

The model has four parts:

- **Builder search** (`BuilderSearch`). This is `_find_builder_address`. It
  searches a decoded transaction depth-first for the first mapping whose
  `"builder"` entry is itself a mapping with a truthy `"b"`. JSON is a
  recursive datatype (`JsonValue.Json`). A mapping is a sequence of fields in
  insertion order. Python truthiness is the predicate `Truthy`.
- **Transaction resolver** (`TxResolver`). This is `get_builder_from_tx`, as
  a class `Resolver`. Its `cache` field (`TX_CACHE`) maps a transaction hash
  to a normalised address or `None`. A ghost field `lookups` records every
  remote query made and whether it succeeded; it exists only for the proofs. The remote query is a parameter
  `fetch: string -> FetchResult` that yields `Ok(json)` or `Err`.
- **Fill normalisation** (`FillNormalizer`, `Addresses`). This covers
  `normalize_trade`, `_normalize_address`, `_label_builder_address`,
  `BUILDER_ADDRESS_LABELS` and `TARGET_BUILDER_ADDRESS`. A raw fill is a
  record whose fields are already parsed; an absent key is `None`. The inline
  `builder` and `builderAddress` fields keep any JSON value, since Python's
  `or` picks the first truthy one whatever its type. The pure
  function `Normalize` takes the resolver's answer as an argument. The method
  `NormalizeTrade` calls the resolver only when the fill has no inline address.
- **Lifecycle reconstruction** (`Lifecycle`). This is `reconstruct_lifecycle`.
  The method `Reconstruct` sorts the trades by time. It then runs a loop over
  the three state variables (net size, average entry price, taint), with
  `ApplyTrade` as the loop body. `Reconstruct` is proved equal to the function
  `History`, and the lemmas about the lifecycle are stated on that function.
  Quantities are `real`. The snap-to-flat threshold `1e-9` is the real
  constant `Epsilon`.

Behaviour of the code that a reader might not expect, all modelled as written:

- Attribution compares the trade's `builder` field, which is the label, with
  the target (`main.py:215`). It does not compare `builderAddress`. The
  target address is in the label table, so its trades carry the label
  "Insilico". Such a trade is therefore never attributed to
  `TARGET_BUILDER_ADDRESS` (`TargetAddressNotAttributed`).
- The code guarantees only that a zero net size has a zero average price.
  The converse fails: a position opened at price 0 is open and has average 0
  (`ZeroPriceOpenPosition`).
- pandas' default sort is not stable. `Reconstruct` therefore promises only
  some time-ordered permutation of its input.
- A failed query is not cached, because the assignment at `main.py:157` is
  skipped. A query that succeeds but finds no builder is cached as `None`.
- On a cache miss the resolver returns the raw value it found, which is not
  lowercased. A cache hit returns the lowercased entry. The two answers agree
  only after normalisation (`RepeatAgrees`).

## Model

| member | source | states |
|---|---|---|
| `JsonValue.Get` | DEPRECATED-DO-NOT-USE/main.py:93-95 | `dict.get`: a result is the value of a field with that key, and there is no result exactly when no field has the key |
| `BuilderSearch.OwnAddress` | DEPRECATED-DO-NOT-USE/main.py:92-97 | a mapping's own candidate is truthy and is the `"b"` entry of a mapping stored under the key `"builder"`; whenever `data.get("builder")` is a mapping with a truthy `"b"`, that value is the candidate |
| `BuilderSearch.Find` | DEPRECATED-DO-NOT-USE/main.py:91-107 | any hit is truthy; scalars yield `None` |
| `BuilderSearch.FindInFields` | DEPRECATED-DO-NOT-USE/main.py:98-101 | the loop over a mapping's values returns only truthy hits |
| `BuilderSearch.FindInItems` | DEPRECATED-DO-NOT-USE/main.py:102-106 | the loop over a list's items returns only truthy hits |
| `BuilderSearch.FindIsFirstCandidate` | DEPRECATED-DO-NOT-USE/main.py:91-107 | the search returns the first of all truthy `builder.b` entries, listed depth-first with a mapping's own entry before its values, values in insertion order and list items in index order |
| `BuilderSearch.CandidateIsWithin` | DEPRECATED-DO-NOT-USE/main.py:93-97 | every candidate is the truthy `builder.b` of a mapping nested inside the input |
| `BuilderSearch.WithinIsCandidate` | DEPRECATED-DO-NOT-USE/main.py:98-106 | the truthy `builder.b` of every mapping nested inside the input is a candidate |
| `BuilderSearch.FindSpec` | DEPRECATED-DO-NOT-USE/main.py:91-107 | a hit is the `builder.b` of some mapping inside the input; there is no hit exactly when no mapping inside has a truthy `builder.b` |
| `Addresses.Lower` | DEPRECATED-DO-NOT-USE/main.py:68 | `str.lower()` keeps the length, lowers each character and leaves no upper-case letter |
| `JsonValue.OrValue` | DEPRECATED-DO-NOT-USE/main.py:171 | Python `a or b` on possibly absent JSON values: the first operand when it is present and truthy, else the second |
| `Addresses.OrElse` | DEPRECATED-DO-NOT-USE/main.py:170 | Python `a or b` on optional strings: the first operand when it is non-empty, else the second |
| `Addresses.NormalizeAddress` | DEPRECATED-DO-NOT-USE/main.py:65-68 | `None` exactly for an absent or empty address; otherwise a non-empty, lower-case string of the same length, lowered character by character |
| `Addresses.NormalizeIdempotent` | DEPRECATED-DO-NOT-USE/main.py:65-68 | normalising twice is normalising once |
| `Addresses.LabelBuilderAddress` | DEPRECATED-DO-NOT-USE/main.py:109-113 | `None` exactly when the normalised address is `None`; otherwise the table's name for it, or the normalised address itself |
| `Addresses.TargetIsLabelled` | DEPRECATED-DO-NOT-USE/main.py:14-32 | the target address is already normalised, and its label is "Insilico" |
| `TxResolver.StringOf` | DEPRECATED-DO-NOT-USE/main.py:66 | the `isinstance(addr, str)` test: a string is found exactly when the value is a JSON string |
| `TxResolver.FromCache` | DEPRECATED-DO-NOT-USE/main.py:144-145 | a cached entry is handed back as that string or `None` |
| `TxResolver.Resolver.constructor` | DEPRECATED-DO-NOT-USE/main.py:19 | the resolver starts with an empty cache and no queries |
| `TxResolver.Resolver.Resolve` | DEPRECATED-DO-NOT-USE/main.py:135-162 | returns the `Answer`. With no hash or a cached hash it makes no query and changes nothing. On a miss it queries once. Only a successful query adds `hash -> normalised address found`. The cache always holds exactly the successfully queried hashes, and no hash is queried successfully twice |
| `TxResolver.RepeatAgrees` | DEPRECATED-DO-NOT-USE/main.py:144-158 | after a successful query, the cached answer and the first raw answer agree once normalised |
| `TxResolver.ResolveTwice` | DEPRECATED-DO-NOT-USE/main.py:140-162 | resolving one hash twice makes no query when the hash is cached, at most one query when the fetch succeeds, and both answers agree once normalised |
| `FillNormalizer.SideOf` | DEPRECATED-DO-NOT-USE/main.py:169 | a buy exactly when the side indicator is `"B"` |
| `FillNormalizer.Normalize` | DEPRECATED-DO-NOT-USE/main.py:169-192 | the side comes from `SideOf`; an inline address (the first truthy of `builder` and `builderAddress`, if it is a string) takes precedence over the resolver's answer; the address is lower-case and non-empty or `None`; fee and closed PnL default to 0; the other fields are copied |
| `FillNormalizer.InlinePrecedence` | DEPRECATED-DO-NOT-USE/main.py:171-178 | with an inline address, the resolver's answer does not affect the trade |
| `FillNormalizer.LabelMatchesAddress` | DEPRECATED-DO-NOT-USE/main.py:179-190 | the label is present exactly when the address is, and it is the table's name for the address or else the address itself |
| `FillNormalizer.TargetTradeIsLabelled` | DEPRECATED-DO-NOT-USE/main.py:179-190 | a trade carrying the target address is labelled "Insilico", not with the address |
| `FillNormalizer.NormalizeTrade` | DEPRECATED-DO-NOT-USE/main.py:164-192 | with an inline address, the trade is `Normalize(fill, None)` and the resolver is untouched. Otherwise the trade is `Normalize` of the resolver's answer for the fill's hash, and the cache and lookup log change exactly as `Resolve` says: nothing for no hash or a cached one, else one query, cached only on success |
| `Lifecycle.Step` | DEPRECATED-DO-NOT-USE/main.py:224-233 | after any trade, a zero net size has a zero average entry price |
| `Lifecycle.StepSize` | DEPRECATED-DO-NOT-USE/main.py:226-231 | the net size moves by the signed size, except that a close lands on exactly 0 |
| `Lifecycle.StepCostBasis` | DEPRECATED-DO-NOT-USE/main.py:224-227 | an opening or same-direction trade keeps the cost basis: `abs(new) * newAvg == abs(old) * oldAvg + sz * px` |
| `Lifecycle.StepReduceKeepsPrice` | DEPRECATED-DO-NOT-USE/main.py:228-229 | a reducing trade that does not close keeps the average entry price |
| `Lifecycle.StepTaint` | DEPRECATED-DO-NOT-USE/main.py:215-233 | tainted afterwards exactly when the trade does not close the position, and either the position was tainted or the trade is unattributed |
| `Lifecycle.StepNonNegative` | DEPRECATED-DO-NOT-USE/main.py:224-233 | with non-negative price, size and average, the new average is non-negative |
| `Lifecycle.SortByTime` | DEPRECATED-DO-NOT-USE/main.py:199 | a permutation of the trades in non-decreasing time order |
| `Lifecycle.History` | DEPRECATED-DO-NOT-USE/main.py:207-243 | one snapshot per trade, in trade order, with that trade's time and coin |
| `Lifecycle.LifecycleAt` | DEPRECATED-DO-NOT-USE/main.py:235-241 | snapshot k is the state after folding the first k+1 trades |
| `Lifecycle.LifecycleSteps` | DEPRECATED-DO-NOT-USE/main.py:207-241 | each snapshot is one `Step` from the previous snapshot, or from flat for the first |
| `Lifecycle.FlatHasNoPrice` | DEPRECATED-DO-NOT-USE/main.py:224-233 | in every snapshot, net size 0 implies average entry price 0 |
| `Lifecycle.ZeroPriceOpenPosition` | DEPRECATED-DO-NOT-USE/main.py:224-227 | the converse fails: buying 10 at price 0 gives net size 10 with average 0 |
| `Lifecycle.NonNegativePrices` | DEPRECATED-DO-NOT-USE/main.py:224-233 | if every price and size is non-negative, every average entry price is non-negative |
| `Lifecycle.TaintPersists` | DEPRECATED-DO-NOT-USE/main.py:215-233 | once a snapshot is tainted, every later snapshot is tainted until one is flat |
| `Lifecycle.CloseResets` | DEPRECATED-DO-NOT-USE/main.py:228-233 | an opposite-direction trade that leaves less than 1e-9 yields net size 0, average 0 and no taint |
| `Lifecycle.UnattributedTaints` | DEPRECATED-DO-NOT-USE/main.py:215-221 | an unattributed trade that does not close leaves a tainted snapshot, whether the position was open or flat |
| `Lifecycle.AttributedNeverTainted` | DEPRECATED-DO-NOT-USE/main.py:213-221 | if every trade is attributed, no snapshot is tainted |
| `Lifecycle.TargetAddressNotAttributed` | DEPRECATED-DO-NOT-USE/main.py:214-215 | a normalised trade carrying the target address is not attributed to the target address |
| `Lifecycle.AddingScenario` | DEPRECATED-DO-NOT-USE/main.py:224-227 | buying 10 at 100 (attributed) then 10 at 4 (other builder) gives (10, 100, untainted) then (20, 52, tainted) |
| `Lifecycle.ClosingScenario` | DEPRECATED-DO-NOT-USE/main.py:228-233 | an unattributed buy of 10 at 100 followed by a sell of 10 gives (10, 100, tainted) then flat and untainted |
| `Lifecycle.ApplyTrade` | DEPRECATED-DO-NOT-USE/main.py:208-233 | the loop body (attribution checks, then position update on the three variables) computes exactly `Step` |
| `Lifecycle.Reconstruct` | DEPRECATED-DO-NOT-USE/main.py:194-243 | returns `History` of a time-ordered permutation of the input: one snapshot per trade, times non-decreasing, `[]` for no trades |

## Left out

- `_rate_limited_post` (lines 70-89) is not modelled. This covers the minimum interval, the sleeps, the 429 backoff with random jitter and the status checks, which are clock, randomness and network behaviour. The resolver sees only what the gate finally yields: `Ok(json)` or `Err` from `fetch`.
- `fetch_hyperliquid_fills`, the endpoints `get_trades`, `get_pnl` and `read_root`, the pydantic models and the uvicorn launch are left out. They are network I/O and presentation.
- `print` logging is left out.
- The `int(...)` and `float(...)` parsing in `normalize_trade` is left out; raw fills arrive already parsed. An explicit `null` fee or closed PnL reads as absent and defaults to 0, where Python's `float(None)` would raise.
- IEEE floating-point rounding is not modelled. All quantities are exact reals.
- `Addresses.Lower` maps only the ASCII letters A-Z, whereas Python's `str.lower()` also lowers other Unicode letters.
- A JSON mapping is a field sequence. `JsonValue.Get` returns the first field with the key, which is the only one in a decoded dict.
- Transaction hashes are optional strings. A non-string `hash` value, which Python would use as a dict key or reject as unhashable, is not modelled.
- Module-level state: `TX_CACHE` is the field `Resolver.cache`, not a global. There is no concurrency in the code, and none is modelled.
- The pandas `DataFrame` and `iterrows` mechanics are not modelled; trades are a sequence, and `Lifecycle.SortByTime` is a stable insertion sort.
- Lifecycle.Reconstruct: promises only that it folds some time-ordered permutation of the trades, because pandas' default sort does not fix the order of equal times.
