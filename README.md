# Crypto AI Signal: a verified model of the prediction endpoint

The system is one serverless HTTP endpoint (`api/signal.js`). For BTC, ETH and SOL it fetches market data and builds short-horizon predictions with a rule-based engine. It keeps a file-backed history of past signals, capped at 100 entries, and computes a win rate over that history. This project models the deterministic logic of that file in Dafny:

- `engine.dfy` (module `Engine`) models `ruleBasedPrediction`.
  - Momentum comes from the trailing six-point price window, including what JavaScript does when the window is too short or its base price is zero.
  - Sentiment comes from the 24h change.
  - The loop over timeframes builds one record per timeframe: direction, probability, target, stop loss and confidence.
  - The `Math.random()` draws are explicit parameters (`Draws`, one per timeframe; `DrawSet`, one per symbol).
- `history.dfy` (module `History`) models the list logic of `saveSignal` as a `SignalStore` class. The class holds the storage file's content and keeps the last 100 entries after each push. The module also models `loadHistory`'s fallback to an empty history and `calculateWinRate`.
- `handler.dfy` (module `Handler`) models the exported handler.
  - The `action` parameter defaults to predict.
  - predict runs the per-symbol loop and keeps only the symbols whose data arrived.
  - history returns the last 20 entries and the win rate.
  - status returns the win rate and the total count.
  - Any other action gives HTTP 400 "Invalid action".
- `wrappers.dfy` (module `Wrappers`) defines `Option`. It stands for JavaScript's `null` and for a missing or unreadable file.

Prices are exact `real`s. Every threshold in the source is a strict comparison against a literal constant, so the branches are modelled exactly. Where doubles behave differently, `## Left out` says so.

Behaviour of the code worth knowing:

- The code drops a symbol from the predict result both when its fetch fails and when its price history is empty. An empty history makes the volatility helper throw, because it reduces an empty array with no initial value. `generatePrediction` catches that error and returns null.
- The code does not require at least six history points. A shorter history gives NaN, and NaN makes the momentum NEUTRAL.
- The file has only the live market-data strategy.

## Model

| member | source | states |
|---|---|---|
| Engine.MomentumOf | api/signal.js:106-107 | With at least 6 points and a nonzero base: STRONG_UP iff the recent change is > 0.01, STRONG_DOWN iff it is < -0.01, NEUTRAL iff it is in [-0.01, 0.01]. Fewer than 6 points (NaN) gives NEUTRAL. A base of +0 (±Infinity) gives STRONG_UP or STRONG_DOWN by the sign of the last price. |
| Engine.MomentumScaleInvariant | api/signal.js:106-107 | Multiplying every price by a positive constant leaves the momentum unchanged. |
| Engine.SentimentOf | api/signal.js:150-153 | BULLISH iff change24h > 2, BEARISH iff change24h < -2, NEUTRAL iff it is in [-2, 2]. |
| Engine.SentimentMonotone | api/signal.js:150-153 | A larger 24h change never lowers the sentiment: BULLISH stays BULLISH, and BEARISH at the larger change means BEARISH at the smaller one. |
| Engine.HorizonFor | api/signal.js:122-145 | Never SIDEWAYS. UP under STRONG_UP, DOWN under STRONG_DOWN; under NEUTRAL, UP iff the coin draw is > 0.5. UP: target = price×{1.005, 1.01, 1.03}, stop = price×0.98. DOWN: target = price×{0.995, 0.99, 0.97}, stop = price×1.02. Probability ≤ 0.85 always. With draws in [0,1): probability in [0.55, 0.65) under strong momentum and in [0.50, 0.55) otherwise, so the cap never binds; confidence in [0.65, 0.85). For a positive price the stop and the target lie on opposite sides of the price. |
| Engine.TargetsWidenWithTimeframe | api/signal.js:122-123 | For a positive price and one direction, the 30m, 1h and 24h targets lie ever farther from the price. |
| Engine.PredictionOf | api/signal.js:121-160 | The signal carries the symbol, exactly one prediction for each of 30m, 1h and 24h, and the sentiment of change24h. |
| Engine.PredictionBounds | api/signal.js:129-145 | With valid draws every record of the signal is UP or DOWN, has probability in [0.50, 0.65) and has confidence in [0.65, 0.85). |
| Engine.RuleBasedPrediction | api/signal.js:102-162 | No prediction (the thrown error, caught into null at lines 92-98) iff the price history is empty. Otherwise the timeframe loop produces the specified signal, with each timeframe's record computed from the momentum, the price and that timeframe's draws. |
| History.SliceFromEnd | api/signal.js:183 | `slice(-n)` for n > 0 keeps exactly the last min(n, length) elements, in order. |
| History.Appended | api/signal.js:176-184 | After a push onto a history of length L: the length is min(L+1, 100), the new entry is last, and the other entries are the most recent prior entries in their original order. Below capacity nothing is dropped. |
| History.FullStoreEvictsOldest | api/signal.js:181-184 | Appending to a store of exactly 100 entries gives the old entries without the first one, followed by the new entry. |
| History.AppendAllKeepsLatest | api/signal.js:176-184 | From a store within capacity (for example the empty one), any run of appends leaves exactly the last 100 of all entries, in order. |
| History.LoadHistory | api/signal.js:190-198 | A missing or unparsable file reads as the empty history; otherwise the stored entries. |
| History.SignalStore.SaveSignal | api/signal.js:165-187 | The file is rewritten with the bounded append of the new entry to what it read. The new length is min(L+1, 100), the entry is last, and the earlier entries keep their order. |
| History.SignalStore.Load | api/signal.js:167-174 | A read of a missing or corrupt file yields the empty history; otherwise the stored entries. |
| History.CountWins | api/signal.js:204 | At most one per entry, and 0 exactly when no entry's result is WIN. |
| History.CountResolved | api/signal.js:205 | At most one per entry, and 0 exactly when no entry carries a result. |
| History.WinsAtMostResolved | api/signal.js:204-205 | wins ≤ total ≤ number of entries. |
| History.CountsSplit | api/signal.js:204-205 | Both counts add up over a concatenation of histories. |
| History.UnresolvedCountsNothing | api/signal.js:204-205 | If no entry carries a result, both counts are 0. |
| History.RoundedTenths | api/signal.js:210 | The rate is wins/total×100 rounded half up to one decimal: 2·total·t ≤ 2000·wins + total < 2·total·(t+1). It is 0 with no wins and 100.0 when every resolved entry is a win. |
| History.CalculateWinRate | api/signal.js:201-212 | An empty history gives {0, 0, 0}. Otherwise wins counts WIN results and total counts entries with a result, with wins ≤ total ≤ \|h\|. The rate is the number 0 iff total = 0, and otherwise the rounded percentage, which is at most 100.0. |
| History.UnresolvedWinRate | api/signal.js:202-210 | A history whose entries all lack a result gives {0, 0, 0}, whatever its length. |
| History.TwoWinsOneLoss | api/signal.js:201-212 | Two WIN entries and one LOSS entry give total 3, wins 2 and rate "66.7". |
| History.SaveKeepsCounts | api/signal.js:176-184 | Saving a fresh signal (no result) changes wins and total only by what the eviction removes. Below capacity they stay the same. |
| Handler.ActionOf | api/signal.js:216 | An absent or empty action means "predict"; any other value is used as given. |
| Handler.PredictAll | api/signal.js:219-231 | The result's keys are exactly the configured symbols whose fetch returned data with a non-empty history. Each value is that symbol's prediction. When every fetch succeeds, all of BTC, ETH and SOL are present. |
| Handler.Handle | api/signal.js:215-270 | predict returns that map with the fixed metadata. history returns the last min(20, \|h\|) entries of the loaded history and its win rate. status returns "active", the win rate and total_signals = \|h\|. Any other action returns 400 "Invalid action". |

## Left out

- Market data: the two HTTP calls of `getMarketData` (lines 24-43) are network I/O. Their outcome is the `fetch` parameter of `Handle`, with `None` for a failed fetch. A snapshot whose numbers did not parse (NaN) is not modelled.
- Storage: reading and writing the JSON file are file I/O. The file's content is an `Option` parameter or field, with `None` when the file is missing or corrupt. A document that parses but is not an array is not modelled; it would make the code throw.
- HTTP 500: the catch-all at lines 272-275 is not reachable in the model, because every input is well-typed.
- Concurrency: there is no file locking, and concurrent saves can lose updates. This is concurrency and out of scope.
- Volatility and key factors: `Math.stdDev` and the volatility value (lines 110, 279-283) are floating-point with a square root. The `key_factors` strings (lines 114-119) are text formatting. Only the helper's throw on an empty window is modelled.
- Prompt: the prompt string of `generatePrediction` (lines 47-90) is built and never used. Its try/catch is modelled by `RuleBasedPrediction` returning `None`.
- Timestamps and uptime: `generated_at`, the saved `timestamp`, the response timestamp and `process.uptime()` come from the environment.
- Randomness: `Math.random()` itself is not modelled; its values are parameters.
  - Under strong momentum the source draws two random numbers per timeframe, not three, and the coin draw is ignored there.
  - The order in which draws are consumed across symbols and timeframes is not modelled.
- Engine.HorizonFor: target_price and stop_loss are stated without the rounding to two decimals (`toFixed(2)`, lines 143-144).
- Engine.HorizonFor: the half-open bounds hold for exact reals only. In doubles the largest `Math.random()` value, 1 − 2^-52, rounds `0.55 + r*0.1` to exactly 0.65, `0.50 + r*0.05` to exactly 0.55 and `0.65 + r*0.2` to exactly 0.85 (lines 129, 132, 135, 145). The program can therefore reach the upper ends that the contract excludes.
- Engine.MomentumOf: the reals have no negative zero. For a base price of −0 (`parseFloat("-0")`) and a positive last price, JavaScript computes −Infinity and STRONG_DOWN, where the model gives STRONG_UP. A negative last price is mirrored the same way.
- History.RoundedTenths: rounds the exact rational half up. `toFixed(1)` rounds the nearest double, which can differ on exact ties.
- Handler.Handle: an `action` parameter given several times (an array) is not modelled.
- History.SignalStore.SaveSignal: the saved entry is the signal with no result. The timestamp the source adds is left out. The handler never calls `saveSignal`, in the source or in the model.
