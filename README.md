# CoinDCX TradingView bot: order maths and signal state machine

This Dafny project models the two parts of the bot where trading decisions are made.

- **Order maths (`coindcx.py`)**, in `coindcx.dfy`. It covers symbol normalisation
  (`BTCUSDT.P` becomes `BTCUSDT`), CoinDCX futures pair naming (`BTCUSDT` becomes
  `B-BTC_USDT`), and the quantity-step, price-tick and BTC-override tables. It also
  covers quantity sizing (`compute_qty`), the hard-coded take-profit and stop-loss
  multipliers with tick flooring, and the order body that `place_order` builds,
  including the TEST_MODE early return and the catch-all error handler.
  `strings.dfy` supplies the Python string operations the code uses: `upper`, `in`,
  `split(...)[0]` and `replace`. `decimal_math.dfy` supplies `Decimal`'s `//` and `%`,
  which truncate toward zero.
- **The webhook handler (`app.py`)**, in `app.dfy`. It is a class `Server` whose
  `currentPosition` field is the global `CURRENT_POSITION` (LONG, SHORT or None). Its
  `orderCalls` log records each call of the order function. The method `HandleWebhook`
  is proved against the pure `Transition` function, and the lemmas about
  `Transition` and its iterate `Run` state what the handler guarantees.

Prices, quantities, capital and exposure are exact rationals (`real`). That is what
`Decimal` computes when nothing is rounded. `Decimal`'s `x // m` and `x % m` are
modelled with truncation toward zero for every sign (`DecimalMath.IntDiv`, `Rem`). As
a result, `ComputeQty` and `TickedBracket` need no precondition on the sign of the
entry price or the exposure:

- a negative raw quantity is always clamped up to one step;
- a zero entry price is the `Decimal` division error (DivisionByZero, or InvalidOperation when the exposure is zero too), which `place_order` catches; the model reports both as `ZeroEntryPrice`.

CAPITAL_USDT, LEVERAGE and TEST_MODE are fields of `CoinDcx.Config`. The wall-clock
timestamp is the parameter `nowMillis`.

Points of the code's behaviour that the model keeps as written:

- There is no position query and no close. One in-memory flag serves all symbols,
  and a SELL after a BUY is sent without closing the long first (`Transition`,
  `OpensOnChange`).
- An unknown symbol does not propagate. `place_order` catches it, prints it and sends
  nothing (`PlaceOrder` returns `Failed`).
- The TP/SL multipliers 1.04/0.95 and 0.96/1.05 are hard-coded. `TP_PERCENT` and
  `SL_PERCENT` in config.py:15-16 are unused.
- A buy's take-profit ends above the entry after flooring when 4% of the entry is at
  least one tick (`UpperLegAboveEntry`). The condition is sufficient, not necessary
  (`TakeProfitAboveBelowMargin`). Without it the take-profit can land on the entry:
  `TakeProfitCanEqualEntry` shows DOGEUSDT bought at 0.001 getting a take-profit
  equal to the entry.
- app.py:2 imports `place_bracket`, which coindcx.py does not define; the function
  there is `place_order`. The model treats the callee as an abstract order call and
  records it in `orderCalls`.
- config.py:4 sets TEST_MODE only when the variable is "false", so its default
  "true" gives live mode. `Config.testMode` is the resulting boolean.

## Model

| member | source | states |
|---|---|---|
| `Strings.Upper` | coindcx.py:51 | upper-casing keeps the length, maps each character through the ASCII upper-case map, leaves no lower-case letter, and returns upper-case text unchanged |
| `Strings.UpperIsUpperEach` | coindcx.py:51 | upper-casing the whole text equals upper-casing it one character at a time from the front |
| `Strings.FindFrom` | coindcx.py:52 | the reported index is an occurrence of the pattern and no occurrence precedes it; None means no occurrence at all (the `in` test) |
| `Strings.FindIsFirst` | coindcx.py:52-53 | an occurrence with none before it is exactly what the search reports |
| `Strings.Before` | coindcx.py:53 | `split(p)[0]` is a prefix of the text, followed by `p` when `p` occurs, and contains no occurrence of `p` starting before its end; when `p` does not occur it is the whole text |
| `Strings.DeleteAll` | coindcx.py:61 | `replace(p, "")` never lengthens the text and leaves text without `p` unchanged |
| `Strings.DeleteAppended` | coindcx.py:61 | deleting every `p` from `x + p`, where the appended `p` is the only occurrence, gives back `x` |
| `DecimalMath.IntDiv` | coindcx.py:129-130 | `Decimal` `x // m` truncates toward zero: the multiple lies between 0 and `x` and within one `m` of `x`, and is zero exactly when `abs(x) < m` |
| `DecimalMath.Rem` | coindcx.py:100 | `Decimal` `x % m` has the sign of `x`, is smaller than `m` in size, and `x` minus it is a whole multiple of `m` |
| `DecimalMath.TowardZero` | coindcx.py:129-130 | `(x // m) * m` is a multiple of `m`; for `x >= 0` it is the floor of `x` to `m` (at most `x`, less than `m` below it); for `x < 0` it is the ceiling |
| `CoinDcx.TablesAgree` | coindcx.py:16-43 | SYMBOL_STEPS and PRICE_TICKS have the same symbols, every step and tick is positive, and SPECIAL_RULES only covers listed symbols |
| `CoinDcx.NormalizeSymbol` | coindcx.py:47-54 | the result is upper-case and a prefix of the upper-cased input; it ends in USDT exactly when the upper-cased input contains USDT, and then that final USDT is its first; otherwise it is the upper-cased input |
| `CoinDcx.CutAfterQuote` | coindcx.py:52-54 | upper-case text cut after its first USDT (or kept whole without one) is an upper-case prefix that ends in USDT exactly when the text holds USDT, and then that USDT is its first |
| `CoinDcx.QuoteFirstAtEnd` | coindcx.py:53 | cutting the text just after its first USDT leaves that USDT as the first occurrence |
| `CoinDcx.NormalizeIdempotent` | coindcx.py:47-54 | normalising twice equals normalising once |
| `CoinDcx.NormalizeSuffixExample` | coindcx.py:47-54 | `BTCUSDT.P` normalises to `BTCUSDT` |
| `CoinDcx.NormalizeLowerExample` | coindcx.py:47-54 | `btcusdt_1` normalises to `BTCUSDT` |
| `CoinDcx.FutPair` | coindcx.py:57-61 | every pair name starts with `B-` and ends with `_USDT` |
| `CoinDcx.FutPairOfNormalized` | coindcx.py:57-61 | for input whose upper-cased text contains USDT, the pair of the normalised symbol is `B-` + text before the first USDT + `_USDT`, and reading that pair back gives the normalised symbol |
| `CoinDcx.FutPairInjective` | coindcx.py:57-61 | two symbols whose upper-cased text contains USDT and that have the same futures pair normalise to the same symbol |
| `CoinDcx.FutPairNotInjective` | coindcx.py:47-61 | without USDT the restriction is needed: `BTC` and `BTCUSDT` share the pair `B-BTC_USDT` but normalise to different symbols |
| `CoinDcx.PairOfBase` | coindcx.py:61 | a symbol made of a base and one final USDT, with no earlier USDT, has the pair `B-` + base + `_USDT` |
| `CoinDcx.PairExample` | coindcx.py:57-61 | `BTCUSDT` becomes `B-BTC_USDT` |
| `CoinDcx.CapitalFor` | coindcx.py:89-94 | the capital is 13 for BTCUSDT (SPECIAL_RULES) and CAPITAL_USDT for every other symbol |
| `CoinDcx.LeverageFor` | coindcx.py:114 | the body's leverage is 20 for BTCUSDT and LEVERAGE for every other symbol |
| `CoinDcx.Exposure` | coindcx.py:88-96 | exposure is 13 x 20 = 260 for BTCUSDT and CAPITAL_USDT x LEVERAGE otherwise, always capital times the leverage the order body carries |
| `CoinDcx.ComputeQty` | coindcx.py:81-104 | fails with UnknownSymbol exactly when the normalised symbol has no step, otherwise only on a zero price; a result is a positive whole number of steps, floored (never rounded up) when the raw quantity reaches a step, exactly one step when it does not |
| `CoinDcx.WholeSteps` | coindcx.py:99-102 | raw minus its remainder, clamped to one step when not positive, is a positive multiple of the step with the same floor/clamp bounds |
| `CoinDcx.EthSizingExample` | coindcx.py:93-102 | ETHUSDT at 50000 with capital 5 and leverage 5: 0.0005 is clamped up to one step, 0.001 |
| `CoinDcx.BtcSizingExample` | coindcx.py:88-102 | BTCUSDT.P at 50000 uses the override: 260 / 50000 = 0.0052 is floored to 0.005 |
| `CoinDcx.RawBracket` | coindcx.py:119-124 | a buy gets 1.04 and 0.95 of the entry, any other side 0.96 and 1.05; for a positive entry a buy's take-profit is above the entry and its stop-loss below, and the reverse for any other side |
| `CoinDcx.TickedBracket` | coindcx.py:118-130 | take-profit and stop-loss are multiples of the tick; for a non-negative entry each is the floor of 1.04/0.95 (buy) or 0.96/1.05 (other) times the entry to the tick; for a negative entry it is the ceiling |
| `CoinDcx.LowerLegBelowEntry` | coindcx.py:119-130 | for a positive entry, a buy's stop-loss and a non-buy's take-profit lie strictly below the entry and within one tick of 95% or 96% of it |
| `CoinDcx.UpperLegAboveEntry` | coindcx.py:119-130 | a buy's take-profit (or a non-buy's stop-loss) lies strictly above the entry when 4% (or 5%) of the entry is at least one tick |
| `CoinDcx.TakeProfitAboveBelowMargin` | coindcx.py:119-130 | the margin is not necessary: DOGEUSDT bought at 0.00199, where 4% of the entry is under one tick, still gets a take-profit of 0.002, above the entry |
| `CoinDcx.TakeProfitCanEqualEntry` | coindcx.py:119-130 | without that margin, DOGEUSDT bought at 0.001 gets a take-profit equal to the entry |
| `CoinDcx.BracketExample` | coindcx.py:119-130 | a BTC buy at 50000 gets take-profit 52000 and stop-loss 47500 |
| `CoinDcx.TickFor` | coindcx.py:127 | the tick is positive, and it is the PRICE_TICKS entry for every symbol that has a quantity step, so the 0.01 fallback is never used for a sized order |
| `CoinDcx.PlaceOrder` | coindcx.py:107-162 | never raises: fails, with compute_qty's error and nothing sent, exactly when sizing fails; otherwise it builds a body with the normalised symbol's pair, market_order, compute_qty's quantity (a positive multiple of the step), the overridden leverage and the tick-floored bracket (multiples of the tick); the body is held back exactly in TEST_MODE and posted otherwise |
| `Webhook.Transition` | app.py:20-30 | a signal places at most one order, for the request's symbol and price; an order moves the flag to its own side, away from where it was; without an order the flag stays, except that EXIT clears it |
| `Webhook.OpensOnChange` | app.py:20-26 | BUY while not LONG places exactly one buy and sets LONG; SELL while not SHORT places exactly one sell, with no close issued first, and sets SHORT |
| `Webhook.OrderIff` | app.py:20-30 | an order is placed if and only if the signal is BUY while not LONG or SELL while not SHORT |
| `Webhook.ExitAndUnknown` | app.py:28-30 | EXIT sets the flag to None with no order; any other signal, lower-case ones included, changes nothing |
| `Webhook.RepeatIgnored` | app.py:20-26 | a second BUY (or SELL) after the first places no order and keeps the flag, whatever symbol it names, because the flag is global |
| `Webhook.RunWithoutExitAlternates` | app.py:20-26 | over any sequence of requests without EXIT, consecutive orders alternate sides, starting away from the initial flag; every order is buy or sell; the flag ends on the last order's side |
| `Webhook.DuplicateDeliveryOrdersOnce` | app.py:20-26 | the same BUY or SELL delivered twice places exactly one order, or none if the flag was already on that side |
| `Webhook.Server.constructor` | app.py:6 | the process starts with no position and no order placed |
| `Webhook.Server.HandleWebhook` | app.py:9-32 | the new flag and the appended order calls are those `Transition` gives for the old flag, and the reply is always `{"status": "ok"}` |

## Left out

- `sign` (coindcx.py:64-77): JSON serialisation plus HMAC-SHA256 through `json`, `hmac` and `hashlib`. `PlaceOrder`'s `Posted` outcome stands for "signed and posted".
- The HTTP post (coindcx.py:152-159) and every `print`. An error raised while signing or posting is caught by the same handler; for example, a missing secret fails on `None.encode`. The model does not tell that case apart from `Posted`.
- PlaceOrder: does not distinguish a live-mode failure inside `sign` or `requests.post` from a successful post, because both are foreign calls whose errors the same handler swallows.
- The wall-clock `time.time()` (coindcx.py:133) is the parameter `nowMillis`.
- `float(...)` conversions (coindcx.py:104, 140-141; app.py:18) and `Decimal(str(float))` (coindcx.py:93-97, 116). Values are exact rationals. Binary floating point is not modelled, and neither are NaN and infinity inputs.
- The 28-digit `Decimal` context (coindcx.py:10). Division is exact, so rounding of long quotients is not modelled, and neither is the `DivisionImpossible` error for quotients over 28 digits.
- Strings.Upper: handles ASCII letters only. Python's `str.upper` also maps other Unicode letters and can change the length (`ß` becomes `SS`).
- Flask routing and JSON parsing (app.py:1-18, 35-36). A missing or non-numeric `price` makes `float(...)` raise before any branch runs, so `HandleWebhook` takes the request already parsed. A missing `signal` behaves like any unrecognised signal. A missing `symbol` reaches the order call as None (app.py:17, 21, 25), and the flag moves as it would for any symbol; `HandleWebhook` takes the symbol as text and cannot represent None.
- config.py: only reads environment variables. Its values are the `Config` fields.
- Concurrent requests. `app.run` (app.py:36) starts Flask's server, which by default handles each request on its own thread. The handler calls the order function (app.py:21, 25) before it sets the flag (app.py:22, 26), and `place_order` can block for up to 10 seconds on the post. Two overlapping deliveries of the same BUY can therefore both see the flag not LONG and both place an order. `HandleWebhook` is modelled as one atomic step.
- Webhook.DuplicateDeliveryOrdersOnce: holds only for deliveries handled one after another, because the model has no interleaving of requests.
- Webhook.RepeatIgnored: holds only for deliveries handled one after another, for the same reason.
- Webhook.Server.HandleWebhook: the order call is modelled as returning normally. If the callee raised, the flag would stay as it was and Flask would answer with an error, not `{"status": "ok"}`. The callee as written catches every error itself, and the name app.py imports does not exist.
