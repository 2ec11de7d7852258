/** Order sizing and bracket construction for CoinDCX USDT-margined futures:
    symbol normalisation, the exchange's pair naming, the per-symbol step,
    tick and override tables, quantity sizing, take-profit/stop-loss prices
    and the assembly of one market-order body. */
module CoinDcx {
  import opened Strings
  import opened DecimalMath

  /** The quote asset every traded symbol ends in. */
  const Quote: string := "USDT"

  /** Smallest tradeable quantity increment per symbol. */
  const SymbolSteps: map<string, real> := map[
    "BTCUSDT" := 0.001,
    "ETHUSDT" := 0.001,
    "BNBUSDT" := 0.01,
    "SOLUSDT" := 0.01,
    "XRPUSDT" := 0.1,
    "DOGEUSDT" := 1.0
  ]

  /** Smallest take-profit / stop-loss price increment per symbol. */
  const PriceTicks: map<string, real> := map[
    "BTCUSDT" := 0.1,
    "ETHUSDT" := 0.01,
    "BNBUSDT" := 0.01,
    "SOLUSDT" := 0.01,
    "XRPUSDT" := 0.01,
    "DOGEUSDT" := 0.0001
  ]

  /** Tick used for a symbol missing from `PriceTicks`. */
  const DefaultPriceTick: real := 0.01

  /** A per-symbol override of the configured capital and leverage. */
  datatype SpecialRule = SpecialRule(capital: real, leverage: int)

  const SpecialRules: map<string, SpecialRule> := map[
    "BTCUSDT" := SpecialRule(13.0, 20)
  ]

  /** The process configuration: CAPITAL_USDT, LEVERAGE and TEST_MODE. */
  datatype Config = Config(capitalUsdt: real, leverage: int, testMode: bool)

  /** Why an order could not be built: `compute_qty`'s ValueError for a symbol
      without a quantity step, or a zero entry price, on which the `Decimal`
      division raises DivisionByZero (or InvalidOperation when the exposure is
      zero too). */
  datatype OrderError = UnknownSymbol(symbol: string) | ZeroEntryPrice

  datatype Result<T> = Ok(value: T) | Err(error: OrderError)

  /** Every symbol with a quantity step has a price tick and conversely, every
      step and tick is positive, and only listed symbols have overrides. */
  lemma TablesAgree()
    ensures SymbolSteps.Keys == PriceTicks.Keys
    ensures SpecialRules.Keys <= SymbolSteps.Keys
    ensures forall s :: s in SymbolSteps ==> SymbolSteps[s] > 0.0 && PriceTicks[s] > 0.0
  {
  }

  // ---------------------------------------------------------------- symbols

  /** `normalize_symbol`: the upper-cased input cut just after its first
      "USDT", so that "BTCUSDT.P" and "btcusdt_1" both become "BTCUSDT"; input
      without "USDT" is only upper-cased. The result is always a prefix of the
      upper-cased input, and when it contains "USDT" at all, its only
      occurrence is the one it ends with. */
  function NormalizeSymbol(symbol: string): (r: string)
    ensures IsUpper(r)
    ensures r <= Upper(symbol)
    ensures Contains(Upper(symbol), Quote) <==> (|r| >= |Quote| && r[|r| - |Quote|..] == Quote)
    ensures Contains(Upper(symbol), Quote) ==> Find(r, Quote) == Some(|r| - |Quote|)
    ensures !Contains(Upper(symbol), Quote) ==> r == Upper(symbol)
  {
    var u := Upper(symbol);
    var r := if Contains(u, Quote) then Before(u, Quote) + Quote else u;
    CutAfterQuote(u, r);
    r
  }

  /** Upper-case text cut just after its first "USDT" (or left whole when it
      has none) is an upper-case prefix of it that ends in "USDT" exactly
      when the text holds one, and then that final "USDT" is its first. */
  lemma CutAfterQuote(u: string, r: string)
    requires IsUpper(u)
    requires r == if Contains(u, Quote) then Before(u, Quote) + Quote else u
    ensures IsUpper(r) && r <= u
    ensures Contains(u, Quote) <==> (|r| >= |Quote| && r[|r| - |Quote|..] == Quote)
    ensures Contains(u, Quote) ==> Find(r, Quote) == Some(|r| - |Quote|)
  {
    if Contains(u, Quote) {
      var i := Find(u, Quote).value;
      assert r == u[..i + |Quote|];
      QuoteFirstAtEnd(u, i);
      assert forall c :: c in r ==> c in u;
    } else if |u| >= |Quote| {
      assert !OccursAt(u, |u| - |Quote|, Quote);
    }
  }

  /** Cutting `u` just after its first "USDT" leaves "USDT" occurring first at the cut's end. */
  lemma QuoteFirstAtEnd(u: string, i: nat)
    requires OccursAt(u, i, Quote)
    requires forall j :: 0 <= j < i ==> !OccursAt(u, j, Quote)
    ensures Find(u[..i + |Quote|], Quote) == Some(i)
  {
    var r := u[..i + |Quote|];
    forall j | 0 <= j < i
      ensures !OccursAt(r, j, Quote)
    {
      assert !OccursAt(u, j, Quote);
      assert r[j..j + |Quote|] == u[j..j + |Quote|];
    }
    assert r[i..i + |Quote|] == u[i..i + |Quote|];
    FindIsFirst(r, Quote, i);
  }

  /** Normalising a normalised symbol changes nothing. */
  lemma NormalizeIdempotent(symbol: string)
    ensures NormalizeSymbol(NormalizeSymbol(symbol)) == NormalizeSymbol(symbol)
  {
    var r := NormalizeSymbol(symbol);
    assert Upper(r) == r;
    if Contains(Upper(symbol), Quote) {
      assert r[..|r| - |Quote|] + Quote == r;
    }
  }

  /** `fut_pair`: CoinDCX's futures name of a symbol, "B-", the symbol with
      every "USDT" deleted, then "_USDT". */
  function FutPair(symbol: string): (r: string)
    ensures |r| >= 7 && r[..2] == "B-" && r[|r| - 5..] == "_USDT"
  {
    "B-" + DeleteAll(symbol, Quote) + "_USDT"
  }

  /** The symbol a futures pair name stands for: "B-<base>_USDT" names "<base>USDT". */
  function PairSymbol(pair: string): Option<string>
  {
    if |pair| >= 7 && pair[..2] == "B-" && pair[|pair| - 5..] == "_USDT"
    then Some(pair[2..|pair| - 5] + Quote)
    else None
  }

  /** For a symbol carrying "USDT", the pair of its normalised form is
      "B-<text before the first USDT>_USDT", and that pair names the
      normalised symbol back: two symbols that normalise differently never
      share a pair. */
  lemma FutPairOfNormalized(symbol: string)
    requires Contains(Upper(symbol), Quote)
    ensures FutPair(NormalizeSymbol(symbol)) == "B-" + Before(Upper(symbol), Quote) + "_USDT"
    ensures PairSymbol(FutPair(NormalizeSymbol(symbol))) == Some(NormalizeSymbol(symbol))
  {
    var r := NormalizeSymbol(symbol);
    var base := Before(Upper(symbol), Quote);
    assert r == base + Quote;
    forall j | 0 <= j < |base|
      ensures !OccursAt(base + Quote, j, Quote)
    {
    }
    DeleteAppended(base, Quote);
    var pair := FutPair(r);
    assert pair == "B-" + base + "_USDT";
    assert pair[2..|pair| - 5] == base;
  }

  /** Two symbols whose upper-cased text holds "USDT" and that have the same
      futures pair normalise to the same symbol. */
  lemma FutPairInjective(a: string, b: string)
    requires Contains(Upper(a), Quote) && Contains(Upper(b), Quote)
    requires FutPair(NormalizeSymbol(a)) == FutPair(NormalizeSymbol(b))
    ensures NormalizeSymbol(a) == NormalizeSymbol(b)
  {
    FutPairOfNormalized(a);
    FutPairOfNormalized(b);
  }

  /** Without "USDT" the pair name no longer tells symbols apart: "BTC" and
      "BTCUSDT" share "B-BTC_USDT" but normalise differently. */
  lemma FutPairNotInjective(a: string, b: string)
    requires a == "BTC" && b == "BTCUSDT"
    ensures FutPair(a) == FutPair(b)
    ensures NormalizeSymbol(a) != NormalizeSymbol(b)
  {
    assert DeleteAll(a, Quote) == a;
    assert b == a + Quote;
    QuoteAfterThree(b);
    PairOfBase(a);
    assert !Contains(Upper(a), Quote);
  }

  /** "USDT" occurs first at index 3 of a text such as "BTCUSDT.P". */
  lemma QuoteAfterThree(u: string)
    requires |u| >= 7 && u[3..7] == Quote && 'U' !in u[..3]
    ensures Find(u, Quote) == Some(3)
  {
    forall j | 0 <= j < 3
      ensures !OccursAt(u, j, Quote)
    {
      assert u[j] in u[..3];
      assert u[j..j + |Quote|][0] == u[j];
    }
    assert OccursAt(u, 3, Quote);
    FindIsFirst(u, Quote, 3);
  }

  /** A symbol whose upper-cased text first holds "USDT" at index `i`
      normalises to that text cut just after it. */
  lemma NormalizeAtFirst(symbol: string, i: nat)
    requires Find(Upper(symbol), Quote) == Some(i)
    ensures NormalizeSymbol(symbol) == Upper(symbol)[..i + |Quote|]
  {
  }

  /** The first worked example of `normalize_symbol`'s doc comment: a
      suffix after "USDT" is cut off. */
  lemma NormalizeSuffixExample(symbol: string)
    requires symbol == "BTCUSDT.P"
    ensures NormalizeSymbol(symbol) == "BTCUSDT"
  {
    assert Upper(symbol) == symbol by {
      UpperIsUpperEach(symbol);
    }
    QuoteAfterThree(symbol);
    NormalizeAtFirst(symbol, 3);
  }

  /** The second: lower case is upper-cased before the cut. */
  lemma NormalizeLowerExample(symbol: string)
    requires symbol == "btcusdt_1"
    ensures NormalizeSymbol(symbol) == "BTCUSDT"
  {
    var u := "BTCUSDT_1";
    assert Upper(symbol) == u by {
      UpperIsUpperEach(symbol);
    }
    QuoteAfterThree(u);
    NormalizeAtFirst(symbol, 3);
  }

  /** A symbol that is a base followed by its first and only "USDT" has the
      pair "B-<base>_USDT". */
  lemma PairOfBase(base: string)
    requires Find(base + Quote, Quote) == Some(|base|)
    ensures FutPair(base + Quote) == "B-" + base + "_USDT"
  {
    DeleteAppended(base, Quote);
  }

  /** The worked example of `fut_pair`'s doc comment: "BTC" followed by
      "USDT", that is "BTCUSDT", becomes "B-BTC_USDT". */
  lemma PairExample(base: string)
    requires base == "BTC"
    ensures base + Quote == "BTCUSDT" && FutPair(base + Quote) == "B-BTC_USDT"
  {
    QuoteAfterThree(base + Quote);
    PairOfBase(base);
  }

  // ---------------------------------------------------------------- sizing

  /** The capital of a symbol: its special rule's, else CAPITAL_USDT. */
  function CapitalFor(symbol: string, cfg: Config): (c: real)
    ensures symbol == "BTCUSDT" ==> c == 13.0
    ensures symbol != "BTCUSDT" ==> c == cfg.capitalUsdt
  {
    if symbol in SpecialRules then SpecialRules[symbol].capital else cfg.capitalUsdt
  }

  /** The leverage `place_order` puts in the order body:
      `SPECIAL_RULES.get(symbol, {}).get("leverage", LEVERAGE)`. */
  function LeverageFor(symbol: string, cfg: Config): (l: int)
    ensures symbol == "BTCUSDT" ==> l == 20
    ensures symbol != "BTCUSDT" ==> l == cfg.leverage
  {
    if symbol in SpecialRules then SpecialRules[symbol].leverage else cfg.leverage
  }

  /** `compute_qty`'s exposure, capital times leverage with the BTC override:
      13 x 20 for BTCUSDT, CAPITAL_USDT x LEVERAGE otherwise, and always the
      same leverage the order body is sent with. */
  function Exposure(symbol: string, cfg: Config): (e: real)
    ensures e == CapitalFor(symbol, cfg) * LeverageFor(symbol, cfg) as real
    ensures symbol == "BTCUSDT" ==> e == 260.0
    ensures symbol != "BTCUSDT" ==> e == cfg.capitalUsdt * cfg.leverage as real
  {
    if symbol in SpecialRules then
      var rule := SpecialRules[symbol];
      rule.capital * rule.leverage as real
    else
      cfg.capitalUsdt * cfg.leverage as real
  }

  /** `compute_qty`: exposure over the entry price, cut to the symbol's
      quantity step, and raised to one step when that leaves nothing. It fails
      with UnknownSymbol exactly when the normalised symbol has no step, and
      otherwise only on a zero entry price. A success is a positive whole
      number of steps: the floor of the raw quantity to a step when the raw
      quantity reaches one step, exactly one step when it does not. */
  function ComputeQty(entryPrice: real, symbol: string, cfg: Config): (r: Result<real>)
    ensures r.Err? <==> NormalizeSymbol(symbol) !in SymbolSteps || entryPrice == 0.0
    ensures (r.Err? && r.error == UnknownSymbol(NormalizeSymbol(symbol))) <==> NormalizeSymbol(symbol) !in SymbolSteps
    ensures r.Ok? ==>
      var sym := NormalizeSymbol(symbol);
      var step := SymbolSteps[sym];
      var raw := Exposure(sym, cfg) / entryPrice;
      && r.value > 0.0
      && IsMultiple(r.value, step)
      && (raw >= step ==> r.value <= raw < r.value + step)
      && (raw < step ==> r.value == step)
  {
    var sym := NormalizeSymbol(symbol);
    if sym !in SymbolSteps then Err(UnknownSymbol(sym))
    else if entryPrice == 0.0 then Err(ZeroEntryPrice)
    else
      var raw := Exposure(sym, cfg) / entryPrice;
      var qty := WholeSteps(raw, SymbolSteps[sym]);
      Ok(qty)
  }

  /** `compute_qty`'s last step: the raw quantity minus its `Decimal`
      remainder by the step, replaced by one step when that is not positive.
      The result is a positive whole number of steps, the raw quantity's floor
      to a step when it reaches one step, exactly one step when it does not. */
  function WholeSteps(raw: real, step: real): (qty: real)
    requires step > 0.0
    ensures qty > 0.0 && IsMultiple(qty, step)
    ensures raw >= step ==> qty <= raw < qty + step
    ensures raw < step ==> qty == step
  {
    var qty := raw - Rem(raw, step);
    if qty <= 0.0 then
      IntTimesIsMultiple(1, step);
      step
    else
      qty
  }

  /** A worked sizing example: at 50000 with CAPITAL_USDT = 5
      and LEVERAGE = 5, ETH's raw 25 / 50000 = 0.0005 is raised to one step
      of 0.001. */
  lemma EthSizingExample()
    ensures ComputeQty(50000.0, "ETHUSDT", Config(5.0, 5, false)) == Ok(0.001)
  {
    var s := "ETHUSDT";
    assert NormalizeSymbol(s) == s by {
      assert Upper(s) == s by {
        UpperIsUpperEach(s);
        assert UpperEach(s) == s;
      }
      QuoteAfterThree(s);
      NormalizeAtFirst(s, 3);
      assert s[..3 + |Quote|] == s;
    }
    assert Exposure(s, Config(5.0, 5, false)) / 50000.0 == 0.0005;
  }

  /** The same price on "BTCUSDT.P" uses BTC's override: 13 x 20 / 50000 =
      0.0052, cut down to 0.005. */
  lemma BtcSizingExample()
    ensures ComputeQty(50000.0, "BTCUSDT.P", Config(5.0, 5, false)) == Ok(0.005)
  {
    NormalizeSuffixExample("BTCUSDT.P");
    assert Exposure("BTCUSDT", Config(5.0, 5, false)) / 50000.0 == 0.0052;
    assert 0.0052 / 0.001 == 5.2;
    assert IntDiv(0.0052, 0.001) == 5;
    assert WholeSteps(0.0052, 0.001) == 0.005;
  }

  // ---------------------------------------------------------------- brackets

  /** A take-profit and a stop-loss price. */
  datatype Bracket = Bracket(takeProfit: real, stopLoss: real)

  /** The bracket before tick flooring: +4% / -5% of the entry for a "buy",
      -4% / +5% for any other side, so that for a positive entry a buy's
      take-profit is above it and its stop-loss below, and the other way
      round for a sell. */
  function RawBracket(side: string, entry: real): (b: Bracket)
    ensures side == "buy" ==> b.takeProfit == entry * 1.04 && b.stopLoss == entry * 0.95
    ensures side != "buy" ==> b.takeProfit == entry * 0.96 && b.stopLoss == entry * 1.05
    ensures entry > 0.0 && side == "buy" ==> b.stopLoss < entry < b.takeProfit
    ensures entry > 0.0 && side != "buy" ==> b.takeProfit < entry < b.stopLoss
  {
    if side == "buy" then Bracket(entry * 1.04, entry * 0.95)
    else Bracket(entry * 0.96, entry * 1.05)
  }

  /** The bracket `place_order` sends: each raw price cut toward zero to a
      multiple of the tick, which for a non-negative entry is its floor to
      the tick, never above the raw price and less than one tick below it. */
  function TickedBracket(side: string, entry: real, tick: real): (b: Bracket)
    requires tick > 0.0
    ensures IsMultiple(b.takeProfit, tick) && IsMultiple(b.stopLoss, tick)
    ensures entry >= 0.0 ==>
      var raw := RawBracket(side, entry);
      && b.takeProfit <= raw.takeProfit < b.takeProfit + tick
      && b.stopLoss <= raw.stopLoss < b.stopLoss + tick
    ensures entry < 0.0 ==>
      var raw := RawBracket(side, entry);
      && raw.takeProfit <= b.takeProfit < raw.takeProfit + tick
      && raw.stopLoss <= b.stopLoss < raw.stopLoss + tick
  {
    var raw := RawBracket(side, entry);
    Bracket(TowardZero(raw.takeProfit, tick), TowardZero(raw.stopLoss, tick))
  }

  /** For a positive entry the protective leg lies strictly below the entry:
      a buy's stop-loss and any other side's take-profit. Both stay within a
      tick of 95% and 96% of the entry. */
  lemma LowerLegBelowEntry(side: string, entry: real, tick: real)
    requires tick > 0.0 && entry > 0.0
    ensures var b := TickedBracket(side, entry, tick);
      if side == "buy" then entry * 0.95 - tick < b.stopLoss < entry
      else entry * 0.96 - tick < b.takeProfit < entry
  {
  }

  /** The upper leg, a buy's take-profit or any other side's stop-loss, lies
      strictly above the entry when the percentage covers a tick. The
      condition is sufficient, not necessary (`TakeProfitAboveBelowMargin`). */
  lemma UpperLegAboveEntry(side: string, entry: real, tick: real)
    requires tick > 0.0 && entry > 0.0
    requires side == "buy" ==> entry * 0.04 >= tick
    requires side != "buy" ==> entry * 0.05 >= tick
    ensures var b := TickedBracket(side, entry, tick);
      if side == "buy" then b.takeProfit > entry else b.stopLoss > entry
  {
  }

  /** Without that margin the floored take-profit of a buy can land on the
      entry itself: DOGEUSDT bought at 0.001 with its tick of 0.0001. */
  lemma TakeProfitCanEqualEntry()
    ensures TickedBracket("buy", 0.001, PriceTicks["DOGEUSDT"]).takeProfit == 0.001
  {
    assert IntDiv(0.00104, 0.0001) == 10;
  }

  /** The margin is not needed in every case: DOGEUSDT bought at 0.00199
      has 4% of the entry below one tick, yet its take-profit floors to
      0.002, above the entry. */
  lemma TakeProfitAboveBelowMargin()
    ensures 0.00199 * 0.04 < PriceTicks["DOGEUSDT"]
    ensures TickedBracket("buy", 0.00199, PriceTicks["DOGEUSDT"]).takeProfit == 0.002 > 0.00199
  {
    assert IntDiv(0.0020696, 0.0001) == 20;
  }

  /** A worked bracket example: a buy at 50000 on BTC's tick. */
  lemma BracketExample()
    ensures TickedBracket("buy", 50000.0, PriceTicks["BTCUSDT"]) == Bracket(52000.0, 47500.0)
  {
    assert IntDiv(52000.0, 0.1) == 520000;
    assert IntDiv(47500.0, 0.1) == 475000;
  }

  /** `PRICE_TICKS.get(symbol, Decimal("0.01"))`; the fallback is never
      reached for a symbol that has a quantity step. */
  function TickFor(symbol: string): (t: real)
    ensures t > 0.0
    ensures symbol in SymbolSteps ==> t == PriceTicks[symbol]
  {
    if symbol in PriceTicks then PriceTicks[symbol] else DefaultPriceTick
  }

  // ---------------------------------------------------------------- orders

  /** The "order" object of the request body. */
  datatype Order = Order(
    side: string,
    pair: string,
    orderType: string,
    totalQuantity: real,
    leverage: int,
    takeProfitPrice: real,
    stopLossPrice: real)

  /** The request body: a millisecond timestamp and the order. */
  datatype OrderBody = OrderBody(timestamp: int, order: Order)

  /** What one `place_order` call did: the body was signed and posted, the
      body was built but held back by TEST_MODE, or an error was caught and
      nothing was sent. */
  datatype Outcome = Posted(body: OrderBody) | HeldByTestMode(body: OrderBody) | Failed(error: OrderError)

  /** `place_order`: normalise the symbol, size the order, pick the leverage,
      build the tick-floored bracket and the body; stop there in TEST_MODE,
      otherwise sign and post it. Every error is caught, so the call fails
      exactly when sizing fails, and then nothing is sent. `nowMillis` is the
      wall clock read for the timestamp. */
  method PlaceOrder(side: string, symbol: string, entryPrice: real, cfg: Config, nowMillis: int)
    returns (outcome: Outcome)
    ensures outcome.Failed? <==> ComputeQty(entryPrice, symbol, cfg).Err?
    ensures outcome.Failed? ==> outcome.error == ComputeQty(entryPrice, symbol, cfg).error
    ensures outcome.HeldByTestMode? <==> !outcome.Failed? && cfg.testMode
    ensures outcome.Posted? <==> !outcome.Failed? && !cfg.testMode
    ensures !outcome.Failed? ==>
      var sym := NormalizeSymbol(symbol);
      var o := outcome.body.order;
      && outcome.body.timestamp == nowMillis
      && o.side == side
      && o.pair == FutPair(sym)
      && o.orderType == "market_order"
      && o.totalQuantity == ComputeQty(entryPrice, symbol, cfg).value
      && o.totalQuantity > 0.0 && IsMultiple(o.totalQuantity, SymbolSteps[sym])
      && o.leverage == LeverageFor(sym, cfg)
      && TickFor(sym) == PriceTicks[sym]
      && Bracket(o.takeProfitPrice, o.stopLossPrice) == TickedBracket(side, entryPrice, TickFor(sym))
      && IsMultiple(o.takeProfitPrice, TickFor(sym)) && IsMultiple(o.stopLossPrice, TickFor(sym))
  {
    var sym := NormalizeSymbol(symbol);
    NormalizeIdempotent(symbol);
    var qty := ComputeQty(entryPrice, sym, cfg);
    if qty.Err? {
      return Failed(qty.error);
    }
    var leverage := LeverageFor(sym, cfg);
    var bracket := TickedBracket(side, entryPrice, TickFor(sym));
    var body := OrderBody(nowMillis, Order(
      side, FutPair(sym), "market_order", qty.value, leverage,
      bracket.takeProfit, bracket.stopLoss));
    if cfg.testMode {
      return HeldByTestMode(body);
    }
    return Posted(body);
  }
}
