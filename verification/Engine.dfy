// The backtest bar loop, and the solvency of long-only backtests.
module Engine {
  import opened Protocol
  import opened Reals
  import P = Portfolio
  import opened B = Broker

  datatype Config = Config(
    symbol: string,
    initialCash: real,
    allowShort: bool,
    cost: CostModel,
    fill: FillModel,
    bars: seq<Bar>)

  datatype EquityPoint = EquityPoint(equity: real, cash: real, positionValue: real, drawdown: real)

  /** The backtest after some bars; failed once sizing divided by zero (see Broker.Sized). */
  datatype Track = Track(account: Account, points: seq<EquityPoint>, failed: bool)

  function Equity(c: Config, book: P.Book, i: nat): real
    requires i < |c.bars|
  {
    P.TotalValue(book, map[c.symbol := c.bars[i].close])
  }

  function Peak(initialCash: real, points: seq<EquityPoint>): real {
    if points == [] then initialCash
    else Max(Peak(initialCash, points[..|points| - 1]), points[|points| - 1].equity)
  }

  function Point(initialCash: real, points: seq<EquityPoint>, equity: real, cash: real): EquityPoint {
    var peak := Peak(initialCash, points);
    EquityPoint(equity, cash, equity - cash, if peak > 0.0 then P.Average(equity - peak, peak) else 0.0)
  }

  /** Only the traded symbol is held. */
  predicate Solo(book: P.Book, symbol: string) {
    |book.holdings| <= 1 && (book.holdings != [] ==> book.holdings[0].symbol == symbol)
  }

  function Traded(c: Config, t: Track, sig: Signal, i: nat): (r: Track)
    requires i < |c.bars|
    ensures Solo(t.account.book, c.symbol) ==> Solo(r.account.book, c.symbol)
  {
    match Dealt(t.account, c.allowShort, c.cost, c.fill, c.symbol, sig, i, c.bars, Equity(c, t.account.book, i))
    case None => t.(failed := true)
    case Some(account) => t.(account := account)
  }

  /** The state after the first k bars, under the strategy's signals. */
  function After(c: Config, signals: seq<Option<Signal>>, k: nat): (t: Track)
    requires k <= |c.bars| == |signals|
    ensures Solo(t.account.book, c.symbol)
  {
    if k == 0 then Track(Account(P.Book(c.initialCash, []), []), [], false)
    else
      var t := After(c, signals, k - 1);
      if t.failed then t else BarStep(c, t, signals[k - 1], k - 1)
  }

  function BarStep(c: Config, t: Track, sig: Option<Signal>, i: nat): (r: Track)
    requires i < |c.bars|
    ensures Solo(t.account.book, c.symbol) ==> Solo(r.account.book, c.symbol)
  {
    var t' := if sig.Some? && sig.value.side != Hold then Traded(c, t, sig.value, i) else t;
    if t'.failed then t'
    else
      var book := t'.account.book;
      t'.(points := t'.points + [Point(c.initialCash, t'.points, Equity(c, book, i), book.cash)])
  }

  datatype Outcome = Outcome(points: seq<EquityPoint>, trades: seq<Trade>, error: bool)

  class BacktestEngine {
    const config: Config
    const portfolio: P.Portfolio
    const broker: B.Broker

    ghost predicate Valid()
      reads this, portfolio
    {
      && portfolio.Valid()
      && broker.portfolio == portfolio && broker.cost == config.cost && broker.fill == config.fill
      && portfolio.allowShort == config.allowShort && portfolio.initialCash == config.initialCash
    }

    constructor (config: Config)
      ensures Valid() && this.config == config && fresh(portfolio) && fresh(broker) && portfolio.positions == []
    {
      this.config := config;
      var p := new P.Portfolio(config.initialCash, config.allowShort);
      portfolio := p;
      broker := new B.Broker(p, config.cost, config.fill);
    }

    /** A run whose sizing divides by zero ends with the trades so far and an error. */
    method Run(signals: seq<Option<Signal>>) returns (result: Outcome)
      requires Valid() && |signals| == |config.bars|
      modifies portfolio, broker
      ensures Valid()
      ensures var t := After(config, signals, |signals|);
              result == Outcome(if t.failed then [] else t.points, t.account.trades, t.failed)
    {
      broker.Reset();
      var ok, points, done := RunBars(signals);
      FailureStays(config, signals, done, |signals|);
      return Outcome(if ok then points else [], broker.trades, !ok);
    }

    /** The bar loop on a fresh portfolio; false means that sizing divided by zero at the last bar done. */
    method RunBars(signals: seq<Option<Signal>>) returns (ok: bool, points: seq<EquityPoint>, ghost done: nat)
      requires |signals| == |config.bars| && portfolio.positions == [] && Reached(signals, 0, [], false)
      modifies portfolio, broker
      ensures done <= |signals| && (ok ==> done == |signals|) && Reached(signals, done, points, !ok)
    {
      ok, points, done := true, [], 0;
      ghost var owned: set<P.Position> := {};
      var i := 0;
      while ok && i < |signals|
        invariant 0 <= i <= |signals| && done == i && fresh(owned) && Owns(owned)
        invariant Reached(signals, i, points, !ok)
      {
        ok, points, owned := RunBar(signals, i, points, owned);
        i := i + 1;
        done := i;
      }
    }

    /** The state of the objects is that of the specification after i bars. */
    ghost predicate Reached(signals: seq<Option<Signal>>, i: nat, points: seq<EquityPoint>, failed: bool)
      reads this, portfolio, broker, broker.portfolio, portfolio.positions, broker.portfolio.positions
      requires i <= |config.bars| == |signals|
    {
      Valid() && After(config, signals, i) == Track(broker.View(), points, failed)
    }

    ghost predicate Owns(owned: set<P.Position>)
      reads portfolio
    {
      forall p :: p in portfolio.positions ==> p in owned
    }

    /** One turn of the bar loop; false means that sizing divided by zero. */
    method RunBar(signals: seq<Option<Signal>>, i: nat, points: seq<EquityPoint>, ghost owned: set<P.Position>)
      returns (ok: bool, points': seq<EquityPoint>, ghost owned': set<P.Position>)
      requires Owns(owned) && i < |config.bars| == |signals| && Reached(signals, i, points, false)
      modifies portfolio, broker, owned
      ensures Owns(owned') && fresh(owned' - owned) && Reached(signals, i + 1, points', !ok)
    {
      ok, points', owned' := true, points, owned;
      var sig := signals[i];
      if sig.Some? && sig.value.side != Hold {
        ok, owned' := Trade(sig.value, i, points, owned);
        if !ok {
          return;
        }
      }
      var equity := portfolio.ComputeTotalValue(map[config.symbol := config.bars[i].close]);
      points' := Record(points, equity, portfolio.cash);
    }

    /** Executes a signal sized by the equity at the close. */
    method Trade(sig: Signal, i: nat, ghost points: seq<EquityPoint>, ghost owned: set<P.Position>)
      returns (ok: bool, ghost owned': set<P.Position>)
      requires Valid() && Owns(owned) && i < |config.bars|
      modifies portfolio, broker, owned
      ensures Valid() && Owns(owned') && fresh(owned' - owned)
      ensures Track(broker.View(), points, !ok) == Traded(config, Track(old(broker.View()), points, false), sig, i)
    {
      var equity := portfolio.ComputeTotalValue(map[config.symbol := config.bars[i].close]);
      ok := broker.ExecuteSignal(sig, config.symbol, i, config.bars, equity);
      owned' := owned + set p | p in portfolio.positions;
    }

    method Record(points: seq<EquityPoint>, equity: real, cash: real) returns (points': seq<EquityPoint>)
      ensures points' == points + [Point(config.initialCash, points, equity, cash)]
    {
      var peak := ComputePeak(points);
      var drawdown := if peak > 0.0 then P.Average(equity - peak, peak) else 0.0;
      points' := points + [EquityPoint(equity, cash, equity - cash, drawdown)];
    }

    method ComputePeak(points: seq<EquityPoint>) returns (peak: real)
      ensures peak == Peak(config.initialCash, points)
    {
      peak := config.initialCash;
      for i := 0 to |points|
        invariant peak == Peak(config.initialCash, points[..i])
      {
        assert points[..i + 1][..i] == points[..i];
        peak := Max(peak, points[i].equity);
      }
      assert points[..|points|] == points;
    }
  }

  /** The signal is none, a hold, of a given quantity, or sized at a fill price other than zero. */
  predicate Sizable(c: Config, sig: Option<Signal>, i: nat)
    requires i < |c.bars|
  {
    sig.Some? && sig.value.side != Hold && sig.value.quantity == None ==>
      FillPrice(c.fill, c.bars, i, sig.value.side) != 0.0
  }

  lemma BarFailsIff(c: Config, t: Track, sig: Option<Signal>, i: nat)
    requires i < |c.bars| && !t.failed
    ensures BarStep(c, t, sig, i).failed <==> !Sizable(c, sig, i)
  {
  }

  /** The first k signals can be sized. */
  predicate AllSizable(c: Config, signals: seq<Option<Signal>>, k: nat)
    requires k <= |c.bars| == |signals|
  {
    k == 0 || (AllSizable(c, signals, k - 1) && Sizable(c, signals[k - 1], k - 1))
  }

  /** A run stays within the reals exactly when every signal can be sized. */
  lemma {:induction false} RunsThroughIff(c: Config, signals: seq<Option<Signal>>, k: nat)
    requires k <= |c.bars| == |signals|
    ensures !After(c, signals, k).failed <==> AllSizable(c, signals, k)
  {
    if k > 0 {
      RunsThroughIff(c, signals, k - 1);
      RunsOneMoreIff(c, signals, k);
    }
  }

  lemma RunsOneMoreIff(c: Config, signals: seq<Option<Signal>>, k: nat)
    requires 0 < k <= |c.bars| == |signals|
    ensures !After(c, signals, k).failed <==> !After(c, signals, k - 1).failed && Sizable(c, signals[k - 1], k - 1)
  {
    var t := After(c, signals, k - 1);
    if !t.failed {
      BarFailsIff(c, t, signals[k - 1], k - 1);
    }
  }

  lemma FailureSkips(c: Config, signals: seq<Option<Signal>>, k: nat)
    requires 0 < k <= |c.bars| == |signals| && After(c, signals, k - 1).failed
    ensures After(c, signals, k) == After(c, signals, k - 1)
  {
  }

  lemma {:induction false} FailureStays(c: Config, signals: seq<Option<Signal>>, i: nat, k: nat)
    requires i <= k <= |c.bars| == |signals| && (i == k || After(c, signals, i).failed)
    ensures After(c, signals, k) == After(c, signals, i)
    decreases k - i
  {
    if i < k {
      FailureSkips(c, signals, i + 1);
      FailureStays(c, signals, i + 1, k);
    }
  }

  // ---------------------------------------------------------------- one strength-sized sale

  predicate Solvent(book: P.Book) {
    book.cash >= 0.0 && P.LongOnly(book)
  }

  lemma SoloValue(book: P.Book, symbol: string, close: real)
    requires Solo(book, symbol)
    ensures P.TotalValue(book, map[symbol := close]) ==
      book.cash + Times(P.Held(book.holdings, symbol).quantity, close)
  {
    if book.holdings == [] {
      assert P.Held(book.holdings, symbol) == P.Holding(symbol, 0.0, 0.0, 0.0);
    } else {
      assert book.holdings[..|book.holdings| - 1] == [];
      assert P.Held(book.holdings, symbol) == book.holdings[0];
      var prices := map[symbol := close];
      assert symbol in prices && prices[symbol] == close;
      assert P.MarketValue(book.holdings[..|book.holdings| - 1], prices) == 0.0;
    }
  }

  /** The quantity a signal of that strength asks for. */
  function Asked(book: P.Book, symbol: string, close: real, fill: real, strength: real): real {
    P.Average(Times(P.TotalValue(book, map[symbol := close]), strength), fill)
  }

  /** The book after the order that a strength-sized sell signal places. */
  function Sold(book: P.Book, symbol: string, cost: CostModel, close: real, fill: real, strength: real): P.Book {
    P.Executed(book, false, OrderFor(cost, symbol, -Asked(book, symbol, close, fill, strength), fill))
  }

  /** That is the book after the broker dealt with the signal, sized by the equity at the close. */
  lemma SoldIsDealt(a: Account, m: FillModel, bars: seq<Bar>, i: nat, symbol: string, cost: CostModel, strength: real)
    requires i < |bars| && FillPrice(m, bars, i, SellSide) != 0.0
    ensures var close, fill := bars[i].close, FillPrice(m, bars, i, SellSide);
            var dealt := Dealt(a, false, cost, m, symbol, Signal(SellSide, None, strength), i, bars,
                               P.TotalValue(a.book, map[symbol := close]));
            dealt.Some? && dealt.value.book == Sold(a.book, symbol, cost, close, fill, strength)
  {
  }

  /** Selling at these prices and this fee rate never makes a solvent book insolvent. */
  ghost predicate SaleSolvent(close: real, fill: real, rate: real) {
    forall book, symbol, strength :: Solo(book, symbol) && Solvent(book) && 0.0 <= strength <= 1.0 ==>
      Solvent(Sold(book, symbol, CostModel(rate, 0.0, None), close, fill, strength))
  }

  lemma ScaleDown(a: real, s: real)
    requires a >= 0.0 && 0.0 <= s <= 1.0
    ensures 0.0 <= Times(a, s) <= a
  {
  }

  lemma Spread(a: real, b: real, f: real)
    ensures Times(a + b, f) == Times(a, f) + Times(b, f)
    ensures Times(Times(a, b), f) == Times(a, Times(f, b))
  {
  }

  /** The arithmetic of a sale: what is asked for is worth at most the equity, and the fee on it at
      most the cash and the proceeds. */
  lemma SaleKeepsCash(cash: real, held: real, close: real, fill: real, rate: real, strength: real)
    requires cash >= 0.0 && held >= 0.0 && close > 0.0 && fill > 0.0 && 0.0 <= strength <= 1.0
    requires 0.0 <= rate <= 1.0 && fill >= Times(rate, close)
    ensures var asked := P.Average(Times(cash + Times(held, close), strength), fill);
            asked >= 0.0 && cash + Times(Min(asked, held), fill) - Times(Times(asked, fill), rate) >= 0.0
  {
    var worth := Times(held, close);
    KeepOrder(0.0, held, close);
    var equity := cash + worth;
    var target := Times(equity, strength);
    ScaleDown(equity, strength);
    var asked := P.Average(target, fill);
    QuotientTimes(target, fill);
    assert Times(asked, fill) == target;
    assert asked >= 0.0 by { if asked < 0.0 { KeepStrict(asked, 0.0, fill); } }
    ScaleDown(target, rate);
    if asked > held {
      KeepOrder(target, equity, rate);
      Spread(cash, worth, rate);
      ScaleDown(cash, rate);
      Spread(held, close, rate);
      KeepOrder(Times(rate, close), fill, held);
    }
  }

  lemma SaleStaysSolvent(cost: CostModel, book: P.Book, symbol: string, close: real, fill: real, strength: real)
    requires Solo(book, symbol) && Solvent(book)
    requires close > 0.0 && fill > 0.0 && 0.0 <= strength <= 1.0
    requires 0.0 <= cost.feeRate <= 1.0 && cost.minFee == 0.0 && fill >= Times(cost.feeRate, close)
    ensures var b := Sold(book, symbol, cost, close, fill, strength); Solvent(b) && Solo(b, symbol)
    ensures Asked(book, symbol, close, fill, strength) >= 0.0
  {
    SoloValue(book, symbol, close);
    var held := P.Held(book.holdings, symbol).quantity;
    P.HeldLong(book, symbol);
    SaleKeepsCash(book.cash, held, close, fill, cost.feeRate, strength);
    var asked := Asked(book, symbol, close, fill, strength);
    var o := OrderFor(cost, symbol, -asked, fill);
    assert o == P.Sell(symbol, asked, fill, Fee(cost, asked, fill));
    P.StaysLong(book, o);
    FeeBounds(cost, asked, fill);
    KeepOrder(0.0, asked, fill);
    if P.Fill(book, false, o) > 0.0 {
      P.ExecutedFill(book, o);
    }
  }

  /** One unit held and no cash. */
  function OneUnit(symbol: string): P.Book {
    P.Book(0.0, [P.Holding(symbol, 1.0, 0.0, 0.0)])
  }

  /** Selling against one unit leaves the proceeds less the fee on what was asked for. */
  lemma OneUnitSold(symbol: string, close: real, fill: real, rate: real, strength: real, target: real)
    requires fill > 0.0 && rate > 0.0 && target > 0.0 && target == Times(close, strength)
    ensures Sold(OneUnit(symbol), symbol, CostModel(rate, 0.0, None), close, fill, strength).cash ==
      Min(target, fill) - Times(target, rate)
    ensures Solo(OneUnit(symbol), symbol) && Solvent(OneUnit(symbol))
  {
    var book, cost := OneUnit(symbol), CostModel(rate, 0.0, None);
    SoloValue(book, symbol, close);
    var asked := Asked(book, symbol, close, fill, strength);
    QuotientTimes(target, fill);
    assert Times(asked, fill) == target;
    assert asked > 0.0 by { if asked <= 0.0 { KeepOrder(asked, 0.0, fill); } }
    assert asked <= 1.0 <==> target <= fill by {
      if asked < 1.0 { KeepStrict(asked, 1.0, fill); }
      if asked > 1.0 { KeepStrict(1.0, asked, fill); }
    }
    FeeAt(cost, asked, fill, target);
    P.ExecutedFill(book, OrderFor(cost, symbol, -asked, fill));
  }

  lemma FeeAt(cost: CostModel, asked: real, fill: real, target: real)
    requires cost.minFee == 0.0 && cost.maxFee == None && cost.feeRate > 0.0
    requires target > 0.0 && Times(asked, fill) == target
    ensures Fee(cost, asked, fill) == Times(target, cost.feeRate)
  {
    KeepStrict(0.0, target, cost.feeRate);
  }

  lemma FeeAboveProceeds(close: real, fill: real, rate: real)
    requires close > 0.0 && fill > 0.0 && rate > 1.0
    ensures !SaleSolvent(close, fill, rate)
  {
    var least := Min(close, fill);
    var strength := P.Average(least, close);
    QuotientTimes(least, close);
    assert Times(close, strength) == least;
    assert 0.0 <= strength by { if strength < 0.0 { KeepStrict(strength, 0.0, close); } }
    assert strength <= 1.0 by { if strength > 1.0 { KeepStrict(1.0, strength, close); } }
    KeepStrict(1.0, rate, least);
    OneUnitSold("X", close, fill, rate, strength, least);
    assert !Solvent(Sold(OneUnit("X"), "X", CostModel(rate, 0.0, None), close, fill, strength));
  }

  lemma FillBelowFee(close: real, fill: real, rate: real)
    requires close > 0.0 && fill > 0.0 && 0.0 <= rate <= 1.0 && fill < Times(rate, close)
    ensures !SaleSolvent(close, fill, rate)
  {
    ScaleDown(close, rate);
    assert rate > 0.0;
    OneUnitSold("X", close, fill, rate, 1.0, close);
    assert !Solvent(Sold(OneUnit("X"), "X", CostModel(rate, 0.0, None), close, fill, 1.0));
  }

  /** The order of a strength-sized sell signal keeps every solvent book solvent exactly when the
      fee rate is at most one and the fill price at least that rate of the close. */
  lemma SaleSolventIff(close: real, fill: real, rate: real)
    requires close > 0.0 && fill > 0.0 && rate >= 0.0
    ensures SaleSolvent(close, fill, rate) <==> rate <= 1.0 && fill >= Times(rate, close)
  {
    if rate <= 1.0 && fill >= Times(rate, close) {
      forall book, symbol, strength | Solo(book, symbol) && Solvent(book) && 0.0 <= strength <= 1.0
        ensures Solvent(Sold(book, symbol, CostModel(rate, 0.0, None), close, fill, strength))
      {
        SaleStaysSolvent(CostModel(rate, 0.0, None), book, symbol, close, fill, strength);
      }
    } else if rate > 1.0 {
      FeeAboveProceeds(close, fill, rate);
    } else {
      FillBelowFee(close, fill, rate);
    }
  }

  // ---------------------------------------------------------------- whole backtests

  /** A long-only backtest with positive prices, strength-sized signals and proportional fees
      that the fill prices can bear. */
  ghost predicate Prudent(c: Config, signals: seq<Option<Signal>>) {
    && |signals| == |c.bars|
    && !c.allowShort && c.initialCash >= 0.0
    && 0.0 <= c.cost.feeRate <= 1.0 && c.cost.minFee == 0.0
    && (forall i :: 0 <= i < |c.bars| ==> c.bars[i].close > 0.0)
    && (forall i :: 0 <= i < |signals| && signals[i].Some? && signals[i].value.side != Hold ==>
         var sig := signals[i].value; var fill := FillPrice(c.fill, c.bars, i, sig.side);
         && sig.quantity == None && 0.0 <= sig.strength <= 1.0
         && fill > 0.0 && fill >= Times(c.cost.feeRate, c.bars[i].close))
  }

  lemma PurchaseStaysSolvent(book: P.Book, symbol: string, quantity: real, fill: real, cost: real)
    requires Solo(book, symbol) && Solvent(book) && fill > 0.0
    ensures var b := P.Executed(book, false, P.Buy(symbol, quantity, fill, cost)); Solvent(b) && Solo(b, symbol)
  {
    var o := P.Buy(symbol, quantity, fill, cost);
    P.StaysLong(book, o);
    if P.Fill(book, false, o) > 0.0 {
      P.ExecutedFill(book, o);
      P.AffordableSpend(book.cash, cost, fill);
    }
  }

  lemma TradeStaysSolvent(c: Config, signals: seq<Option<Signal>>, i: nat, t: Track)
    requires Prudent(c, signals) && i < |signals| && signals[i].Some? && signals[i].value.side != Hold
    requires Solvent(t.account.book) && Solo(t.account.book, c.symbol) && !t.failed
    ensures var t' := Traded(c, t, signals[i].value, i);
            Solvent(t'.account.book) && Solo(t'.account.book, c.symbol) && !t'.failed
  {
    var sig := signals[i].value;
    var fill, book := FillPrice(c.fill, c.bars, i, sig.side), t.account.book;
    var asked := Asked(book, c.symbol, c.bars[i].close, fill, sig.strength);
    SaleStaysSolvent(c.cost, book, c.symbol, c.bars[i].close, fill, sig.strength);
    if sig.side == BuySide {
      if asked > 0.0 {
        PurchaseStaysSolvent(book, c.symbol, asked, fill, Fee(c.cost, asked, fill));
      }
    }
  }

  /** A bar that starts solvent ends solvent and records non-negative cash and equity. */
  lemma BarStaysSolvent(c: Config, signals: seq<Option<Signal>>, i: nat, t: Track)
    requires Prudent(c, signals) && i < |signals|
    requires Solvent(t.account.book) && Solo(t.account.book, c.symbol) && !t.failed
    ensures var t' := BarStep(c, t, signals[i], i);
            && Solvent(t'.account.book) && Solo(t'.account.book, c.symbol) && !t'.failed
            && var book := t'.account.book;
               && t'.points == t.points + [Point(c.initialCash, t.points, Equity(c, book, i), book.cash)]
               && 0.0 <= book.cash <= Equity(c, book, i)
  {
    var traded := signals[i].Some? && signals[i].value.side != Hold;
    if traded {
      TradeStaysSolvent(c, signals, i, t);
      PointsKept(c, t, signals[i].value, i);
    }
    var t' := if traded then Traded(c, t, signals[i].value, i) else t;
    SolventEquity(c, t'.account.book, i);
  }

  lemma PointsKept(c: Config, t: Track, sig: Signal, i: nat)
    requires i < |c.bars|
    ensures Traded(c, t, sig, i).points == t.points
  {
  }

  lemma SolventEquity(c: Config, book: P.Book, i: nat)
    requires i < |c.bars| && c.bars[i].close > 0.0 && Solvent(book) && Solo(book, c.symbol)
    ensures Equity(c, book, i) >= book.cash
  {
    SoloValue(book, c.symbol, c.bars[i].close);
    P.HeldLong(book, c.symbol);
    KeepOrder(0.0, P.Held(book.holdings, c.symbol).quantity, c.bars[i].close);
  }

  /** Sizing has not failed, the account is solvent and was so at each of the first k bars. */
  ghost predicate SolventTrack(c: Config, t: Track, k: nat) {
    && !t.failed && Solvent(t.account.book) && Solo(t.account.book, c.symbol) && |t.points| == k
    && forall i :: 0 <= i < k ==> 0.0 <= t.points[i].cash <= t.points[i].equity
  }

  lemma BarKeepsTrack(c: Config, signals: seq<Option<Signal>>, i: nat, t: Track)
    requires Prudent(c, signals) && i < |signals| && SolventTrack(c, t, i)
    ensures SolventTrack(c, BarStep(c, t, signals[i], i), i + 1)
  {
    BarStaysSolvent(c, signals, i, t);
  }

  /** Over a whole prudent backtest sizing never fails, and cash and holding stay non-negative
      at every bar. */
  lemma {:induction false} SolventThroughout(c: Config, signals: seq<Option<Signal>>, k: nat)
    requires Prudent(c, signals) && k <= |signals|
    ensures SolventTrack(c, After(c, signals, k), k)
  {
    if k > 0 {
      SolventThroughout(c, signals, k - 1);
      BarKeepsTrack(c, signals, k - 1, After(c, signals, k - 1));
    }
  }

  // ---------------------------------------------------------------- what the points say

  /** The greatest of the initial cash and the recorded equities. */
  ghost predicate IsPeak(initialCash: real, points: seq<EquityPoint>, peak: real) {
    && initialCash <= peak && (forall i :: 0 <= i < |points| ==> points[i].equity <= peak)
    && (peak == initialCash || exists i :: 0 <= i < |points| && points[i].equity == peak)
  }

  /** The point tells what the book is worth at the close, and how far that is below or above the peak
      as a part of it. */
  ghost predicate Tells(p: EquityPoint, book: P.Book, symbol: string, close: real, peak: real) {
    && p.cash == book.cash && p.equity == p.cash + p.positionValue
    && p.positionValue == Times(P.Held(book.holdings, symbol).quantity, close)
    && if peak > 0.0 then Times(p.drawdown, peak) == p.equity - peak else p.drawdown == 0.0
  }

  lemma {:induction false} PeakIs(initialCash: real, points: seq<EquityPoint>)
    ensures IsPeak(initialCash, points, Peak(initialCash, points))
  {
    PeakIsHighest(initialCash, points);
    if points != [] {
      var front := points[..|points| - 1];
      PeakIs(initialCash, front);
      var peak := Peak(initialCash, front);
      if peak >= points[|points| - 1].equity && peak != initialCash {
        var i :| 0 <= i < |front| && front[i].equity == peak;
        assert points[i].equity == peak;
      }
    }
  }

  lemma AfterNext(c: Config, signals: seq<Option<Signal>>, k: nat)
    requires k < |c.bars| == |signals|
    ensures var t := After(c, signals, k);
            After(c, signals, k + 1) == if t.failed then t else BarStep(c, t, signals[k], k)
  {
  }

  /** The account after one bar. */
  ghost predicate Deals(c: Config, t: Track, sig: Option<Signal>, close: real, i: nat, account: Account)
    requires i < |c.bars|
  {
    var before := t.account.book;
    if sig == None || sig.value.side == Hold then account == t.account
    else Dealt(t.account, c.allowShort, c.cost, c.fill, c.symbol, sig.value, i, c.bars,
               before.cash + Times(P.Held(before.holdings, c.symbol).quantity, close)) == Some(account)
  }

  lemma BarDeals(c: Config, t: Track, sig: Option<Signal>, i: nat)
    requires i < |c.bars| && Solo(t.account.book, c.symbol) && !t.failed && !BarStep(c, t, sig, i).failed
    ensures Deals(c, t, sig, c.bars[i].close, i, BarStep(c, t, sig, i).account)
  {
    SoloValue(t.account.book, c.symbol, c.bars[i].close);
  }

  /** One point is added, which tells what the book is worth. */
  ghost predicate Adds(c: Config, points: seq<EquityPoint>, close: real, t': Track) {
    && |t'.points| == |points| + 1 && t'.points[..|points|] == points
    && forall peak :: IsPeak(c.initialCash, points, peak) ==>
         Tells(t'.points[|points|], t'.account.book, c.symbol, close, peak)
  }

  lemma BarAdds(c: Config, t: Track, sig: Option<Signal>, i: nat)
    requires i < |c.bars| && Solo(t.account.book, c.symbol) && !t.failed && !BarStep(c, t, sig, i).failed
    ensures Adds(c, t.points, c.bars[i].close, BarStep(c, t, sig, i))
  {
    var t' := BarStep(c, t, sig, i);
    PointTells(c, t.points, t'.account.book, i);
    OnlyPeak(c.initialCash, t.points);
    BarPoint(c, t, sig, i);
  }

  lemma BarPoint(c: Config, t: Track, sig: Option<Signal>, i: nat)
    requires i < |c.bars| && !t.failed && !BarStep(c, t, sig, i).failed
    ensures var t' := BarStep(c, t, sig, i);
            var book := t'.account.book;
            t'.points == t.points + [Point(c.initialCash, t.points, Equity(c, book, i), book.cash)]
  {
    if sig.Some? {
      PointsKept(c, t, sig.value, i);
    }
  }

  lemma OnlyPeak(initialCash: real, points: seq<EquityPoint>)
    ensures forall peak :: IsPeak(initialCash, points, peak) ==> peak == Peak(initialCash, points)
  {
    PeakIs(initialCash, points);
  }

  /** Bar by bar, whatever the strategy and the prices, long or short: without a signal and on a hold the
      account stays as it is, otherwise the broker deals with the signal, sized by what the account is
      worth at the close before; and one point is added, which tells what it is worth afterwards and
      compares that with the greatest value up to the bar before. */
  lemma BarTold(c: Config, signals: seq<Option<Signal>>, k: nat)
    requires k < |c.bars| == |signals| && !After(c, signals, k + 1).failed
    ensures !After(c, signals, k).failed
    ensures Deals(c, After(c, signals, k), signals[k], c.bars[k].close, k, After(c, signals, k + 1).account)
    ensures Adds(c, After(c, signals, k).points, c.bars[k].close, After(c, signals, k + 1))
  {
    AfterNext(c, signals, k);
    BarDeals(c, After(c, signals, k), signals[k], k);
    BarAdds(c, After(c, signals, k), signals[k], k);
  }

  lemma PointTells(c: Config, points: seq<EquityPoint>, book: P.Book, k: nat)
    requires k < |c.bars| && Solo(book, c.symbol)
    ensures Tells(Point(c.initialCash, points, Equity(c, book, k), book.cash), book, c.symbol, c.bars[k].close,
                  Peak(c.initialCash, points))
  {
    SoloValue(book, c.symbol, c.bars[k].close);
    var peak := Peak(c.initialCash, points);
    if peak > 0.0 {
      QuotientTimes(Equity(c, book, k) - peak, peak);
    }
  }

  /** The recorded drawdown is measured against earlier bars only: it is positive exactly at a new
      high above a positive peak, at least -1 while there is equity, and none without a positive peak. */
  lemma DrawdownSign(initialCash: real, points: seq<EquityPoint>, equity: real, cash: real)
    ensures var d, peak := Point(initialCash, points, equity, cash).drawdown, Peak(initialCash, points);
            && (d > 0.0 <==> peak > 0.0 && equity > peak)
            && (equity >= 0.0 ==> d >= -1.0)
            && (peak <= 0.0 ==> d == 0.0)
            && initialCash <= peak && forall i :: 0 <= i < |points| ==> points[i].equity <= peak
  {
    PeakIsHighest(initialCash, points);
    var peak := Peak(initialCash, points);
    if peak > 0.0 {
      RatioSign(equity - peak, peak);
    }
  }

  lemma RatioSign(a: real, b: real)
    requires b > 0.0
    ensures P.Average(a, b) > 0.0 <==> a > 0.0
    ensures a >= -b ==> P.Average(a, b) >= -1.0
  {
    var d := P.Average(a, b);
    QuotientTimes(a, b);
    if d > 0.0 {
      KeepStrict(0.0, d, b);
    } else {
      KeepOrder(d, 0.0, b);
    }
    if d < -1.0 {
      KeepStrict(d, -1.0, b);
    }
  }

  lemma {:induction false} PeakIsHighest(initialCash: real, points: seq<EquityPoint>)
    ensures initialCash <= Peak(initialCash, points)
    ensures forall i :: 0 <= i < |points| ==> points[i].equity <= Peak(initialCash, points)
  {
    if points != [] {
      var front := points[..|points| - 1];
      PeakIsHighest(initialCash, front);
      assert forall i :: 0 <= i < |front| ==> points[i] == front[i];
    }
  }
}
