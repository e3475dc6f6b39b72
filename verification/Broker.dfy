// Order execution: fee and fill-price models, the sizing of a signal, and the
// broker that drives the portfolio and logs trades.
module Broker {
  import opened Protocol
  import opened Reals
  import P = Portfolio

  datatype Bar = Bar(open: real, high: real, low: real, close: real)

  datatype Side = BuySide | SellSide | Hold

  /** quantity None sizes the order by strength times equity. */
  datatype Signal = Signal(side: Side, quantity: Option<real>, strength: real)

  /** maxFee None is an unlimited fee. */
  datatype CostModel = CostModel(feeRate: real, minFee: real, maxFee: Option<real>)

  datatype FillModel = FillModel(name: string, slippageBps: real)

  datatype Trade = Trade(side: Side, quantity: real, price: real, cost: real)

  function Fee(m: CostModel, quantity: real, price: real): real {
    var fee := Times(P.Abs(Times(quantity, price)), m.feeRate);
    Max(m.minFee, match m.maxFee case None => fee case Some(cap) => Min(fee, cap))
  }

  function BasePrice(name: string, bars: seq<Bar>, i: nat): real
    requires i < |bars|
  {
    if i + 1 < |bars| && name == "next_open" then bars[i + 1].open
    else if i + 1 < |bars| && name == "next_close" then bars[i + 1].close
    else if i + 1 < |bars| && name == "intrabar_fill" then
      (bars[i + 1].high + bars[i + 1].low + bars[i + 1].close) / 3.0
    else bars[i].close
  }

  /** Slippage makes buys dearer and sells cheaper. */
  function FillPrice(m: FillModel, bars: seq<Bar>, i: nat, side: Side): real
    requires i < |bars|
  {
    var price := BasePrice(m.name, bars, i);
    var slip := m.slippageBps * 0.0001 * price;
    match side case BuySide => price + slip case SellSide => price - slip case Hold => price
  }

  /** A buy and a sale at the same bar are dearer and cheaper by the same amount: that many basis points
      of the price the model names, which is the close of the bar itself unless the model looks at
      the next bar and there is one. */
  lemma SlippageSymmetric(m: FillModel, bars: seq<Bar>, i: nat)
    requires i < |bars|
    ensures var buy, sell := FillPrice(m, bars, i, BuySide), FillPrice(m, bars, i, SellSide);
            var base := (buy + sell) / 2.0;
            && 10000.0 * (buy - base) == m.slippageBps * base
            && var last := i == |bars| - 1;
               match m.name
               case "next_open" => base == if last then bars[i].close else bars[i + 1].open
               case "next_close" => base == if last then bars[i].close else bars[i + 1].close
               case "intrabar_fill" =>
                 if last then base == bars[i].close
                 else 3.0 * base == bars[i + 1].high + bars[i + 1].low + bars[i + 1].close
               case _ => base == bars[i].close
  {
    var base := BasePrice(m.name, bars, i);
    SlipScaled(m.slippageBps, base);
  }

  lemma SlipScaled(bps: real, base: real)
    ensures 10000.0 * (bps * 0.0001 * base) == bps * base
  {
  }

  /** What a signal asks for: the signed quantity, or None when sizing divides by zero. A plain
      float then raises; a numpy float gives infinity or NaN, which is outside the reals. */
  function Sized(sig: Signal, fill: real, equity: real): Option<real> {
    match sig.quantity
    case None =>
      if fill == 0.0 then None
      else
        var qty := P.Average(Times(equity, sig.strength), fill);
        Some(if sig.side == SellSide then -qty else qty)
    case Some(q) => Some(if sig.side == BuySide then q else -q)
  }

  function OrderFor(m: CostModel, symbol: string, qty: real, fill: real): P.Order {
    var cost := Fee(m, P.Abs(qty), fill);
    if qty > 0.0 then P.Buy(symbol, P.Abs(qty), fill, cost) else P.Sell(symbol, P.Abs(qty), fill, cost)
  }

  /** The account: the portfolio's book and the trade log. */
  datatype Account = Account(book: P.Book, trades: seq<Trade>)

  /** The order a signal places; None when sizing divides by zero. */
  function Placed(cost: CostModel, fill: FillModel, symbol: string, sig: Signal, i: nat, bars: seq<Bar>,
                  equity: real): Option<P.Order>
    requires i < |bars|
  {
    var price := FillPrice(fill, bars, i, sig.side);
    match Sized(sig, price, equity)
    case None => None
    case Some(qty) => Some(OrderFor(cost, symbol, qty, price))
  }

  /** The account after a signal; None when sizing divides by zero. The log records the quantity and the
      fee that were asked for, not what the portfolio could fill. */
  function Dealt(a: Account, allowShort: bool, cost: CostModel, fill: FillModel, symbol: string,
                 sig: Signal, i: nat, bars: seq<Bar>, equity: real): Option<Account>
    requires i < |bars|
  {
    if sig.side == Hold then Some(a)
    else match Placed(cost, fill, symbol, sig, i, bars, equity)
      case None => None
      case Some(o) =>
        Some(Account(P.Executed(a.book, allowShort, o),
                     a.trades + [Trade(sig.side, o.quantity, o.price, o.cost)]))
  }

  // ---------------------------------------------------------------- what a signal does

  /** What a signal asks for at that price: the given quantity, or as much as the strength's share of
      the equity is worth. */
  predicate Asks(sig: Signal, price: real, equity: real, asked: real) {
    match sig.quantity
    case Some(q) => asked == q
    case None => price != 0.0 && Times(asked, price) == Times(equity, sig.strength)
  }

  /** A buy of a quantity at a price and fee: all of it if the cash pays for it, as much as the cash
      pays for otherwise. */
  ghost predicate Buys(book: P.Book, symbol: string, wanted: real, price: real, fee: real, after: P.Book) {
    var bought := P.Held(after.holdings, symbol).quantity - P.Held(book.holdings, symbol).quantity;
    && after.cash == book.cash - (if bought > 0.0 then Times(bought, price) + fee else 0.0)
    && if Times(wanted, price) + fee <= book.cash then bought == wanted
       else if price > 0.0 && fee < book.cash then 0.0 < bought < wanted && after.cash == 0.0
       else bought == 0.0
  }

  /** A sale of a quantity at a price and fee: all of it if as much is held, what is held otherwise. */
  ghost predicate Sells(book: P.Book, symbol: string, wanted: real, price: real, fee: real, after: P.Book) {
    var held := P.Held(book.holdings, symbol).quantity;
    var sold := held - P.Held(after.holdings, symbol).quantity;
    && sold == Min(wanted, held)
    && after.cash == book.cash + (if sold > 0.0 then Times(sold, price) - fee else 0.0)
  }

  lemma OrderBuys(book: P.Book, symbol: string, wanted: real, price: real, fee: real)
    requires P.LongOnly(book) && wanted > 0.0
    ensures Buys(book, symbol, wanted, price, fee, P.Executed(book, false, P.Buy(symbol, wanted, price, fee)))
  {
    var o := P.Buy(symbol, wanted, price, fee);
    P.HeldLong(book, symbol);
    P.FillIs(book, false, o);
    P.PositionsAfter(book, false, o, symbol);
  }

  lemma OrderSells(book: P.Book, symbol: string, wanted: real, price: real, fee: real)
    requires P.LongOnly(book) && wanted > 0.0
    ensures Sells(book, symbol, wanted, price, fee, P.Executed(book, false, P.Sell(symbol, wanted, price, fee)))
  {
    var o := P.Sell(symbol, wanted, price, fee);
    P.HeldLong(book, symbol);
    P.FillIs(book, false, o);
    P.PositionsAfter(book, false, o, symbol);
  }

  /** In a long-only account a hold changes nothing, a buy signal buys what it asks for and a sell signal
      sells it, each the other way round when a negative quantity is asked for. Positions in other symbols stay as they
      were, and one trade is logged: of the quantity asked for, at the fill price, with its fee. */
  lemma SignalTrades(a: Account, cost: CostModel, fill: FillModel, symbol: string, sig: Signal, i: nat,
                     bars: seq<Bar>, equity: real, asked: real)
    requires P.LongOnly(a.book) && i < |bars|
    requires sig.side != Hold ==> Asks(sig, FillPrice(fill, bars, i, sig.side), equity, asked)
    ensures var price := FillPrice(fill, bars, i, sig.side);
            var size := if asked < 0.0 then -asked else asked;
            var fee, dealt := Fee(cost, size, price), Dealt(a, false, cost, fill, symbol, sig, i, bars, equity);
            && dealt.Some?
            && if sig.side == Hold then dealt.value == a else
            && dealt.value.trades == a.trades + [Trade(sig.side, size, price, fee)]
            && (forall s :: s != symbol ==> P.Held(dealt.value.book.holdings, s) == P.Held(a.book.holdings, s))
            && if asked == 0.0 then dealt.value.book == a.book
               else if (sig.side == BuySide) == (asked > 0.0) then
                 Buys(a.book, symbol, size, price, fee, dealt.value.book)
               else Sells(a.book, symbol, size, price, fee, dealt.value.book)
  {
    if sig.side == Hold {
      return;
    }
    var price := FillPrice(fill, bars, i, sig.side);
    AskedIsSized(sig, price, equity, asked);
    var size := P.Abs(asked);
    var fee := Fee(cost, size, price);
    var o := Placed(cost, fill, symbol, sig, i, bars, equity).value;
    if asked != 0.0 {
      OrderBuys(a.book, symbol, size, price, fee);
      OrderSells(a.book, symbol, size, price, fee);
    }
    forall s | s != symbol
      ensures P.Held(P.Executed(a.book, false, o).holdings, s) == P.Held(a.book.holdings, s)
    {
      P.PositionsAfter(a.book, false, o, s);
    }
  }

  lemma AskedIsSized(sig: Signal, price: real, equity: real, asked: real)
    requires sig.side != Hold && Asks(sig, price, equity, asked)
    ensures Sized(sig, price, equity) == Some(if sig.side == BuySide then asked else -asked)
  {
    if sig.quantity == None {
      var qty := P.Average(Times(equity, sig.strength), price);
      QuotientTimes(Times(equity, sig.strength), price);
      TimesTells(asked, qty, price);
    }
  }

  // ---------------------------------------------------------------- the log against the fills

  /** The money that left the account. */
  function Spent(before: Account, after: Account): real {
    before.book.cash - after.book.cash
  }

  /** What the trade would have cost at its logged quantity, price and fee. */
  function Stated(trade: Trade, bought: bool): real {
    (if bought then Times(trade.quantity, trade.price) else -Times(trade.quantity, trade.price)) + trade.cost
  }

  /** In a long-only account the logged quantity is what was filled exactly when the account could
      fill the whole order: the cash pays for a buy with its fee, or as much as is sold is held. */
  lemma LogTellsFillIff(a: Account, cost: CostModel, fill: FillModel, symbol: string, sig: Signal, i: nat,
                        bars: seq<Bar>, equity: real)
    requires P.LongOnly(a.book) && i < |bars| && sig.side != Hold
    requires Placed(cost, fill, symbol, sig, i, bars, equity).Some?
    ensures var o := Placed(cost, fill, symbol, sig, i, bars, equity).value;
            var dealt := Dealt(a, false, cost, fill, symbol, sig, i, bars, equity);
            && dealt.Some? && |dealt.value.trades| == |a.trades| + 1
            && var trade := dealt.value.trades[|a.trades|];
               trade.quantity == P.Fill(a.book, false, o) <==>
                 if o.Buy? then Times(trade.quantity, trade.price) + trade.cost <= a.book.cash
                 else trade.quantity <= P.Held(a.book.holdings, symbol).quantity
  {
    var o := Placed(cost, fill, symbol, sig, i, bars, equity).value;
    if o.Buy? {
      P.BuyFillsIff(a.book, o);
    } else {
      P.SaleFillsIff(a.book, o);
    }
  }

  /** When something is filled at a positive price, the money that moved is what the logged trade
      states exactly when the logged quantity was filled. */
  lemma LogTellsCashIff(a: Account, cost: CostModel, fill: FillModel, symbol: string, sig: Signal, i: nat,
                        bars: seq<Bar>, equity: real)
    requires P.LongOnly(a.book) && i < |bars| && sig.side != Hold
    requires Placed(cost, fill, symbol, sig, i, bars, equity).Some?
    requires var o := Placed(cost, fill, symbol, sig, i, bars, equity).value;
             o.price > 0.0 && P.Fill(a.book, false, o) > 0.0
    ensures var o := Placed(cost, fill, symbol, sig, i, bars, equity).value;
            var dealt := Dealt(a, false, cost, fill, symbol, sig, i, bars, equity).value;
            var trade := dealt.trades[|a.trades|];
            Spent(a, dealt) == Stated(trade, o.Buy?) <==> trade.quantity == P.Fill(a.book, false, o)
  {
    var o := Placed(cost, fill, symbol, sig, i, bars, equity).value;
    P.ExecutedFill(a.book, o);
    Cancel(o.quantity, P.Fill(a.book, false, o), o.price);
  }

  /** The fee before floor and cap. */
  function Proportional(cost: CostModel, q: real, price: real): real {
    Times(Times(q, price), cost.feeRate)
  }

  /** Floor and cap make one fee of both: neither exceeds the floor, neither is below the cap, or
      the cap is not above the floor. */
  predicate SameClamp(cost: CostModel, fee: real, fee': real) {
    || (fee <= cost.minFee && fee' <= cost.minFee)
    || match cost.maxFee
       case None => false
       case Some(cap) => cap <= cost.minFee || (fee >= cap && fee' >= cap)
  }

  /** The fee is that of the order, not of the fill: at a positive price the two agree exactly when
      the order fills in full, nothing is charged in proportion, or floor and cap level them. */
  lemma FeeTellsFillIff(cost: CostModel, asked: real, filled: real, price: real)
    requires cost.feeRate >= 0.0 && price > 0.0 && asked >= 0.0 && filled >= 0.0
    ensures Fee(cost, asked, price) == Fee(cost, filled, price) <==>
      || asked == filled || cost.feeRate == 0.0
      || SameClamp(cost, Proportional(cost, asked, price), Proportional(cost, filled, price))
  {
    FeeIsClamped(cost, asked, price);
    FeeIsClamped(cost, filled, price);
    if cost.feeRate > 0.0 {
      Cancel(asked, filled, price);
      Cancel(Times(asked, price), Times(filled, price), cost.feeRate);
    }
  }

  lemma FeeIsClamped(cost: CostModel, q: real, price: real)
    requires price > 0.0 && q >= 0.0
    ensures Fee(cost, q, price) == Max(cost.minFee, match cost.maxFee case None => Proportional(cost, q, price)
                                                    case Some(cap) => Min(Proportional(cost, q, price), cap))
  {
    KeepOrder(0.0, q, price);
  }

  /** A buy of ten units at a hundred with a hundred in cash: ten units and their fee of ten are
      logged, nine tenths of a unit is filled, and the fee of ten is charged for it. */
  lemma LogOverstates()
    ensures var a, bars := Account(P.Book(100.0, []), []), [Bar(100.0, 100.0, 100.0, 100.0)];
            var cost, sig := CostModel(0.01, 0.0, None), Signal(BuySide, Some(10.0), 1.0);
            var dealt := Dealt(a, false, cost, FillModel("close", 0.0), "X", sig, 0, bars, 100.0);
            && dealt.Some? && dealt.value.trades == [Trade(BuySide, 10.0, 100.0, 10.0)]
            && P.Held(dealt.value.book.holdings, "X").quantity == 0.9
            && Fee(cost, 0.9, 100.0) == 0.9 && dealt.value.book.cash == 0.0
  {
    var a, bars := Account(P.Book(100.0, []), []), [Bar(100.0, 100.0, 100.0, 100.0)];
    var cost, sig := CostModel(0.01, 0.0, None), Signal(BuySide, Some(10.0), 1.0);
    assert Placed(cost, FillModel("close", 0.0), "X", sig, 0, bars, 100.0) == Some(P.Buy("X", 10.0, 100.0, 10.0));
    assert P.Held(a.book.holdings, "X") == P.Holding("X", 0.0, 0.0, 0.0);
    NineTenthsFilled(a.book);
  }

  lemma NineTenthsFilled(book: P.Book)
    requires book.cash == 100.0 && P.Held(book.holdings, "X").quantity == 0.0
    ensures P.Fill(book, false, P.Buy("X", 10.0, 100.0, 10.0)) == 0.9
  {
    assert Times(10.0, 100.0) == 1000.0;
    assert P.Average(90.0, 100.0) == 0.9;
  }

  /** The fee is never below the floor, above the cap only at the floor, above the share of the money
      traded only at the floor and below it only at the cap or, with a cap below it, at the floor. */
  lemma FeeBounds(m: CostModel, quantity: real, price: real)
    ensures var fee := Fee(m, quantity, price);
            var traded := if Times(quantity, price) < 0.0 then -Times(quantity, price) else Times(quantity, price);
            && fee >= m.minFee
            && (m.maxFee.Some? && fee > m.maxFee.value ==> fee == m.minFee)
            && (fee > Times(traded, m.feeRate) ==> fee == m.minFee)
            && (fee < Times(traded, m.feeRate) ==>
                 m.maxFee.Some? && (fee == m.maxFee.value || fee == m.minFee >= m.maxFee.value))
            && (m.feeRate >= 0.0 && m.minFee == 0.0 ==> 0.0 <= fee <= Times(traded, m.feeRate))
  {
  }

  class Broker {
    const portfolio: P.Portfolio
    const cost: CostModel
    const fill: FillModel
    var trades: seq<Trade>

    constructor (portfolio: P.Portfolio, cost: CostModel, fill: FillModel)
      ensures this.portfolio == portfolio && this.cost == cost && this.fill == fill && trades == []
    {
      this.portfolio, this.cost, this.fill := portfolio, cost, fill;
      trades := [];
    }

    ghost function View(): Account
      reads this, portfolio, portfolio.positions
    {
      Account(portfolio.View(), trades)
    }

    /** Executes a signal; false means that sizing divided by zero. */
    method ExecuteSignal(sig: Signal, symbol: string, i: nat, bars: seq<Bar>, equity: real) returns (ok: bool)
      requires portfolio.Valid() && i < |bars|
      modifies this, portfolio, portfolio.positions
      ensures portfolio.Valid()
      ensures forall p :: p in portfolio.positions ==> p in old(portfolio.positions) || fresh(p)
      ensures var dealt := Dealt(old(View()), portfolio.allowShort, cost, fill, symbol, sig, i, bars, equity);
              ok == dealt.Some? && View() == if ok then dealt.value else old(View())
    {
      if sig.side == Hold {
        return true;
      }
      var price := FillPrice(fill, bars, i, sig.side);
      var sized := Sized(sig, price, equity);
      if sized == None {
        return false;
      }
      var qty := sized.value;
      var fee := Fee(cost, P.Abs(qty), price);
      if qty > 0.0 {
        portfolio.ExecuteBuy(symbol, P.Abs(qty), price, fee);
      } else {
        portfolio.ExecuteSell(symbol, P.Abs(qty), price, fee);
      }
      trades := trades + [Trade(sig.side, P.Abs(qty), price, fee)];
      return true;
    }

    method Reset()
      modifies this, portfolio
      ensures trades == [] && portfolio.Valid() && portfolio.positions == []
      ensures portfolio.View() == P.Book(portfolio.initialCash, [])
    {
      trades := [];
      portfolio.Reset();
    }
  }
}
