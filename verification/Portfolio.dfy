// Positions, cash and total value of a backtest portfolio, and the exact
// profit-and-loss identity of long-only runs.
module Portfolio {
  import opened Reals

  /** Quantities below this count as flat when an update lands near zero. */
  const FLAT := 0.0000000001

  function Abs(x: real): real { if x < 0.0 then -x else x }

  datatype Holding = Holding(symbol: string, quantity: real, avgPrice: real, realized: real)

  datatype Book = Book(cash: real, holdings: seq<Holding>)

  datatype Order =
    | Buy(symbol: string, quantity: real, price: real, cost: real)
    | Sell(symbol: string, quantity: real, price: real, cost: real)

  // ---------------------------------------------------------------- one position

  function Average(total: real, quantity: real): real {
    if quantity != 0.0 then total / quantity else 0.0
  }

  function AvgAfter(h: Holding, quantity: real, price: real): real {
    var newQty := h.quantity + quantity;
    if newQty * h.quantity > 0.0 then Average(Times(h.quantity, h.avgPrice) + Times(quantity, price), newQty)
    else if newQty == 0.0 || Abs(newQty) < FLAT then 0.0
    else price
  }

  function Updated(h: Holding, quantity: real, price: real, cost: real): Holding {
    var closes := h.quantity + quantity <= 0.0 && h.quantity > 0.0;
    Holding(h.symbol,
            h.quantity + quantity,
            AvgAfter(h, quantity, price),
            if closes then h.realized + (Unrealized(h, price) - cost) else h.realized)
  }

  /** Cost basis carried by a position. */
  function Basis(h: Holding): real { Times(h.quantity, h.avgPrice) }

  function Unrealized(h: Holding, price: real): real { (price - h.avgPrice) * h.quantity }

  /** Money paid for an opening buy so small that it is booked at average price zero. */
  function Dust(h: Holding, quantity: real, price: real): real {
    if h.quantity == 0.0 && quantity < FLAT then Times(quantity, price) else 0.0
  }

  lemma NonZero(a: real, b: real)
    requires a * b > 0.0
    ensures a != 0.0
  {
  }

  /** What a trade does to a position, long or short, bought or sold: it realizes profit only when it
      ends a long position, the basis moves by the money traded while the position stays on its
      side, a flat position has none, and a reversed one starts at the price. */
  lemma TradeMovesBasis(h: Holding, traded: real, price: real, cost: real)
    ensures var h' := Updated(h, traded, price, cost);
            && h'.symbol == h.symbol && h'.quantity == h.quantity + traded
            && h'.realized == h.realized +
                 (if h.quantity > 0.0 && h'.quantity <= 0.0 then Times(h.quantity, price) - Basis(h) - cost else 0.0)
            && if (h.quantity > 0.0 && h'.quantity > 0.0) || (h.quantity < 0.0 && h'.quantity < 0.0)
               then Basis(h') == Basis(h) + Times(traded, price)
               else h'.avgPrice == if -0.0000000001 < h'.quantity < 0.0000000001 then 0.0 else price
  {
    var newQty := h.quantity + traded;
    SignOfProduct(newQty, h.quantity);
    if newQty * h.quantity > 0.0 {
      QuotientTimes(Basis(h) + Times(traded, price), newQty);
    }
    assert Unrealized(h, price) == Times(h.quantity, price) - Basis(h);
  }

  lemma SignOfProduct(a: real, b: real)
    ensures a * b > 0.0 <==> (a > 0.0 && b > 0.0) || (a < 0.0 && b < 0.0)
  {
  }

  lemma BuyMovesBasis(h: Holding, quantity: real, price: real, cost: real)
    requires h.quantity >= 0.0 && quantity > 0.0
    ensures Basis(Updated(h, quantity, price, cost)) == Basis(h) + Times(quantity, price) - Dust(h, quantity, price)
    ensures Updated(h, quantity, price, cost).realized == h.realized
  {
    TradeMovesBasis(h, quantity, price, cost);
  }

  lemma SellMovesBasis(h: Holding, quantity: real, price: real, cost: real)
    requires 0.0 < quantity <= h.quantity
    ensures var h' := Updated(h, -quantity, price, cost);
            Basis(h') - h'.realized ==
              Basis(h) - h.realized - Times(quantity, price) + (if quantity == h.quantity then cost else 0.0)
  {
    TradeMovesBasis(h, -quantity, price, cost);
  }

  // ---------------------------------------------------------------- the book

  function Place(holdings: seq<Holding>, symbol: string): (i: nat)
    ensures i <= |holdings|
    ensures i < |holdings| ==> holdings[i].symbol == symbol
    ensures forall j :: 0 <= j < i ==> holdings[j].symbol != symbol
  {
    if holdings == [] || holdings[0].symbol == symbol then 0 else 1 + Place(holdings[1..], symbol)
  }

  /** The holdings with an entry for symbol, created flat if need be. */
  function Opened(holdings: seq<Holding>, symbol: string): (r: seq<Holding>)
    ensures Place(holdings, symbol) < |r| && r[Place(holdings, symbol)].symbol == symbol
  {
    if Place(holdings, symbol) < |holdings| then holdings else holdings + [Holding(symbol, 0.0, 0.0, 0.0)]
  }

  function Held(holdings: seq<Holding>, symbol: string): Holding {
    Opened(holdings, symbol)[Place(holdings, symbol)]
  }

  function Replaced(holdings: seq<Holding>, symbol: string, h: Holding): seq<Holding> {
    Opened(holdings, symbol)[Place(holdings, symbol) := h]
  }

  lemma {:induction false} PlaceIs(holdings: seq<Holding>, symbol: string, i: nat)
    requires i <= |holdings| && (i < |holdings| ==> holdings[i].symbol == symbol)
    requires forall j :: 0 <= j < i ==> holdings[j].symbol != symbol
    ensures Place(holdings, symbol) == i
  {
    if i > 0 {
      PlaceIs(holdings[1..], symbol, i - 1);
    }
  }

  /** Replacing the position in one symbol leaves those in all others. */
  lemma HeldReplaced(holdings: seq<Holding>, symbol: string, h: Holding, other: string)
    requires h.symbol == symbol
    ensures Held(Replaced(holdings, symbol, h), other) == if other == symbol then h else Held(holdings, other)
    ensures Held(Opened(holdings, symbol), other) == Held(holdings, other)
  {
    var r, entries, i := Replaced(holdings, symbol, h), Opened(holdings, symbol), Place(holdings, other);
    if i < |holdings| || other == symbol {
      PlaceIs(r, other, i);
      PlaceIs(entries, other, i);
    } else {
      PlaceIs(r, other, |r|);
      PlaceIs(entries, other, |entries|);
    }
  }

  function BuyQuantity(cash: real, held: real, allowShort: bool, quantity: real, price: real, cost: real): real {
    var q := if !allowShort && held < 0.0 then Min(quantity, -held) else quantity;
    if held >= 0.0 && Times(q, price) + cost > cash then
      var affordable := if price > 0.0 then Average(cash - cost, price) else 0.0;
      if affordable <= 0.0 then 0.0 else affordable
    else q
  }

  /** The quantity a buy really fills; 0 if it is not executed. */
  function BuyFill(book: Book, allowShort: bool, o: Order): real
    requires o.Buy?
  {
    if o.quantity <= 0.0 then 0.0
    else BuyQuantity(book.cash, Held(book.holdings, o.symbol).quantity, allowShort, o.quantity, o.price, o.cost)
  }

  function SellFill(book: Book, allowShort: bool, o: Order): real
    requires o.Sell?
  {
    var held := Held(book.holdings, o.symbol).quantity;
    if o.quantity <= 0.0 then 0.0
    else if !allowShort && held >= 0.0 then Min(o.quantity, held)
    else o.quantity
  }

  function Fill(book: Book, allowShort: bool, o: Order): real {
    if o.Buy? then BuyFill(book, allowShort, o) else SellFill(book, allowShort, o)
  }

  function Executed(book: Book, allowShort: bool, o: Order): Book {
    var q := Fill(book, allowShort, o);
    var h := Held(book.holdings, o.symbol);
    if o.quantity <= 0.0 then book
    else if q <= 0.0 then Book(book.cash, Opened(book.holdings, o.symbol))
    else if o.Buy? then
      Book(if h.quantity >= 0.0
           then book.cash - (Times(q, o.price) + o.cost)
           else book.cash + (Times(q, o.price) - o.cost),
           Replaced(book.holdings, o.symbol, Updated(h, q, o.price, o.cost)))
    else
      Book(if h.quantity > 0.0
           then book.cash + (Times(q, o.price) - o.cost)
           else book.cash - (Times(q, o.price) + o.cost),
           Replaced(book.holdings, o.symbol, Updated(h, -q, o.price, o.cost)))
  }

  function Run(book: Book, allowShort: bool, orders: seq<Order>): Book
    decreases orders
  {
    if orders == [] then book else Run(Executed(book, allowShort, orders[0]), allowShort, orders[1..])
  }

  function TotalValue(book: Book, prices: map<string, real>): real {
    book.cash + MarketValue(book.holdings, prices)
  }

  function MarketValue(holdings: seq<Holding>, prices: map<string, real>): real {
    if holdings == [] then 0.0
    else
      var h := holdings[|holdings| - 1];
      MarketValue(holdings[..|holdings| - 1], prices) +
      if h.symbol in prices then Times(h.quantity, prices[h.symbol]) else 0.0
  }

  /** The positions in symbols that have a price. */
  function Priced(holdings: seq<Holding>, prices: map<string, real>): (r: seq<Holding>)
    ensures forall h :: h in r ==> h.symbol in prices
  {
    if holdings == [] then []
    else
      var front, h := Priced(holdings[..|holdings| - 1], prices), holdings[|holdings| - 1];
      if h.symbol in prices then front + [h] else front
  }

  /** Positions in symbols without a price count nothing. */
  lemma {:induction false} OnlyPricedCount(cash: real, holdings: seq<Holding>, prices: map<string, real>)
    ensures TotalValue(Book(cash, holdings), prices) == TotalValue(Book(cash, Priced(holdings, prices)), prices)
  {
    if holdings != [] {
      var front, h := Priced(holdings[..|holdings| - 1], prices), holdings[|holdings| - 1];
      OnlyPricedCount(cash, holdings[..|holdings| - 1], prices);
      assert (front + [h])[..|front|] == front;
    }
  }

  // ---------------------------------------------------------------- the ledger of executed fills

  predicate LongOnly(book: Book) {
    forall i :: 0 <= i < |book.holdings| ==> book.holdings[i].quantity >= 0.0
  }

  /** Realized profit less cost basis, over all positions. */
  function Settled(holdings: seq<Holding>): real {
    if holdings == [] then 0.0
    else
      var h := holdings[|holdings| - 1];
      Settled(holdings[..|holdings| - 1]) + (h.realized - Basis(h))
  }

  /** The fee of an executed fill that does not close its position. */
  function OpenFee(book: Book, o: Order): real {
    var q := Fill(book, false, o);
    if q <= 0.0 || (o.Sell? && q == Held(book.holdings, o.symbol).quantity) then 0.0 else o.cost
  }

  function DustOf(book: Book, o: Order): real {
    var q := Fill(book, false, o);
    if o.Buy? && q > 0.0 then Dust(Held(book.holdings, o.symbol), q, o.price) else 0.0
  }

  function OpenFees(book: Book, orders: seq<Order>): real
    decreases orders
  {
    if orders == [] then 0.0 else OpenFee(book, orders[0]) + OpenFees(Executed(book, false, orders[0]), orders[1..])
  }

  function DustTotal(book: Book, orders: seq<Order>): real
    decreases orders
  {
    if orders == [] then 0.0 else DustOf(book, orders[0]) + DustTotal(Executed(book, false, orders[0]), orders[1..])
  }

  lemma {:induction false} SettledReplaced(holdings: seq<Holding>, i: nat, h: Holding)
    requires i < |holdings|
    ensures Settled(holdings[i := h]) ==
      Settled(holdings) - (holdings[i].realized - Basis(holdings[i])) + (h.realized - Basis(h))
  {
    var last := |holdings| - 1;
    if i < last {
      SettledReplaced(holdings[..last], i, h);
      assert holdings[i := h][..last] == holdings[..last][i := h];
    } else {
      assert holdings[i := h][..last] == holdings[..last];
    }
  }

  lemma SettledOpened(holdings: seq<Holding>, symbol: string)
    ensures Settled(Opened(holdings, symbol)) == Settled(holdings)
  {
    if Place(holdings, symbol) == |holdings| {
      SettledAppended(holdings, Holding(symbol, 0.0, 0.0, 0.0));
    }
  }

  lemma SettledAppended(holdings: seq<Holding>, h: Holding)
    ensures Settled(holdings + [h]) == Settled(holdings) + (h.realized - Basis(h))
  {
    var r := holdings + [h];
    assert r[|r| - 1] == h && r[..|r| - 1] == holdings;
  }

  lemma HeldLong(book: Book, symbol: string)
    requires LongOnly(book)
    ensures Held(book.holdings, symbol).quantity >= 0.0
  {
  }

  lemma AffordableSpend(cash: real, cost: real, price: real)
    requires price > 0.0
    ensures (cash - cost) / price * price + cost == cash
  {
    QuotientTimes(cash - cost, price);
  }

  lemma StaysLong(book: Book, o: Order)
    requires LongOnly(book)
    ensures LongOnly(Executed(book, false, o))
  {
    HeldLong(book, o.symbol);
  }

  /** What a step does to cash and to the position, in the cases that execute. */
  lemma ExecutedFill(book: Book, o: Order)
    requires LongOnly(book) && Fill(book, false, o) > 0.0
    ensures var q := Fill(book, false, o); var h := Held(book.holdings, o.symbol); var b := Executed(book, false, o);
            && h.quantity >= 0.0
            && (o.Sell? ==> q <= h.quantity)
            && b.cash == (if o.Buy? then book.cash - (Times(q, o.price) + o.cost)
                          else book.cash + (Times(q, o.price) - o.cost))
            && b.holdings == Replaced(book.holdings, o.symbol, Updated(h, if o.Buy? then q else -q, o.price, o.cost))
  {
    HeldLong(book, o.symbol);
  }

  lemma SettledReplacing(holdings: seq<Holding>, symbol: string, h: Holding)
    ensures var before := Held(holdings, symbol);
            Settled(Replaced(holdings, symbol, h)) ==
              Settled(holdings) - (before.realized - Basis(before)) + (h.realized - Basis(h))
  {
    SettledOpened(holdings, symbol);
    SettledReplaced(Opened(holdings, symbol), Place(holdings, symbol), h);
  }

  /** The cash of a book less what its holdings settle to. */
  function Unsettled(book: Book): real {
    book.cash - Settled(book.holdings)
  }

  lemma BuyStep(book: Book, o: Order)
    requires LongOnly(book) && o.Buy? && Fill(book, false, o) > 0.0
    ensures Unsettled(Executed(book, false, o)) == Unsettled(book) - OpenFee(book, o) - DustOf(book, o)
  {
    var q, h := Fill(book, false, o), Held(book.holdings, o.symbol);
    ExecutedFill(book, o);
    SettledReplacing(book.holdings, o.symbol, Updated(h, q, o.price, o.cost));
    BuyMovesBasis(h, q, o.price, o.cost);
  }

  lemma SellStep(book: Book, o: Order)
    requires LongOnly(book) && o.Sell? && Fill(book, false, o) > 0.0
    ensures Unsettled(Executed(book, false, o)) == Unsettled(book) - OpenFee(book, o) - DustOf(book, o)
  {
    var q, h := Fill(book, false, o), Held(book.holdings, o.symbol);
    ExecutedFill(book, o);
    SettledReplacing(book.holdings, o.symbol, Updated(h, -q, o.price, o.cost));
    SellMovesBasis(h, q, o.price, o.cost);
  }

  lemma FillStep(book: Book, o: Order)
    requires LongOnly(book)
    ensures Unsettled(Executed(book, false, o)) == Unsettled(book) - OpenFee(book, o) - DustOf(book, o)
  {
    if Fill(book, false, o) <= 0.0 {
      SettledOpened(book.holdings, o.symbol);
    } else if o.Buy? {
      BuyStep(book, o);
    } else {
      SellStep(book, o);
    }
  }

  /** In every long-only run: cash = initial cash + realized profit - cost basis - fees of
      fills that closed nothing - money sunk in dust. */
  lemma {:induction false} ProfitAndLoss(book: Book, orders: seq<Order>)
    requires LongOnly(book)
    ensures LongOnly(Run(book, false, orders))
    ensures var b := Run(book, false, orders);
            b.cash - Settled(b.holdings) ==
              book.cash - Settled(book.holdings) - OpenFees(book, orders) - DustTotal(book, orders)
    decreases orders
  {
    if orders != [] {
      StaysLong(book, orders[0]);
      FillStep(book, orders[0]);
      ProfitAndLoss(Executed(book, false, orders[0]), orders[1..]);
    }
  }

  function Profit(holdings: seq<Holding>, prices: map<string, real>): real {
    if holdings == [] then 0.0
    else
      var h := holdings[|holdings| - 1];
      Profit(holdings[..|holdings| - 1], prices) + h.realized +
      if h.symbol in prices then Unrealized(h, prices[h.symbol]) else 0.0
  }

  predicate AllPriced(holdings: seq<Holding>, prices: map<string, real>) {
    forall i :: 0 <= i < |holdings| ==> holdings[i].symbol in prices || holdings[i].quantity == 0.0
  }

  lemma {:induction false} ValueIsProfit(holdings: seq<Holding>, prices: map<string, real>)
    requires AllPriced(holdings, prices)
    ensures MarketValue(holdings, prices) + Settled(holdings) == Profit(holdings, prices)
  {
    if holdings != [] {
      ValueIsProfit(holdings[..|holdings| - 1], prices);
      var h := holdings[|holdings| - 1];
      if h.symbol in prices {
        assert Unrealized(h, prices[h.symbol]) == Times(h.quantity, prices[h.symbol]) - Basis(h);
      }
    }
  }

  /** With every held symbol priced, equity = initial cash + realized and unrealized profit
      - fees of fills that closed nothing - dust. The promised identity, without the last
      term, holds exactly when the dust is zero. */
  lemma EquityIdentity(initialCash: real, orders: seq<Order>, prices: map<string, real>)
    requires AllPriced(Run(Book(initialCash, []), false, orders).holdings, prices)
    ensures var start := Book(initialCash, []);
            var b := Run(start, false, orders);
            TotalValue(b, prices) ==
              initialCash + Profit(b.holdings, prices) - OpenFees(start, orders) - DustTotal(start, orders)
  {
    ProfitAndLoss(Book(initialCash, []), orders);
    ValueIsProfit(Run(Book(initialCash, []), false, orders).holdings, prices);
  }

  /** A single affordable opening buy below the flat threshold shows the dust term is real. */
  lemma DustExample()
    ensures var start := Book(100.0, []);
            var o := Buy("X", 0.00000000001, 100.0, 0.0);
            var b := Executed(start, false, o);
            b.cash == 100.0 - 0.000000001 && Settled(b.holdings) == 0.0
  {
    var start := Book(100.0, []);
    var o := Buy("X", 0.00000000001, 100.0, 0.0);
    var h := Holding("X", 0.0, 0.0, 0.0);
    assert Held(start.holdings, "X") == h;
    assert Fill(start, false, o) == 0.00000000001;
    var b := Executed(start, false, o);
    assert b.holdings == [Updated(h, 0.00000000001, 100.0, 0.0)];
    assert b.holdings[..0] == [];
  }

  // ---------------------------------------------------------------- full and partial fills

  /** What an order fills of the quantity asked for. A buy that the cash does not pay for spends all
      of it or nothing; one that covers a short position ignores the cash and stops at flat unless
      short selling is allowed, as does a sale of a long position. */
  lemma FillIs(book: Book, allowShort: bool, o: Order)
    requires o.quantity > 0.0
    ensures var filled, held := Fill(book, allowShort, o), Held(book.holdings, o.symbol).quantity;
            if o.Sell? then filled == if allowShort || held < 0.0 then o.quantity else Min(o.quantity, held)
            else if held < 0.0 then filled == if allowShort then o.quantity else Min(o.quantity, -held)
            else if Times(o.quantity, o.price) + o.cost <= book.cash then filled == o.quantity
            else if o.price > 0.0 && o.cost < book.cash
              then 0.0 < filled < o.quantity && Times(filled, o.price) + o.cost == book.cash
            else filled == 0.0
  {
    if o.Buy? && o.price > 0.0 {
      var affordable := Average(book.cash - o.cost, o.price);
      QuotientTimes(book.cash - o.cost, o.price);
      assert Times(affordable, o.price) == book.cash - o.cost;
      SignOf(affordable, o.price);
      if affordable >= o.quantity {
        KeepOrder(o.quantity, affordable, o.price);
      }
    }
  }

  /** An order moves the position in its symbol by what it fills, and no other. */
  lemma PositionsAfter(book: Book, allowShort: bool, o: Order, symbol: string)
    ensures var q, h := Fill(book, allowShort, o), Held(book.holdings, symbol);
            Held(Executed(book, allowShort, o).holdings, symbol) ==
              if symbol != o.symbol || o.quantity <= 0.0 || q <= 0.0 then h
              else Updated(h, if o.Buy? then q else -q, o.price, o.cost)
  {
    var q, h := Fill(book, allowShort, o), Held(book.holdings, o.symbol);
    HeldReplaced(book.holdings, o.symbol, Updated(h, if o.Buy? then q else -q, o.price, o.cost), symbol);
  }

  /** A buy fills in full exactly when the cash pays for it and its fee. */
  lemma BuyFillsIff(book: Book, o: Order)
    requires LongOnly(book) && o.Buy? && o.quantity > 0.0
    ensures Fill(book, false, o) == o.quantity <==> Times(o.quantity, o.price) + o.cost <= book.cash
  {
    HeldLong(book, o.symbol);
    FillIs(book, false, o);
  }

  /** A sale fills in full exactly when as much is held. */
  lemma SaleFillsIff(book: Book, o: Order)
    requires LongOnly(book) && o.Sell? && o.quantity >= 0.0
    ensures Fill(book, false, o) == o.quantity <==> o.quantity <= Held(book.holdings, o.symbol).quantity
  {
    HeldLong(book, o.symbol);
  }

  /** Something is filled exactly when something is asked for and a buy can pay for some of it, or
      a sale finds some of it held. */
  lemma FillsSomeIff(book: Book, o: Order)
    requires LongOnly(book)
    ensures Fill(book, false, o) > 0.0 <==>
      && o.quantity > 0.0
      && if o.Buy? then Times(o.quantity, o.price) + o.cost <= book.cash || (o.price > 0.0 && o.cost < book.cash)
         else Held(book.holdings, o.symbol).quantity > 0.0
  {
    HeldLong(book, o.symbol);
    if o.quantity > 0.0 {
      FillIs(book, false, o);
    }
  }

  lemma SignOf(a: real, b: real)
    requires b > 0.0
    ensures Times(a, b) > 0.0 <==> a > 0.0
  {
  }

  // ---------------------------------------------------------------- marking at the fill price

  lemma {:induction false} MarketReplaced(holdings: seq<Holding>, i: nat, h: Holding, prices: map<string, real>)
    requires i < |holdings| && h.symbol == holdings[i].symbol && h.symbol in prices
    ensures MarketValue(holdings[i := h], prices) ==
      MarketValue(holdings, prices) +
        (Times(h.quantity, prices[h.symbol]) - Times(holdings[i].quantity, prices[h.symbol]))
  {
    var last := |holdings| - 1;
    if i < last {
      MarketReplaced(holdings[..last], i, h, prices);
      assert holdings[i := h][..last] == holdings[..last][i := h];
    } else {
      assert holdings[i := h][..last] == holdings[..last];
    }
  }

  /** What a fill is worth twice over when money moves the wrong way: covering a short position
      brings money in, and selling what is not held takes it out. */
  function Windfall(book: Book, allowShort: bool, o: Order): real {
    var q, held := Fill(book, allowShort, o), Held(book.holdings, o.symbol).quantity;
    if q <= 0.0 then 0.0
    else if o.Buy? && held < 0.0 then 2.0 * Times(q, o.price)
    else if o.Sell? && held <= 0.0 then -2.0 * Times(q, o.price)
    else 0.0
  }

  lemma OpenedValue(holdings: seq<Holding>, symbol: string, prices: map<string, real>)
    ensures MarketValue(Opened(holdings, symbol), prices) == MarketValue(holdings, prices)
  {
    var entries := Opened(holdings, symbol);
    if entries != holdings {
      assert entries[..|entries| - 1] == holdings;
    }
  }

  lemma ReplacedValue(holdings: seq<Holding>, symbol: string, h: Holding, prices: map<string, real>)
    requires h.symbol == symbol && symbol in prices
    ensures MarketValue(Replaced(holdings, symbol, h), prices) ==
      MarketValue(holdings, prices) +
        (Times(h.quantity, prices[symbol]) - Times(Held(holdings, symbol).quantity, prices[symbol]))
  {
    OpenedValue(holdings, symbol, prices);
    MarketReplaced(Opened(holdings, symbol), Place(holdings, symbol), h, prices);
  }

  /** The money that a fill moves. */
  function Moved(book: Book, o: Order, q: real): real {
    var held, traded := Held(book.holdings, o.symbol).quantity, Times(q, o.price);
    if o.Buy? then (if held >= 0.0 then -traded else traded) else if held > 0.0 then traded else -traded
  }

  lemma Filled(book: Book, allowShort: bool, o: Order, q: real)
    requires q == Fill(book, allowShort, o) > 0.0
    ensures var b, h := Executed(book, allowShort, o), Held(book.holdings, o.symbol);
            && b.cash == book.cash + Moved(book, o, q) - o.cost
            && b.holdings == Replaced(book.holdings, o.symbol, Updated(h, if o.Buy? then q else -q, o.price, o.cost))
  {
  }

  lemma Unfilled(book: Book, allowShort: bool, o: Order)
    requires Fill(book, allowShort, o) <= 0.0
    ensures var b := Executed(book, allowShort, o);
            b.cash == book.cash && (b.holdings == book.holdings || b.holdings == Opened(book.holdings, o.symbol))
  {
  }

  lemma WindfallIs(book: Book, allowShort: bool, o: Order, q: real)
    requires q == Fill(book, allowShort, o) > 0.0
    ensures Windfall(book, allowShort, o) ==
      Moved(book, o, q) + if o.Buy? then Times(q, o.price) else -Times(q, o.price)
  {
  }

  lemma FilledValue(holdings: seq<Holding>, o: Order, q: real, prices: map<string, real>)
    requires o.symbol in prices && prices[o.symbol] == o.price
    ensures var h' := Updated(Held(holdings, o.symbol), if o.Buy? then q else -q, o.price, o.cost);
            MarketValue(Replaced(holdings, o.symbol, h'), prices) ==
              MarketValue(holdings, prices) + if o.Buy? then Times(q, o.price) else -Times(q, o.price)
  {
    var h := Held(holdings, o.symbol);
    ReplacedValue(holdings, o.symbol, Updated(h, if o.Buy? then q else -q, o.price, o.cost), prices);
    ProductAdds(h.quantity, q, o.price);
  }

  /** Marked at the fill price, an executed fill costs exactly its fee, whatever was clipped, when it
      starts from a long position or buys from a flat one; on the short side it is off by twice
      the money traded. */
  lemma FillCostsItsFee(book: Book, allowShort: bool, o: Order, prices: map<string, real>)
    requires o.symbol in prices && prices[o.symbol] == o.price
    ensures TotalValue(Executed(book, allowShort, o), prices) ==
      TotalValue(book, prices) - (if Fill(book, allowShort, o) > 0.0 then o.cost else 0.0) +
        Windfall(book, allowShort, o)
  {
    var q := Fill(book, allowShort, o);
    if q > 0.0 {
      Filled(book, allowShort, o, q);
      FilledValue(book.holdings, o, q, prices);
      WindfallIs(book, allowShort, o, q);
    } else {
      Unfilled(book, allowShort, o);
      OpenedValue(book.holdings, o.symbol, prices);
    }
  }

  lemma ProductAdds(a: real, b: real, price: real)
    ensures Times(a + b, price) == Times(a, price) + Times(b, price)
    ensures Times(a + -b, price) == Times(a, price) - Times(b, price)
  {
  }

  // ---------------------------------------------------------------- the classes

  class Position {
    const symbol: string
    var quantity: real
    var avgPrice: real
    var realized: real

    constructor (symbol: string)
      ensures View() == Holding(symbol, 0.0, 0.0, 0.0)
    {
      this.symbol := symbol;
      quantity, avgPrice, realized := 0.0, 0.0, 0.0;
    }

    function View(): (h: Holding)
      reads this
      ensures h.symbol == symbol
    {
      Holding(symbol, quantity, avgPrice, realized)
    }

    method UpdateOnBuy(q: real, price: real, cost: real)
      modifies this
      ensures View() == Updated(old(View()), q, price, cost)
    {
      if quantity + q <= 0.0 && quantity > 0.0 {
        realized := realized + (Unrealized(View(), price) - cost);
      }
      var newQty := quantity + q;
      if newQty * quantity > 0.0 {
        NonZero(newQty, quantity);
        var totalCost := Times(quantity, avgPrice) + Times(q, price);
        avgPrice := if newQty != 0.0 then Average(totalCost, newQty) else price;
      } else if newQty == 0.0 || Abs(newQty) < FLAT {
        avgPrice := 0.0;
      } else {
        avgPrice := price;
      }
      quantity := newQty;
    }

    method UpdateOnSell(q: real, price: real, cost: real)
      modifies this
      ensures View() == Updated(old(View()), -q, price, cost)
    {
      UpdateOnBuy(-q, price, cost);
    }
  }

  class Portfolio {
    const initialCash: real
    const allowShort: bool
    var cash: real
    var positions: seq<Position>

    ghost predicate Valid()
      reads this
    {
      forall i, j :: 0 <= i < j < |positions| ==> positions[i].symbol != positions[j].symbol
    }

    ghost function Holdings(): (hs: seq<Holding>)
      reads this, positions
      ensures |hs| == |positions| && forall i :: 0 <= i < |hs| ==> hs[i] == positions[i].View()
    {
      seq(|positions|, i requires 0 <= i < |positions| reads this, positions => positions[i].View())
    }

    ghost function View(): Book
      reads this, positions
    {
      Book(cash, Holdings())
    }

    constructor (initialCash: real, allowShort: bool)
      ensures Valid() && View() == Book(initialCash, []) && positions == []
      ensures this.initialCash == initialCash && this.allowShort == allowShort
    {
      this.initialCash, this.allowShort := initialCash, allowShort;
      cash := initialCash;
      positions := [];
    }

    /** Updating one position in place changes the holdings at its place only. */
    twostate lemma OneChanged(i: nat)
      requires old(Valid()) && positions == old(positions) && i < |positions|
      requires forall j :: 0 <= j < |positions| && j != i ==> unchanged(positions[j])
      ensures Holdings() == old(Holdings())[i := positions[i].View()]
    {
    }

    method GetPosition(symbol: string) returns (i: nat)
      requires Valid()
      modifies this`positions
      ensures Valid() && cash == old(cash)
      ensures Holdings() == Opened(old(Holdings()), symbol)
      ensures i == Place(old(Holdings()), symbol) && i < |positions|
      ensures forall p :: p in positions ==> p in old(positions) || fresh(p)
    {
      i := 0;
      while i < |positions| && positions[i].symbol != symbol
        invariant 0 <= i <= |positions|
        invariant forall j :: 0 <= j < i ==> positions[j].symbol != symbol
      {
        i := i + 1;
      }
      PlaceIs(Holdings(), symbol, i);
      if i == |positions| {
        var p := new Position(symbol);
        positions := positions + [p];
        assert Holdings() == old(Holdings()) + [p.View()];
      }
    }

    method ExecuteBuy(symbol: string, quantity: real, price: real, cost: real)
      requires Valid()
      modifies this, positions
      ensures Valid()
      ensures View() == Executed(old(View()), allowShort, Buy(symbol, quantity, price, cost))
      ensures forall p :: p in positions ==> p in old(positions) || fresh(p)
    {
      if quantity <= 0.0 {
        return;
      }
      var i := GetPosition(symbol);
      var pos := positions[i];
      var q := Affordable(pos.quantity, quantity, price, cost);
      if q <= 0.0 {
        return;
      }
      assert positions[i] in positions;
      FillPurchase(i, q, price, cost);
    }

    /** Money goes out for a long position; covering a short one releases cash. */
    method FillPurchase(i: nat, q: real, price: real, cost: real)
      requires Valid() && i < |positions|
      modifies this`cash, positions[i]
      ensures Valid() && Holdings() == old(Holdings())[i := Updated(old(Holdings())[i], q, price, cost)]
      ensures cash == if old(Holdings())[i].quantity >= 0.0
                      then old(cash) - (Times(q, price) + cost)
                      else old(cash) + (Times(q, price) - cost)
    {
      var pos := positions[i];
      assert forall j :: 0 <= j < |positions| && j != i ==> positions[j] != pos;
      if pos.quantity >= 0.0 {
        cash := cash - (Times(q, price) + cost);
      } else {
        cash := cash + (Times(q, price) - cost);
      }
      pos.UpdateOnBuy(q, price, cost);
      OneChanged(i);
    }

    /** The quantity a buy can fill: no more than covers a short that may not be reversed, and
        no more than the cash pays for. */
    method Affordable(held: real, quantity: real, price: real, cost: real) returns (q: real)
      requires quantity > 0.0
      ensures q == BuyQuantity(cash, held, allowShort, quantity, price, cost)
    {
      q := quantity;
      if !allowShort && held < 0.0 {
        q := Min(q, -held);
      }
      if held >= 0.0 {
        if Times(q, price) + cost > cash {
          var affordable := if price > 0.0 then Average(cash - cost, price) else 0.0;
          if affordable <= 0.0 {
            return 0.0;
          }
          q := affordable;
        }
      }
    }

    method ExecuteSell(symbol: string, quantity: real, price: real, cost: real)
      requires Valid()
      modifies this, positions
      ensures Valid()
      ensures View() == Executed(old(View()), allowShort, Sell(symbol, quantity, price, cost))
      ensures forall p :: p in positions ==> p in old(positions) || fresh(p)
    {
      if quantity <= 0.0 {
        return;
      }
      var i := GetPosition(symbol);
      var pos := positions[i];
      var q := quantity;
      if !allowShort && pos.quantity >= 0.0 {
        q := Min(q, pos.quantity);
        if q <= 0.0 {
          return;
        }
      }
      assert positions[i] in positions;
      FillSale(i, q, price, cost);
    }

    /** Proceeds come in when a long position is reduced; adding to a short one ties up cash. */
    method FillSale(i: nat, q: real, price: real, cost: real)
      requires Valid() && i < |positions|
      modifies this`cash, positions[i]
      ensures Valid() && Holdings() == old(Holdings())[i := Updated(old(Holdings())[i], -q, price, cost)]
      ensures cash == if old(Holdings())[i].quantity > 0.0
                      then old(cash) + (Times(q, price) - cost)
                      else old(cash) - (Times(q, price) + cost)
    {
      var pos := positions[i];
      assert forall j :: 0 <= j < |positions| && j != i ==> positions[j] != pos;
      if pos.quantity > 0.0 {
        cash := cash + (Times(q, price) - cost);
      } else {
        cash := cash - (Times(q, price) + cost);
      }
      pos.UpdateOnSell(q, price, cost);
      OneChanged(i);
    }

    method ComputeTotalValue(prices: map<string, real>) returns (total: real)
      requires Valid()
      ensures total == TotalValue(View(), prices)
    {
      total := cash;
      for i := 0 to |positions|
        invariant total == cash + MarketValue(Holdings()[..i], prices)
      {
        assert Holdings()[..i + 1][..i] == Holdings()[..i];
        var pos := positions[i];
        if pos.symbol in prices {
          total := total + pos.quantity * prices[pos.symbol];
        }
      }
      assert Holdings()[..|positions|] == Holdings();
    }

    method Reset()
      modifies this
      ensures Valid() && View() == Book(initialCash, []) && positions == []
    {
      cash := initialCash;
      positions := [];
    }
  }
}
