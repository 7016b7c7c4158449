/** `PaperPortfolioUpdater` of `app/portfolio/paper.py`: posting fills to cash, quantity and average price. */
module PaperLedger {
  import opened Collections
  import opened Contracts

  // ------------------------------------------------------------- posting rule

  /** The average entry price after buying `quantity` at `price` on top of `held`. */
  function NewAverage(held: real, average: real, quantity: real, price: real): real
    requires held + quantity == quantity || held + quantity != 0.0
  {
    if held + quantity == quantity then price else (held * average + quantity * price) / (held + quantity)
  }

  function Profit(f: Fill, average: real): real {
    (f.price - average) * f.quantity
  }

  /** One fill posted to the book; `None` when the new average would divide by zero. */
  function Post(quote: string, b: Book, f: Fill): Option<Book> {
    var held := Get(b.quantity, f.instrumentId);
    var average := Get(b.average, f.instrumentId);
    var cash := Get(b.cash, quote);
    var paid := Notional(f);
    if f.side.Buy? then
      var after := held + f.quantity;
      if after != f.quantity && after == 0.0 then None
      else
        Some(Book(
          b.cash[quote := cash - paid - f.fee],
          b.quantity[f.instrumentId := after],
          b.average[f.instrumentId := NewAverage(held, average, f.quantity, f.price)],
          b.realized))
    else
      var after := held - f.quantity;
      Some(Book(
        b.cash[quote := cash + paid - f.fee],
        b.quantity[f.instrumentId := after],
        b.average[f.instrumentId := if after != 0.0 then average else 0.0],
        b.realized + (Profit(f, average) - f.fee)))
  }

  /** The fills posted one after the other. */
  function PostAll(quote: string, b: Book, fills: seq<Fill>): Option<Book> {
    if fills == [] then Some(b)
    else
      match PostAll(quote, b, fills[..|fills| - 1])
      case None => None
      case Some(c) => Post(quote, c, fills[|fills| - 1])
  }

  /** Posting a batch after a batch is posting the joined batch. */
  lemma {:induction false} PostAllConcat(quote: string, b: Book, first: seq<Fill>, second: seq<Fill>)
    requires PostAll(quote, b, first).Some?
    ensures PostAll(quote, b, first + second) == PostAll(quote, PostAll(quote, b, first).value, second)
  {
    if second == [] {
      assert first + second == first;
    } else {
      assert (first + second)[..|first + second| - 1] == first + second[..|second| - 1];
      PostAllConcat(quote, b, first, second[..|second| - 1]);
    }
  }

  // ------------------------------------------------------- sums over positions

  ghost function SumOver(f: string -> real, s: set<string>): real {
    if s == {} then 0.0 else var k :| k in s; f(k) + SumOver(f, s - {k})
  }

  lemma {:induction false} SumOverPick(f: string -> real, s: set<string>, k: string)
    requires k in s
    ensures SumOver(f, s) == f(k) + SumOver(f, s - {k})
  {
    var c :| c in s && SumOver(f, s) == f(c) + SumOver(f, s - {c});
    if c != k {
      SumOverPick(f, s - {c}, k);
      SumOverPick(f, s - {k}, c);
      assert s - {c} - {k} == s - {k} - {c};
    }
  }

  lemma {:induction false} SumOverDifference(f: string -> real, g: string -> real, h: string -> real, s: set<string>)
    requires forall k :: k in s ==> h(k) == f(k) - g(k)
    ensures SumOver(h, s) == SumOver(f, s) - SumOver(g, s)
  {
    if s != {} {
      var k :| k in s;
      SumOverPick(f, s, k);
      SumOverPick(g, s, k);
      SumOverPick(h, s, k);
      SumOverDifference(f, g, h, s - {k});
    }
  }

  lemma {:induction false} SumOverSame(f: string -> real, g: string -> real, s: set<string>)
    requires forall k :: k in s ==> f(k) == g(k)
    ensures SumOver(f, s) == SumOver(g, s)
  {
    if s != {} {
      var k :| k in s;
      SumOverPick(f, s, k);
      SumOverPick(g, s, k);
      SumOverSame(f, g, s - {k});
    }
  }

  /** Changing one summand, present or new, moves the sum by that summand alone. */
  lemma SumOverMoves(f: string -> real, g: string -> real, s: set<string>, k: string)
    requires forall j :: j in s && j != k ==> f(j) == g(j)
    requires k !in s ==> f(k) == 0.0
    ensures SumOver(g, s + {k}) == SumOver(f, s) - f(k) + g(k)
  {
    SumOverPick(g, s + {k}, k);
    assert s + {k} - {k} == s - {k};
    SumOverSame(f, g, s - {k});
    if k in s {
      SumOverPick(f, s, k);
    } else {
      assert s - {k} == s;
    }
  }

  lemma {:induction false} SumOverNonNegative(f: string -> real, s: set<string>)
    requires forall k :: k in s ==> f(k) >= 0.0
    ensures SumOver(f, s) >= 0.0
  {
    if s != {} {
      var k :| k in s;
      SumOverPick(f, s, k);
      SumOverNonNegative(f, s - {k});
    }
  }

  // ------------------------------------------------------------ the updater

  /** The price of the last fill of an instrument in the batch. */
  function LastPrice(fills: seq<Fill>, instrument: string): Option<real> {
    if fills == [] then None
    else if fills[|fills| - 1].instrumentId == instrument then Some(fills[|fills| - 1].price)
    else LastPrice(fills[..|fills| - 1], instrument)
  }

  /** Positions are marked at their last fill of the batch, else carried at average. */
  function Mark(b: Book, fills: seq<Fill>, instrument: string): real {
    match LastPrice(fills, instrument)
    case Some(p) => p
    case None => Get(b.average, instrument)
  }

  function Abs(x: real): real { if x < 0.0 then -x else x }

  function ExposureAt(b: Book, fills: seq<Fill>, k: string): real {
    Get(b.quantity, k) * Mark(b, fills, k)
  }

  function OpenProfitAt(b: Book, fills: seq<Fill>, k: string): real {
    (Mark(b, fills, k) - Get(b.average, k)) * Get(b.quantity, k)
  }

  function Exposure(b: Book, fills: seq<Fill>): string -> real { k => ExposureAt(b, fills, k) }

  function AbsExposure(b: Book, fills: seq<Fill>): string -> real { k => Abs(ExposureAt(b, fills, k)) }

  function OpenProfit(b: Book, fills: seq<Fill>): string -> real { k => OpenProfitAt(b, fills, k) }

  ghost function Valued(asOf: int, b: Book, fills: seq<Fill>): PortfolioState {
    PortfolioState(
      if fills == [] then asOf else fills[|fills| - 1].occurredAt,
      b,
      SumOver(OpenProfit(b, fills), b.quantity.Keys),
      SumOver(AbsExposure(b, fills), b.quantity.Keys),
      SumOver(Exposure(b, fills), b.quantity.Keys))
  }

  /** What `apply_fills` returns or raises. */
  ghost function Applied(quote: string, p: PortfolioState, fills: seq<Fill>): Result<PortfolioState, LedgerError> {
    match PostAll(quote, p.book, fills)
    case None => Err(DivisionByZero)
    case Some(b) =>
      var q := Valued(p.asOf, b, fills);
      if q.Valid() then Ok(q) else Err(NegativeBalance)
  }

  /** The body of the fill loop of `apply_fills`; `posted` is false when the average divides by zero. */
  method PostFill(
    quote: string, cash: map<string, real>, quantity: map<string, real>, average: map<string, real>, realized: real,
    f: Fill)
    returns (posted: bool, newCash: map<string, real>, newQuantity: map<string, real>, newAverage: map<string, real>,
             newRealized: real)
    ensures Post(quote, Book(cash, quantity, average, realized), f)
         == if posted then Some(Book(newCash, newQuantity, newAverage, newRealized)) else None
  {
    posted, newCash, newQuantity, newAverage, newRealized := true, cash, quantity, average, realized;
    var held := Get(quantity, f.instrumentId);
    var entry := Get(average, f.instrumentId);
    var quoteCash := Get(cash, quote);
    if f.side.Buy? {
      var after := held + f.quantity;
      if after != f.quantity && after == 0.0 { return false, cash, quantity, average, realized; }
      newQuantity := quantity[f.instrumentId := after];
      newAverage := average[f.instrumentId := NewAverage(held, entry, f.quantity, f.price)];
      newCash := cash[quote := quoteCash - Notional(f) - f.fee];
    } else {
      var after := held - f.quantity;
      newRealized := realized + (Profit(f, entry) - f.fee);
      newQuantity := quantity[f.instrumentId := after];
      newAverage := average[f.instrumentId := if after != 0.0 then entry else 0.0];
      newCash := cash[quote := quoteCash + Notional(f) - f.fee];
    }
  }

  /** The valuation loop that closes `apply_fills`. */
  method MarkToMarket(b: Book, ghost fills: seq<Fill>, lastMark: map<string, real>)
    returns (gross: real, net: real, unrealized: real)
    requires forall k :: LastPrice(fills, k) == if k in lastMark then Some(lastMark[k]) else None
    ensures net == SumOver(Exposure(b, fills), b.quantity.Keys)
    ensures gross == SumOver(AbsExposure(b, fills), b.quantity.Keys)
    ensures unrealized == SumOver(OpenProfit(b, fills), b.quantity.Keys)
  {
    gross, net, unrealized := 0.0, 0.0, 0.0;
    var rest := b.quantity.Keys;
    while rest != {}
      invariant rest <= b.quantity.Keys
      invariant net + SumOver(Exposure(b, fills), rest) == SumOver(Exposure(b, fills), b.quantity.Keys)
      invariant gross + SumOver(AbsExposure(b, fills), rest) == SumOver(AbsExposure(b, fills), b.quantity.Keys)
      invariant unrealized + SumOver(OpenProfit(b, fills), rest) == SumOver(OpenProfit(b, fills), b.quantity.Keys)
      decreases |rest|
    {
      var k :| k in rest;
      var mark := if k in lastMark then lastMark[k] else Get(b.average, k);
      var exposure := b.quantity[k] * mark;
      var profit := (mark - Get(b.average, k)) * b.quantity[k];
      SameValuation(b, fills, k, mark);
      SumOverPick(Exposure(b, fills), rest, k);
      SumOverPick(AbsExposure(b, fills), rest, k);
      SumOverPick(OpenProfit(b, fills), rest, k);
      gross := gross + Abs(exposure);
      net := net + exposure;
      unrealized := unrealized + profit;
      rest := rest - {k};
    }
  }

  lemma SameValuation(b: Book, fills: seq<Fill>, k: string, mark: real)
    requires k in b.quantity && mark == Mark(b, fills, k)
    ensures b.quantity[k] * mark == ExposureAt(b, fills, k)
    ensures (mark - Get(b.average, k)) * b.quantity[k] == OpenProfitAt(b, fills, k)
  {
  }

  method ApplyFills(quote: string, p: PortfolioState, fills: seq<Fill>) returns (r: Result<PortfolioState, LedgerError>)
    ensures r == Applied(quote, p, fills)
  {
    var cash, quantity, average, realized := p.book.cash, p.book.quantity, p.book.average, p.book.realized;
    var lastMark: map<string, real> := map[];
    var i := 0;
    while i < |fills|
      invariant 0 <= i <= |fills|
      invariant PostAll(quote, p.book, fills[..i]) == Some(Book(cash, quantity, average, realized))
      invariant forall k :: LastPrice(fills[..i], k) == if k in lastMark then Some(lastMark[k]) else None
    {
      var f := fills[i];
      assert fills[..i + 1][..i] == fills[..i];
      lastMark := lastMark[f.instrumentId := f.price];
      var posted, newCash, newQuantity, newAverage, newRealized :=
        PostFill(quote, cash, quantity, average, realized, f);
      if !posted {
        PostAllStaysNone(quote, p.book, fills, i + 1);
        return Err(DivisionByZero);
      }
      cash, quantity, average, realized := newCash, newQuantity, newAverage, newRealized;
      i := i + 1;
    }
    assert fills[..i] == fills;
    var b := Book(cash, quantity, average, realized);
    var gross, net, unrealized := MarkToMarket(b, fills, lastMark);
    var q := PortfolioState(
      if fills == [] then p.asOf else fills[|fills| - 1].occurredAt,
      b, unrealized, gross, net);
    if q.Valid() { return Ok(q); }
    return Err(NegativeBalance);
  }

  lemma {:induction false} PostAllStaysNone(quote: string, b: Book, fills: seq<Fill>, i: nat)
    requires i <= |fills| && PostAll(quote, b, fills[..i]).None?
    ensures PostAll(quote, b, fills).None?
    decreases |fills|
  {
    if i < |fills| {
      assert fills[..|fills| - 1][..i] == fills[..i];
      PostAllStaysNone(quote, b, fills[..|fills| - 1], i);
    } else {
      assert fills[..i] == fills;
    }
  }

  /** Two updates in a row keep the books of one update with the joined batch, and fail when it fails. */
  lemma BatchesCompose(quote: string, p: PortfolioState, first: seq<Fill>, second: seq<Fill>)
    requires Applied(quote, p, first).Ok?
    ensures var q := Applied(quote, p, first).value;
      && (Applied(quote, q, second).Ok? <==> Applied(quote, p, first + second).Ok?)
      && (Applied(quote, q, second).Ok? ==>
            Applied(quote, q, second).value.book == Applied(quote, p, first + second).value.book)
  {
    PostAllConcat(quote, p.book, first, second);
    var q := Applied(quote, p, first).value;
    if PostAll(quote, q.book, second).Some? {
      ValuedIsValid(q.asOf, PostAll(quote, q.book, second).value, second);
      ValuedIsValid(p.asOf, PostAll(quote, q.book, second).value, first + second);
    }
  }

  // --------------------------------------------------- accounting identity

  function CostAt(b: Book, k: string): real {
    Get(b.quantity, k) * Get(b.average, k)
  }

  function Cost(b: Book): string -> real { k => CostAt(b, k) }

  /** Quote cash plus positions at cost, net of profit already realized. */
  ghost function Equity(quote: string, b: Book): real {
    Get(b.cash, quote) + SumOver(Cost(b), b.quantity.Keys) - b.realized
  }

  function BuyFee(f: Fill): real { if f.side.Buy? then f.fee else 0.0 }

  lemma PostKeepsEquity(quote: string, b: Book, f: Fill)
    requires Post(quote, b, f).Some?
    ensures Equity(quote, Post(quote, b, f).value) == Equity(quote, b) - BuyFee(f)
  {
    if f.side.Buy? {
      BuyKeepsEquity(quote, b, f);
    } else {
      SaleKeepsEquity(quote, b, f);
    }
  }

  lemma BuyKeepsEquity(quote: string, b: Book, f: Fill)
    requires f.side.Buy? && Post(quote, b, f).Some?
    ensures Equity(quote, Post(quote, b, f).value) == Equity(quote, b) - f.fee
  {
    BuyCost(quote, b, f);
    CostMoved(b, Post(quote, b, f).value, f.instrumentId);
  }

  lemma SaleKeepsEquity(quote: string, b: Book, f: Fill)
    requires f.side.Sell?
    ensures Equity(quote, Post(quote, b, f).value) == Equity(quote, b)
  {
    SaleCost(quote, b, f);
    CostMoved(b, Post(quote, b, f).value, f.instrumentId);
  }

  lemma BuyCost(quote: string, b: Book, f: Fill)
    requires f.side.Buy? && Post(quote, b, f).Some?
    ensures CostAt(Post(quote, b, f).value, f.instrumentId) == CostAt(b, f.instrumentId) + Notional(f)
  {
    NewAverageKeepsCost(Get(b.quantity, f.instrumentId), Get(b.average, f.instrumentId), f.quantity, f.price);
  }

  lemma SaleCost(quote: string, b: Book, f: Fill)
    requires f.side.Sell?
    ensures CostAt(Post(quote, b, f).value, f.instrumentId)
         == CostAt(b, f.instrumentId) + Profit(f, Get(b.average, f.instrumentId)) - Notional(f)
  {
    var k := f.instrumentId;
    SaleArithmetic(f.price, Get(b.average, k), f.quantity, Get(b.quantity, k), Get(Post(quote, b, f).value.average, k));
  }

  /** Touching one instrument moves the cost sum by that instrument's cost alone. */
  lemma CostMoved(b: Book, c: Book, k: string)
    requires c.quantity.Keys == b.quantity.Keys + {k}
    requires forall j :: j != k ==> Get(c.quantity, j) == Get(b.quantity, j) && Get(c.average, j) == Get(b.average, j)
    ensures SumOver(Cost(c), c.quantity.Keys) == SumOver(Cost(b), b.quantity.Keys) - CostAt(b, k) + CostAt(c, k)
  {
    CostElsewhere(b, c, k);
    SumOverMoves(Cost(b), Cost(c), b.quantity.Keys, k);
  }

  lemma CostElsewhere(b: Book, c: Book, k: string)
    requires forall j :: j != k ==> Get(c.quantity, j) == Get(b.quantity, j) && Get(c.average, j) == Get(b.average, j)
    ensures forall j :: j != k ==> Cost(c)(j) == Cost(b)(j)
    ensures k !in b.quantity ==> Cost(b)(k) == 0.0
  {
    assert k !in b.quantity ==> CostAt(b, k) == 0.0;
    forall j | j != k ensures CostAt(c, j) == CostAt(b, j) {}
  }

  lemma NewAverageKeepsCost(held: real, average: real, quantity: real, price: real)
    requires held + quantity == quantity || held + quantity != 0.0
    ensures (held + quantity) * NewAverage(held, average, quantity, price) == held * average + quantity * price
  {
    if held != 0.0 {
      var n, d := held * average + quantity * price, held + quantity;
      assert d * (n / d) == n;
    }
  }

  lemma SaleArithmetic(price: real, average: real, quantity: real, held: real, left: real)
    requires left == if held - quantity != 0.0 then average else 0.0
    ensures (held - quantity) * left - held * average + quantity * price == (price - average) * quantity
  {
    assert (held - quantity) * left == (held - quantity) * average by {
      if held - quantity == 0.0 { assert (held - quantity) * average == 0.0; }
    }
  }

  lemma {:induction false} PostAllKeepsEquity(quote: string, b: Book, fills: seq<Fill>)
    requires PostAll(quote, b, fills).Some?
    ensures Equity(quote, PostAll(quote, b, fills).value) == Equity(quote, b) - Sum(BuyFee, fills)
  {
    if fills != [] {
      PostAllKeepsEquity(quote, b, fills[..|fills| - 1]);
      PostKeepsEquity(quote, PostAll(quote, b, fills[..|fills| - 1]).value, fills[|fills| - 1]);
    }
  }

  /** Whatever was filled, cash plus net exposure less realized and open profit loses only the buy fees. */
  lemma AccountingIdentity(quote: string, p: PortfolioState, fills: seq<Fill>)
    requires Applied(quote, p, fills).Ok?
    ensures var r := Applied(quote, p, fills).value;
      && Get(r.book.cash, quote) + r.netExposure - r.book.realized - r.unrealized
         == Get(p.book.cash, quote) + SumOver(Cost(p.book), p.book.quantity.Keys) - p.book.realized - Sum(BuyFee, fills)
  {
    var b := Applied(quote, p, fills).value.book;
    PostAllKeepsEquity(quote, p.book, fills);
    CostIsExposureLessProfit(b, fills);
  }

  lemma CostIsExposureLessProfit(b: Book, fills: seq<Fill>)
    ensures SumOver(Cost(b), b.quantity.Keys)
         == SumOver(Exposure(b, fills), b.quantity.Keys) - SumOver(OpenProfit(b, fills), b.quantity.Keys)
  {
    forall k ensures Cost(b)(k) == Exposure(b, fills)(k) - OpenProfit(b, fills)(k) {
      var q, m, e := Get(b.quantity, k), Mark(b, fills, k), Get(b.average, k);
      assert q * m - (m - e) * q == q * e;
    }
    SumOverDifference(Exposure(b, fills), OpenProfit(b, fills), Cost(b), b.quantity.Keys);
  }

  /** Only the quote asset's balance moves; every other balance is left alone. */
  lemma OtherCashUntouched(quote: string, p: PortfolioState, fills: seq<Fill>)
    requires Applied(quote, p, fills).Ok?
    ensures Applied(quote, p, fills).value.book.cash - {quote} == p.book.cash - {quote}
  {
    PostedCash(quote, p.book, fills);
  }

  // -------------------------------------------- what the delivery order decides

  function CashEffect(f: Fill): real {
    if f.side.Buy? then -Notional(f) - f.fee else Notional(f) - f.fee
  }

  function QuantityEffect(instrument: string): Fill -> real {
    (f: Fill) => if f.instrumentId != instrument then 0.0 else if f.side.Buy? then f.quantity else -f.quantity
  }

  lemma PostEffect(quote: string, b: Book, f: Fill, k: string)
    requires Post(quote, b, f).Some?
    ensures Get(Post(quote, b, f).value.quantity, k) == Get(b.quantity, k) + QuantityEffect(k)(f)
  {
  }

  /** A position after a batch is the plain sum of the batch's signed quantities. */
  lemma {:induction false} PostedQuantity(quote: string, b: Book, fills: seq<Fill>, k: string)
    requires PostAll(quote, b, fills).Some?
    ensures Get(PostAll(quote, b, fills).value.quantity, k) == Get(b.quantity, k) + Sum(QuantityEffect(k), fills)
  {
    if fills != [] {
      PostedQuantity(quote, b, fills[..|fills| - 1], k);
      PostEffect(quote, PostAll(quote, b, fills[..|fills| - 1]).value, fills[|fills| - 1], k);
    }
  }

  /** Quote cash after a batch is the plain sum of the batch's payments; no other balance moves. */
  lemma {:induction false} PostedCash(quote: string, b: Book, fills: seq<Fill>)
    requires PostAll(quote, b, fills).Some?
    ensures PostAll(quote, b, fills).value.cash
         == if fills == [] then b.cash else b.cash[quote := Get(b.cash, quote) + Sum(CashEffect, fills)]
  {
    if fills != [] {
      var front, f := fills[..|fills| - 1], fills[|fills| - 1];
      PostedCash(quote, b, front);
      var c := PostAll(quote, b, front).value;
      PostCash(quote, c, f);
      var before, after := Get(b.cash, quote) + Sum(CashEffect, front), Get(b.cash, quote) + Sum(CashEffect, fills);
      assert b.cash[quote := before][quote := after]
          == b.cash[quote := Get(b.cash, quote) + Sum(CashEffect, fills)];
      assert Get(c.cash, quote) == Get(b.cash, quote) + Sum(CashEffect, front);
    }
  }

  lemma PostCash(quote: string, b: Book, f: Fill)
    requires Post(quote, b, f).Some?
    ensures Post(quote, b, f).value.cash == b.cash[quote := Get(b.cash, quote) + CashEffect(f)]
  {
  }

  lemma {:induction false} PostedInstruments(quote: string, b: Book, fills: seq<Fill>)
    requires PostAll(quote, b, fills).Some?
    ensures forall k :: k in PostAll(quote, b, fills).value.quantity
              <==> k in b.quantity || exists f :: f in fills && f.instrumentId == k
  {
    if fills != [] {
      var front, last := fills[..|fills| - 1], fills[|fills| - 1];
      assert forall f :: f in fills <==> f in front || f == last by { assert fills == front + [last]; }
      PostedInstruments(quote, b, front);
    }
  }

  /** However a batch is ordered, it leaves the same cash and the same positions. */
  lemma PermutedPostings(quote: string, b: Book, one: seq<Fill>, other: seq<Fill>)
    requires multiset(one) == multiset(other)
    requires PostAll(quote, b, one).Some? && PostAll(quote, b, other).Some?
    ensures PostAll(quote, b, one).value.cash == PostAll(quote, b, other).value.cash
    ensures PostAll(quote, b, one).value.quantity == PostAll(quote, b, other).value.quantity
  {
    assert |one| == |multiset(one)| == |multiset(other)| == |other|;
    SameElements(one, other);
    PostedCash(quote, b, one);
    PostedCash(quote, b, other);
    SumPermuted(CashEffect, one, other);
    PermutedQuantities(quote, b, one, other);
  }

  lemma PermutedQuantities(quote: string, b: Book, one: seq<Fill>, other: seq<Fill>)
    requires multiset(one) == multiset(other)
    requires PostAll(quote, b, one).Some? && PostAll(quote, b, other).Some?
    ensures PostAll(quote, b, one).value.quantity == PostAll(quote, b, other).value.quantity
  {
    var c, d := PostAll(quote, b, one).value.quantity, PostAll(quote, b, other).value.quantity;
    SameElements(one, other);
    PostedInstruments(quote, b, one);
    PostedInstruments(quote, b, other);
    forall k ensures Get(c, k) == Get(d, k) && (k in c <==> k in d) {
      PostedQuantity(quote, b, one, k);
      PostedQuantity(quote, b, other, k);
      SumPermuted(QuantityEffect(k), one, other);
    }
    SameMap(c, d);
  }

  lemma SameMap(c: map<string, real>, d: map<string, real>)
    requires forall k :: Get(c, k) == Get(d, k) && (k in c <==> k in d)
    ensures c == d
  {
    forall k | k in c ensures c[k] == d[k] {
      assert Get(c, k) == Get(d, k);
    }
  }

  lemma SameElements<T(!new)>(one: seq<T>, other: seq<T>)
    requires multiset(one) == multiset(other)
    ensures forall x :: x in one <==> x in other
  {
    forall x ensures x in one <==> x in other {
      assert x in one <==> x in multiset(one);
      assert x in other <==> x in multiset(other);
    }
  }

  // ----------------------------------------------------- batches that cannot fail

  function Sold(instrument: string): Fill -> real {
    (f: Fill) => if f.side.Sell? && f.instrumentId == instrument then f.quantity else 0.0
  }

  /** The book holds at least what the batch sells, so no position turns short in any order. */
  ghost predicate Covered(b: Book, fills: seq<Fill>) {
    forall k {:trigger Sold(k)} :: Get(b.quantity, k) >= Sum(Sold(k), fills)
  }

  lemma WeightedAverage(held: real, average: real, quantity: real, price: real)
    requires held >= 0.0 && average >= 0.0 && quantity > 0.0 && price >= 0.0
    ensures NewAverage(held, average, quantity, price) >= 0.0
  {
    var n, d := held * average + quantity * price, held + quantity;
    assert n >= 0.0 && d > 0.0;
  }

  lemma {:induction false} CoveredNeverFails(quote: string, b: Book, fills: seq<Fill>)
    requires Covered(b, fills)
    requires forall i :: i in b.average ==> b.average[i] >= 0.0
    ensures PostAll(quote, b, fills).Some?
    ensures forall i :: i in PostAll(quote, b, fills).value.average ==> PostAll(quote, b, fills).value.average[i] >= 0.0
  {
    if fills != [] {
      var front, f := fills[..|fills| - 1], fills[|fills| - 1];
      assert Covered(b, front) by {
        forall k ensures Get(b.quantity, k) >= Sum(Sold(k), front) {
          assert Sum(Sold(k), fills) == Sum(Sold(k), front) + Sold(k)(f);
        }
      }
      CoveredNeverFails(quote, b, front);
      var c, k := PostAll(quote, b, front).value, f.instrumentId;
      PostedQuantity(quote, b, front, k);
      SoldBounds(k, front);
      assert Get(b.quantity, k) >= Sum(Sold(k), fills);
      PostKeepsLong(quote, c, f);
    }
  }

  lemma PostKeepsLong(quote: string, c: Book, f: Fill)
    requires Get(c.quantity, f.instrumentId) >= 0.0
    requires forall i :: i in c.average ==> c.average[i] >= 0.0
    ensures Post(quote, c, f).Some?
    ensures forall i :: i in Post(quote, c, f).value.average ==> Post(quote, c, f).value.average[i] >= 0.0
  {
    if f.side.Buy? {
      WeightedAverage(Get(c.quantity, f.instrumentId), Get(c.average, f.instrumentId), f.quantity, f.price);
    }
  }

  lemma {:induction false} SoldBounds(k: string, fills: seq<Fill>)
    ensures Sum(QuantityEffect(k), fills) >= -Sum(Sold(k), fills)
  {
    if fills != [] {
      SoldBounds(k, fills[..|fills| - 1]);
    }
  }

  lemma GrossNonNegative(b: Book, fills: seq<Fill>)
    ensures SumOver(AbsExposure(b, fills), b.quantity.Keys) >= 0.0
  {
    SumOverNonNegative(AbsExposure(b, fills), b.quantity.Keys);
  }

  lemma ValuedIsValid(asOf: int, b: Book, fills: seq<Fill>)
    ensures Valued(asOf, b, fills).Valid() <==> b.Valid()
  {
    GrossNonNegative(b, fills);
  }

  lemma CashAfterIsValid(before: map<string, real>, quote: string, paid: real, after: map<string, real>)
    requires forall a :: a in before ==> before[a] >= 0.0
    requires after == before[quote := paid]
    ensures (forall a :: a in after ==> after[a] >= 0.0) <==> paid >= 0.0
  {
    assert after[quote] == paid;
  }

  /** An update that posts raises exactly when it overdraws the quote cash or leaves a negative average price. */
  lemma PostedOutcome(quote: string, p: PortfolioState, fills: seq<Fill>)
    requires PostAll(quote, p.book, fills).Some? && p.Valid()
    ensures var average := PostAll(quote, p.book, fills).value.average;
      Applied(quote, p, fills).Ok? <==>
        && (fills != [] ==> Get(p.book.cash, quote) + Sum(CashEffect, fills) >= 0.0)
        && (forall i :: i in average ==> average[i] >= 0.0)
  {
    PostedCashIsValid(quote, p.book, fills);
    ValuedIsValid(p.asOf, PostAll(quote, p.book, fills).value, fills);
  }

  lemma PostedCashIsValid(quote: string, b: Book, fills: seq<Fill>)
    requires PostAll(quote, b, fills).Some? && forall a :: a in b.cash ==> b.cash[a] >= 0.0
    ensures var cash := PostAll(quote, b, fills).value.cash;
      (forall a :: a in cash ==> cash[a] >= 0.0)
        <==> (fills != [] ==> Get(b.cash, quote) + Sum(CashEffect, fills) >= 0.0)
  {
    PostedCash(quote, b, fills);
    var paid := Get(b.cash, quote) + Sum(CashEffect, fills);
    CashAfterIsValid(b.cash, quote, paid, b.cash[quote := paid]);
  }

  /** With a covered batch an update can only fail on cash, and every delivery order agrees on that. */
  lemma CoveredOutcome(quote: string, p: PortfolioState, fills: seq<Fill>)
    requires Covered(p.book, fills) && p.Valid()
    ensures PostAll(quote, p.book, fills).Some?
    ensures Applied(quote, p, fills).Ok? <==> (fills != [] ==> Get(p.book.cash, quote) + Sum(CashEffect, fills) >= 0.0)
  {
    CoveredNeverFails(quote, p.book, fills);
    PostedOutcome(quote, p, fills);
  }

  /**
   * An update raises although the joined batch succeeds exactly when it overdraws the cash and the second batch closes
   * the overdraft.
   */
  lemma OverdraftRaises(quote: string, p: PortfolioState, first: seq<Fill>, second: seq<Fill>)
    requires p.Valid() && Covered(p.book, first) && Covered(p.book, first + second)
    ensures Applied(quote, p, first).Err? && Applied(quote, p, first + second).Ok? <==>
      && first != []
      && Get(p.book.cash, quote) + Sum(CashEffect, first) < 0.0
      && Get(p.book.cash, quote) + Sum(CashEffect, first) + Sum(CashEffect, second) >= 0.0
  {
    CoveredOutcome(quote, p, first);
    CoveredOutcome(quote, p, first + second);
    SumConcat(CashEffect, first, second);
  }
}
