// The paper ledger: orders, order events, trades and journal rows, and the one operation that writes them.

module PaperLedger {
  import opened Options
  import opened Rounding
  import opened PaperTypes

  datatype Side = BUY | SELL

  datatype OrderStatus = PAPER_ENTRY_FILLED | PAPER_ENTRY_NO_FILL | PAPER_EXIT_FILLED

  datatype Order = Order(
    id: int, signalId: int, side: Side, quantity: int, limitPrice: Option<real>, status: OrderStatus)

  datatype OrderEvent = OrderEvent(orderId: int, eventType: OrderStatus)

  datatype Trade = Trade(
    id: int, signalId: int, entryOrderId: int, exitOrderId: Option<int>, quantity: int,
    entryPrice: Option<real>, exitPrice: Option<real>, exitReason: ExitReason,
    gross: real, costs: real, net: real)

  /** A journal payload: amounts are written with six places. */
  datatype JournalRow = JournalRow(
    signalId: int, simulated: bool, entryStatus: EntryStatus, exitReason: ExitReason,
    gross: real, costs: real, net: real, rejectionReason: Option<string>)

  datatype Ledger = Ledger(
    orders: seq<Order>, events: seq<OrderEvent>, trades: seq<Trade>, journal: seq<JournalRow>)

  const EMPTY := Ledger([], [], [], [])

  datatype Duplicate = DuplicatePaperTrade

  predicate HasTrade(l: Ledger, signalId: int) {
    exists i :: 0 <= i < |l.trades| && l.trades[i].signalId == signalId
  }

  predicate HasEntryAttempt(o: Outcome) {
    o.entryStatus != NotCreated
  }

  function EntryOrderStatus(o: Outcome): OrderStatus {
    if o.entryStatus == EntryNoFill then PAPER_ENTRY_NO_FILL else PAPER_ENTRY_FILLED
  }

  predicate HasExit(o: Outcome) {
    o.entryStatus == EntryFilled && o.exitPrice.Some?
  }

  function EntryOrders(l: Ledger, signalId: int, o: Outcome): seq<Order> {
    if HasEntryAttempt(o) then
      [Order(|l.orders| + 1, signalId, BUY, o.quantity, o.entryReferencePrice, EntryOrderStatus(o))]
    else []
  }

  function ExitOrders(l: Ledger, signalId: int, o: Outcome): seq<Order> {
    if o.tradeCreated && HasEntryAttempt(o) && HasExit(o) then
      [Order(|l.orders| + 2, signalId, SELL, o.quantity, o.exitPrice, PAPER_EXIT_FILLED)]
    else []
  }

  function NewTrades(l: Ledger, signalId: int, o: Outcome): seq<Trade> {
    if o.tradeCreated && HasEntryAttempt(o) then
      [Trade(
         |l.trades| + 1, signalId, |l.orders| + 1, if HasExit(o) then Some(|l.orders| + 2) else None,
         o.quantity, o.entryFillPrice, o.exitPrice, o.exitReason, o.gross, o.costs, o.net)]
    else []
  }

  function RowOf(o: Outcome): JournalRow {
    JournalRow(
      o.signalId, true, o.entryStatus, o.exitReason, Money(o.gross), Money(o.costs), Money(o.net), o.rejectionReason)
  }

  function EventsOf(orders: seq<Order>): seq<OrderEvent> {
    if orders == [] then []
    else
      var last := orders[|orders| - 1];
      EventsOf(orders[..|orders| - 1]) + [OrderEvent(last.id, last.status)]
  }

  function Written(l: Ledger, signalId: int, o: Outcome): Ledger {
    var orders := EntryOrders(l, signalId, o) + ExitOrders(l, signalId, o);
    Ledger(
      l.orders + orders, l.events + EventsOf(orders), l.trades + NewTrades(l, signalId, o), l.journal + [RowOf(o)])
  }

  /** One atomic write. A second trade for a signal is refused and leaves nothing behind. */
  function Record(l: Ledger, signalId: int, o: Outcome): Result<Ledger, Duplicate> {
    if o.tradeCreated && HasTrade(l, signalId) then Err(DuplicatePaperTrade) else Ok(Written(l, signalId, o))
  }

  // ----- the books balance

  predicate IsFilledBuy(o: Order) {
    o.side == BUY && o.status == PAPER_ENTRY_FILLED
  }

  function CountFilledBuys(orders: seq<Order>): nat {
    if orders == [] then 0
    else CountFilledBuys(orders[..|orders| - 1]) + (if IsFilledBuy(orders[|orders| - 1]) then 1 else 0)
  }

  function CountSells(orders: seq<Order>): nat {
    if orders == [] then 0
    else CountSells(orders[..|orders| - 1]) + (if orders[|orders| - 1].side == SELL then 1 else 0)
  }

  function CountClosed(trades: seq<Trade>): nat {
    if trades == [] then 0
    else CountClosed(trades[..|trades| - 1]) + (if trades[|trades| - 1].exitPrice.Some? then 1 else 0)
  }

  /** The trade's orders exist, are its own, and say what it says. */
  predicate Backed(t: Trade, orders: seq<Order>) {
    && 1 <= t.entryOrderId <= |orders|
    && (var buy := orders[t.entryOrderId - 1];
        IsFilledBuy(buy) && buy.signalId == t.signalId && buy.quantity == t.quantity)
    && (t.exitOrderId.Some? <==> t.exitPrice.Some?)
    && (t.exitOrderId.Some? ==>
          && 1 <= t.exitOrderId.value <= |orders|
          && var sell := orders[t.exitOrderId.value - 1];
             && sell.side == SELL && sell.status == PAPER_EXIT_FILLED
             && sell.signalId == t.signalId && sell.quantity == t.quantity && sell.limitPrice == t.exitPrice)
  }

  /** Every filled BUY has a trade. */
  ghost predicate Claimed(order: nat, l: Ledger) {
    exists k :: 0 <= k < |l.trades| && l.trades[k].entryOrderId == order + 1
  }

  ghost predicate Numbered(l: Ledger) {
    && (forall i :: 0 <= i < |l.orders| ==> l.orders[i].id == i + 1)
    && (forall i :: 0 <= i < |l.trades| ==> l.trades[i].id == i + 1)
  }

  ghost predicate AllBacked(l: Ledger) {
    forall i :: 0 <= i < |l.trades| ==> Backed(l.trades[i], l.orders)
  }

  ghost predicate AllClaimed(l: Ledger) {
    forall i :: 0 <= i < |l.orders| && IsFilledBuy(l.orders[i]) ==> Claimed(i, l)
  }

  ghost predicate OneTradePerSignal(l: Ledger) {
    forall i, j :: 0 <= i < j < |l.trades| ==> l.trades[i].signalId != l.trades[j].signalId
  }

  predicate Counted(l: Ledger) {
    CountFilledBuys(l.orders) == |l.trades| && CountSells(l.orders) == CountClosed(l.trades)
  }

  ghost predicate Balanced(l: Ledger) {
    Numbered(l) && AllBacked(l) && AllClaimed(l) && OneTradePerSignal(l) && Counted(l)
  }

  /** The three shapes an outcome of the engine can have. */
  predicate WellShaped(o: Outcome) {
    && (o.tradeCreated <==> o.entryStatus == EntryFilled)
    && (o.exitReason == NO_FILL <==> o.entryStatus == EntryNoFill)
    && (o.rejectionReason.Some? <==> o.entryStatus == NotCreated)
    && (o.entryStatus != EntryFilled ==> o.gross == 0.0 && o.costs == 0.0 && o.net == 0.0)
    && o.net == o.gross - o.costs
  }

  lemma {:induction false} FilledBuysAppend(orders: seq<Order>, more: seq<Order>)
    ensures CountFilledBuys(orders + more) == CountFilledBuys(orders) + CountFilledBuys(more)
  {
    if more == [] {
      assert orders + more == orders;
    } else {
      FilledBuysAppend(orders, more[..|more| - 1]);
      assert (orders + more)[..|orders + more| - 1] == orders + more[..|more| - 1];
    }
  }

  lemma {:induction false} SellsAppend(orders: seq<Order>, more: seq<Order>)
    ensures CountSells(orders + more) == CountSells(orders) + CountSells(more)
  {
    if more == [] {
      assert orders + more == orders;
    } else {
      SellsAppend(orders, more[..|more| - 1]);
      assert (orders + more)[..|orders + more| - 1] == orders + more[..|more| - 1];
    }
  }

  lemma ClosedAppends(trades: seq<Trade>, more: seq<Trade>)
    requires |more| <= 1
    ensures CountClosed(trades + more)
         == CountClosed(trades) + (if more != [] && more[0].exitPrice.Some? then 1 else 0)
  {
    if more == [] {
      assert trades + more == trades;
    } else {
      assert (trades + more)[..|trades|] == trades;
    }
  }

  lemma SmallCounts(orders: seq<Order>)
    requires |orders| <= 1
    ensures CountFilledBuys(orders) == if orders != [] && IsFilledBuy(orders[0]) then 1 else 0
    ensures CountSells(orders) == if orders != [] && orders[0].side == SELL then 1 else 0
  {
    if orders != [] {
      assert orders[..0] == [];
    }
  }

  lemma WrittenCounts(l: Ledger, signalId: int, o: Outcome)
    requires WellShaped(o) && Counted(l)
    ensures Counted(Written(l, signalId, o))
  {
    var entry, exit := EntryOrders(l, signalId, o), ExitOrders(l, signalId, o);
    SmallCounts(entry);
    SmallCounts(exit);
    FilledBuysAppend(entry, exit);
    FilledBuysAppend(l.orders, entry + exit);
    SellsAppend(entry, exit);
    SellsAppend(l.orders, entry + exit);
    ClosedAppends(l.trades, NewTrades(l, signalId, o));
  }

  lemma WrittenNumbers(l: Ledger, signalId: int, o: Outcome)
    requires Numbered(l) && WellShaped(o)
    ensures Numbered(Written(l, signalId, o))
  {
  }

  lemma NewTradeIsBacked(l: Ledger, signalId: int, o: Outcome)
    requires WellShaped(o)
    ensures var l' := Written(l, signalId, o);
      |l'.trades| > |l.trades| ==> Backed(l'.trades[|l.trades|], l'.orders)
  {
  }

  lemma BackedSurvives(t: Trade, orders: seq<Order>, more: seq<Order>)
    requires Backed(t, orders)
    ensures Backed(t, orders + more)
  {
  }

  lemma WrittenTrades(l: Ledger, signalId: int, o: Outcome)
    requires AllBacked(l) && WellShaped(o)
    ensures AllBacked(Written(l, signalId, o))
  {
    var l' := Written(l, signalId, o);
    NewTradeIsBacked(l, signalId, o);
    forall i | 0 <= i < |l'.trades| ensures Backed(l'.trades[i], l'.orders) {
      if i < |l.trades| {
        BackedSurvives(l.trades[i], l.orders, EntryOrders(l, signalId, o) + ExitOrders(l, signalId, o));
      }
    }
  }

  lemma NewFilledBuyHasTrade(l: Ledger, signalId: int, o: Outcome, i: nat)
    requires WellShaped(o)
    requires |l.orders| <= i < |Written(l, signalId, o).orders|
    requires IsFilledBuy(Written(l, signalId, o).orders[i])
    ensures var l' := Written(l, signalId, o);
      |l'.trades| == |l.trades| + 1 && l'.trades[|l.trades|].entryOrderId == i + 1
  {
  }

  lemma WrittenClaims(l: Ledger, signalId: int, o: Outcome)
    requires AllClaimed(l) && WellShaped(o)
    ensures AllClaimed(Written(l, signalId, o))
  {
    var l' := Written(l, signalId, o);
    forall i | 0 <= i < |l'.orders| && IsFilledBuy(l'.orders[i]) ensures Claimed(i, l') {
      if i < |l.orders| {
        assert l.orders[i] == l'.orders[i] && Claimed(i, l);
        var k :| 0 <= k < |l.trades| && l.trades[k].entryOrderId == i + 1;
        assert l'.trades[k] == l.trades[k];
      } else {
        NewFilledBuyHasTrade(l, signalId, o, i);
      }
    }
  }

  lemma WrittenSignals(l: Ledger, signalId: int, o: Outcome)
    requires OneTradePerSignal(l)
    requires o.tradeCreated ==> !HasTrade(l, signalId)
    ensures OneTradePerSignal(Written(l, signalId, o))
  {
  }

  /** THE BOOKS STAY BALANCED through any write that is not refused: at most one trade per signal, each on
      exactly one filled BUY of its own, as many filled BUYs as trades and as many SELLs as closed trades. */
  lemma RecordKeepsBalance(l: Ledger, signalId: int, o: Outcome)
    requires Balanced(l) && WellShaped(o)
    requires Record(l, signalId, o).Ok?
    ensures Balanced(Record(l, signalId, o).value)
  {
    WrittenCounts(l, signalId, o);
    WrittenNumbers(l, signalId, o);
    WrittenTrades(l, signalId, o);
    WrittenClaims(l, signalId, o);
    WrittenSignals(l, signalId, o);
  }

  /** In a balanced ledger a signal's trade, and the trade behind a filled BUY, are unique. */
  lemma BalancedMeansOneTradeEach(l: Ledger, i: nat, j: nat)
    requires Balanced(l) && i < |l.trades| && j < |l.trades|
    requires l.trades[i].signalId == l.trades[j].signalId || l.trades[i].entryOrderId == l.trades[j].entryOrderId
    ensures i == j
  {
    hide Numbered, AllClaimed, Counted, IsFilledBuy;
    var t, u := l.trades[i], l.trades[j];
    assert Backed(t, l.orders) && Backed(u, l.orders);
    assert t.signalId == u.signalId;
    assert i < j ==> t.signalId != u.signalId;
    assert j < i ==> u.signalId != t.signalId;
  }

  lemma RejectionOnlyJournals(l: Ledger, signalId: int, o: Outcome)
    requires o.entryStatus == NotCreated && !o.tradeCreated
    ensures Record(l, signalId, o) == Ok(l.(journal := l.journal + [RowOf(o)]))
  {
    assert l.orders + [] == l.orders && l.events + [] == l.events && l.trades + [] == l.trades;
  }
}
