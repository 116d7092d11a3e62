/** What one signed execution keeps: it is all or nothing, it conserves what the parties hold, and it
    keeps a node's ledger in agreement with itself. */
module NodeLaws {
  import opened Base
  import opened Model
  import opened Inventory
  import opened NodeStates

  // ---- Exchange ----

  function If(c: bool, amount: int): int {
    if c then amount else 0
  }

  lemma SwapCells(h: Holdings, id: NodeID, give: UnitID, giveAmount: Amount, get: UnitID, getAmount: Amount,
                  n: NodeID, u: UnitID)
    requires Swap(h, id, give, giveAmount, get, getAmount).Some?
    ensures Cell(Swap(h, id, give, giveAmount, get, getAmount).value, n, u)
         == Cell(h, n, u) - If(n == id && u == give, giveAmount) + If(n == id && u == get, getAmount)
  {
    var given := Put(h, id, give, Cell(h, id, give) - giveAmount);
    CellAfterPut(h, id, give, Cell(h, id, give) - giveAmount, n, u);
    CellAfterPut(h, id, give, Cell(h, id, give) - giveAmount, id, get);
    CellAfterPut(given, id, get, Cell(given, id, get) + getAmount, n, u);
  }

  /** The exchange fails exactly when an amount is not positive, the giver does not have what it gives,
      or what it receives would not fit. */
  lemma SwapFails(h: Holdings, id: NodeID, give: UnitID, giveAmount: Amount, get: UnitID, getAmount: Amount)
    ensures Swap(h, id, give, giveAmount, get, getAmount).None?
       <==> giveAmount <= 0 || getAmount <= 0 || Cell(h, id, give) < giveAmount
            || Cell(h, id, get) - If(get == give, giveAmount) + getAmount > MAX_INT64
  {
    if giveAmount > 0 && Cell(h, id, give) >= giveAmount {
      CellAfterPut(h, id, give, Cell(h, id, give) - giveAmount, id, get);
    }
  }

  // ---- Ledger ----

  function Volume(history: seq<Observation>): int {
    if history == [] then 0 else Volume(history[..|history| - 1]) + history[|history| - 1].volume
  }

  lemma VolumeAppend(history: seq<Observation>, o: Observation)
    ensures Volume(history + [o]) == Volume(history) + o.volume
  {
    assert (history + [o])[..|history|] == history;
  }

  /** For one unit: the settled volume is the sum of the recorded trades and the recorded trade flow,
      and no more was paid than traded. */
  predicate LedgerAgrees(b: Books, u: UnitID) {
    && Settled(b, u) == Volume(HistoryOf(b, u)) == FlowOf(b, u).trade
    && 0 <= FlowOf(b, u).payment <= FlowOf(b, u).trade
  }

  ghost predicate Ledger(b: Books) {
    forall u :: LedgerAgrees(b, u)
  }

  lemma FreshLedger(h: Holdings)
    ensures Ledger(Books(h, map[], map[], map[], map[]))
  {}

  /** A node reopened from its store has its flow but no history, so its ledger agrees only if nothing was
      ever recorded. */
  lemma ReopenedLedger(h: Holdings, flow: map<UnitID, FlowRecord>)
    ensures Ledger(Books(h, map[], map[], map[], flow))
       <==> forall u :: u in flow ==> flow[u].trade == 0 && flow[u].payment == 0
  {
    var b := Books(h, map[], map[], map[], flow);
    forall u ensures LedgerAgrees(b, u) <==> (u in flow ==> flow[u].trade == 0 && flow[u].payment == 0) {}
  }

  /** Whatever the ledger was before: trade flow, settled volume and history grow by the same amount, and the
      payment flow by no more. */
  predicate GrowTogether(a: Books, b: Books, u: UnitID) {
    && FlowOf(b, u).trade - FlowOf(a, u).trade == Settled(b, u) - Settled(a, u)
    && Volume(HistoryOf(b, u)) - Volume(HistoryOf(a, u)) == Settled(b, u) - Settled(a, u)
    && 0 <= FlowOf(b, u).payment - FlowOf(a, u).payment <= Settled(b, u) - Settled(a, u)
  }

  lemma TradeFlowEffect(b: Books, v: UnitID, amount: Amount, u: UnitID)
    requires amount > 0 && RecordTradeFlow(b, v, amount).Some?
    ensures var c := RecordTradeFlow(b, v, amount).value;
      && FlowOf(c, u) == FlowOf(b, u).(trade := FlowOf(c, u).trade)
      && FlowOf(c, u).trade == FlowOf(b, u).trade + If(u == v, amount)
      && Settled(c, u) == Settled(b, u) && HistoryOf(c, u) == HistoryOf(b, u) && c.holdings == b.holdings
  {}

  lemma PaymentFlowEffect(b: Books, v: UnitID, amount: Amount, u: UnitID)
    requires amount > 0 && RecordPaymentFlow(b, v, amount).Some?
    ensures var c := RecordPaymentFlow(b, v, amount).value;
      && FlowOf(c, u) == FlowOf(b, u).(payment := FlowOf(c, u).payment)
      && FlowOf(c, u).payment == FlowOf(b, u).payment + If(u == v, amount)
      && Settled(c, u) == Settled(b, u) && HistoryOf(c, u) == HistoryOf(b, u) && c.holdings == b.holdings
  {}

  lemma ObservationEffect(b: Books, v: UnitID, volume: Amount, now: int64, u: UnitID)
    requires volume > 0 && RecordObservation(b, v, volume, now).Some?
    ensures var c := RecordObservation(b, v, volume, now).value;
      && FlowOf(c, u) == FlowOf(b, u) && c.holdings == b.holdings
      && Settled(c, u) == Settled(b, u) + If(u == v, volume)
      && Volume(HistoryOf(c, u)) == Volume(HistoryOf(b, u)) + If(u == v, volume)
  {
    VolumeAppend(HistoryOf(b, v), Observation(volume, now));
  }

  /** What recording a trade does to the ledger of each unit, whether or not the two units differ. */
  lemma RecordedEffect(b: Books, q: Quote, now: int64, u: UnitID)
    requires q.sellAmount > 0 && q.buyAmount > 0 && Recorded(b, q, now).Some?
    ensures var c := Recorded(b, q, now).value;
      var traded := If(u == q.sellUnit, q.sellAmount) + If(u == q.buyUnit, q.buyAmount);
      && FlowOf(c, u).trade == FlowOf(b, u).trade + traded
      && FlowOf(c, u).payment == FlowOf(b, u).payment + If(u == q.buyUnit, q.buyAmount)
      && Settled(c, u) == Settled(b, u) + traded
      && Volume(HistoryOf(c, u)) == Volume(HistoryOf(b, u)) + traded
      && c.holdings == b.holdings
      && FlowOf(c, u).consumption == FlowOf(b, u).consumption && FlowOf(c, u).demand == FlowOf(b, u).demand
  {
    TradeFlowEffect(b, q.sellUnit, q.sellAmount, u);
    var b1 := RecordTradeFlow(b, q.sellUnit, q.sellAmount).value;
    TradeFlowEffect(b1, q.buyUnit, q.buyAmount, u);
    var b2 := RecordTradeFlow(b1, q.buyUnit, q.buyAmount).value;
    PaymentFlowEffect(b2, q.buyUnit, q.buyAmount, u);
    var b3 := RecordPaymentFlow(b2, q.buyUnit, q.buyAmount).value;
    ObservationEffect(b3, q.sellUnit, q.sellAmount, now, u);
    var b4 := RecordObservation(b3, q.sellUnit, q.sellAmount, now).value;
    ObservationEffect(b4, q.buyUnit, q.buyAmount, now, u);
  }

  lemma ObservationAppends(b: Books, v: UnitID, volume: Amount, now: int64, u: UnitID)
    requires volume > 0 && RecordObservation(b, v, volume, now).Some?
    ensures var c := RecordObservation(b, v, volume, now).value;
      && HistoryOf(c, u) == HistoryOf(b, u) + (if u == v then [Observation(volume, now)] else [])
      && (u in c.lastTrade <==> u == v || u in b.lastTrade)
      && (u in c.lastTrade ==> c.lastTrade[u] == if u == v then now else b.lastTrade[u])
  {}

  /** What recording a trade appends to the history of each unit, in which order and at what time: first what was
      sold, then what it was bought with, both now; the history of other units and their last trade stay. */
  lemma RecordedHistory(b: Books, q: Quote, now: int64, u: UnitID)
    requires q.sellAmount > 0 && q.buyAmount > 0 && Recorded(b, q, now).Some?
    ensures var c := Recorded(b, q, now).value;
      && HistoryOf(c, u) == HistoryOf(b, u)
           + (if u == q.sellUnit then [Observation(q.sellAmount, now)] else [])
           + (if u == q.buyUnit then [Observation(q.buyAmount, now)] else [])
      && (u in c.lastTrade <==> u == q.sellUnit || u == q.buyUnit || u in b.lastTrade)
      && (u in c.lastTrade ==> c.lastTrade[u] == if u == q.sellUnit || u == q.buyUnit then now else b.lastTrade[u])
  {
    var b1 := RecordTradeFlow(b, q.sellUnit, q.sellAmount).value;
    var b2 := RecordTradeFlow(b1, q.buyUnit, q.buyAmount).value;
    var b3 := RecordPaymentFlow(b2, q.buyUnit, q.buyAmount).value;
    assert b3.history == b.history && b3.lastTrade == b.lastTrade;
    ObservationAppends(b3, q.sellUnit, q.sellAmount, now, u);
    var b4 := RecordObservation(b3, q.sellUnit, q.sellAmount, now).value;
    ObservationAppends(b4, q.buyUnit, q.buyAmount, now, u);
  }

  lemma RecordedKeepsLedger(b: Books, q: Quote, now: int64)
    requires q.sellAmount > 0 && q.buyAmount > 0 && Recorded(b, q, now).Some? && Ledger(b)
    ensures Ledger(Recorded(b, q, now).value)
  {
    forall u ensures LedgerAgrees(Recorded(b, q, now).value, u) {
      assert LedgerAgrees(b, u);
      RecordedEffect(b, q, now, u);
    }
  }

  // ---- One side of a trade ----

  lemma SwapAmounts(h: Holdings, id: NodeID, give: UnitID, giveAmount: Amount, get: UnitID, getAmount: Amount)
    requires Swap(h, id, give, giveAmount, get, getAmount).Some?
    ensures giveAmount > 0 && getAmount > 0 && Cell(h, id, give) >= giveAmount
  {}

  lemma SellerSideEffect(b: Books, q: Quote, now: int64, n: NodeID, u: UnitID)
    requires SellerSide(b, q, now).Some?
    ensures q.sellAmount > 0 && q.buyAmount > 0 && Cell(b.holdings, q.seller, q.sellUnit) >= q.sellAmount
    ensures Cell(SellerSide(b, q, now).value.holdings, n, u) == Cell(b.holdings, n, u)
         - If(n == q.seller && u == q.sellUnit, q.sellAmount) + If(n == q.seller && u == q.buyUnit, q.buyAmount)
  {
    SwapAmounts(b.holdings, q.seller, q.sellUnit, q.sellAmount, q.buyUnit, q.buyAmount);
    SwapCells(b.holdings, q.seller, q.sellUnit, q.sellAmount, q.buyUnit, q.buyAmount, n, u);
    var h := Swap(b.holdings, q.seller, q.sellUnit, q.sellAmount, q.buyUnit, q.buyAmount).value;
    RecordedEffect(b.(holdings := h), q, now, u);
  }

  lemma BuyerSideEffect(b: Books, q: Quote, now: int64, n: NodeID, u: UnitID)
    requires BuyerSide(b, q, now).Some?
    ensures q.sellAmount > 0 && q.buyAmount > 0 && Cell(b.holdings, q.buyer, q.buyUnit) >= q.buyAmount
    ensures Cell(BuyerSide(b, q, now).value.holdings, n, u) == Cell(b.holdings, n, u)
         - If(n == q.buyer && u == q.buyUnit, q.buyAmount) + If(n == q.buyer && u == q.sellUnit, q.sellAmount)
  {
    SwapAmounts(b.holdings, q.buyer, q.buyUnit, q.buyAmount, q.sellUnit, q.sellAmount);
    SwapCells(b.holdings, q.buyer, q.buyUnit, q.buyAmount, q.sellUnit, q.sellAmount, n, u);
    var h := Swap(b.holdings, q.buyer, q.buyUnit, q.buyAmount, q.sellUnit, q.sellAmount).value;
    RecordedEffect(b.(holdings := h), q, now, u);
  }

  lemma LedgerIgnoresHoldings(b: Books, h: Holdings)
    requires Ledger(b)
    ensures Ledger(b.(holdings := h))
  {
    forall u ensures LedgerAgrees(b.(holdings := h), u) { assert LedgerAgrees(b, u); }
  }

  lemma SidesKeepLedger(s: Books, b: Books, q: Quote, now: int64)
    requires Ledger(s) && Ledger(b) && SellerSide(s, q, now).Some? && BuyerSide(b, q, now).Some?
    ensures Ledger(SellerSide(s, q, now).value) && Ledger(BuyerSide(b, q, now).value)
  {
    hide Ledger, Recorded, Swap;
    SwapAmounts(s.holdings, q.seller, q.sellUnit, q.sellAmount, q.buyUnit, q.buyAmount);
    SwapAmounts(b.holdings, q.buyer, q.buyUnit, q.buyAmount, q.sellUnit, q.sellAmount);
    var hs := Swap(s.holdings, q.seller, q.sellUnit, q.sellAmount, q.buyUnit, q.buyAmount).value;
    var hb := Swap(b.holdings, q.buyer, q.buyUnit, q.buyAmount, q.sellUnit, q.sellAmount).value;
    LedgerIgnoresHoldings(s, hs);
    LedgerIgnoresHoldings(b, hb);
    RecordedKeepsLedger(s.(holdings := hs), q, now);
    RecordedKeepsLedger(b.(holdings := hb), q, now);
  }

  lemma SidesGrow(s: Books, b: Books, q: Quote, now: int64, u: UnitID)
    requires SellerSide(s, q, now).Some? && BuyerSide(b, q, now).Some?
    ensures GrowTogether(s, SellerSide(s, q, now).value, u) && GrowTogether(b, BuyerSide(b, q, now).value, u)
  {
    hide Recorded, Swap;
    SwapAmounts(s.holdings, q.seller, q.sellUnit, q.sellAmount, q.buyUnit, q.buyAmount);
    SwapAmounts(b.holdings, q.buyer, q.buyUnit, q.buyAmount, q.sellUnit, q.sellAmount);
    var hs := Swap(s.holdings, q.seller, q.sellUnit, q.sellAmount, q.buyUnit, q.buyAmount).value;
    var hb := Swap(b.holdings, q.buyer, q.buyUnit, q.buyAmount, q.sellUnit, q.sellAmount).value;
    RecordedEffect(s.(holdings := hs), q, now, u);
    RecordedEffect(b.(holdings := hb), q, now, u);
  }

  // ---- The whole execution ----

  function Balance(s: NodeState, u: UnitID): Amount {
    Cell(s.books.holdings, s.id, u)
  }

  lemma DoneMeans(s: NodeState, b: NodeState, sv: StoreView, bv: StoreView, same: bool, r: Request, persisted: bool)
    requires Execute(s, b, sv, bv, same, r, persisted).outcome.Done?
    ensures var e, q, now := Execute(s, b, sv, bv, same, r, persisted), r.quote, r.sellerSig.intent.timestamp;
      && s.id == q.seller && b.id == q.buyer && s.id != b.id && RowPositive(s) && RowPositive(b)
      && SellerSide(s.books, q, now).Some? && BuyerSide(b.books, q, now).Some?
      && e.seller == Committed(s, SellerSide(s.books, q, now).value, AuthIdOf(r))
      && e.buyer == Committed(b, BuyerSide(b.books, q, now).value, AuthIdOf(r))
      && NotReplayed(s, b, sv, bv, AuthIdOf(r))
  {}

  lemma SidesConserve(s: Books, b: Books, q: Quote, now: int64, u: UnitID)
    requires SellerSide(s, q, now).Some? && BuyerSide(b, q, now).Some?
    ensures var s', b' := SellerSide(s, q, now).value.holdings, BuyerSide(b, q, now).value.holdings;
      && Cell(s', q.seller, u) + Cell(b', q.buyer, u) == Cell(s.holdings, q.seller, u) + Cell(b.holdings, q.buyer, u)
      && (Cell(s.holdings, q.seller, u) >= 0 ==> Cell(s', q.seller, u) >= 0)
      && (Cell(b.holdings, q.buyer, u) >= 0 ==> Cell(b', q.buyer, u) >= 0)
      && (forall n :: n != q.seller ==> Cell(s', n, u) == Cell(s.holdings, n, u))
      && (forall n :: n != q.buyer ==> Cell(b', n, u) == Cell(b.holdings, n, u))
  {
    SellerSideEffect(s, q, now, q.seller, u);
    BuyerSideEffect(b, q, now, q.buyer, u);
    forall n | n != q.seller ensures Cell(SellerSide(s, q, now).value.holdings, n, u) == Cell(s.holdings, n, u) {
      SellerSideEffect(s, q, now, n, u);
    }
    forall n | n != q.buyer ensures Cell(BuyerSide(b, q, now).value.holdings, n, u) == Cell(b.holdings, n, u) {
      BuyerSideEffect(b, q, now, n, u);
    }
  }

  /** A trade that is done conserves every unit over the two parties, leaves no balance negative that
      was not, and touches no other row either of them keeps. */
  lemma DoneConserves(s: NodeState, b: NodeState, sv: StoreView, bv: StoreView, same: bool, r: Request, persisted: bool,
                      u: UnitID)
    requires Execute(s, b, sv, bv, same, r, persisted).outcome.Done?
    ensures var e := Execute(s, b, sv, bv, same, r, persisted);
      && Balance(e.seller, u) + Balance(e.buyer, u) == Balance(s, u) + Balance(b, u)
      && (Balance(s, u) >= 0 ==> Balance(e.seller, u) >= 0) && (Balance(b, u) >= 0 ==> Balance(e.buyer, u) >= 0)
      && (forall n :: n != s.id ==> Cell(e.seller.books.holdings, n, u) == Cell(s.books.holdings, n, u))
      && (forall n :: n != b.id ==> Cell(e.buyer.books.holdings, n, u) == Cell(b.books.holdings, n, u))
      && e.seller.id == s.id && e.buyer.id == b.id
  {
    DoneMeans(s, b, sv, bv, same, r, persisted);
    SidesConserve(s.books, b.books, r.quote, r.sellerSig.intent.timestamp, u);
  }

  lemma SidesExchange(s: Books, b: Books, q: Quote, now: int64, u: UnitID)
    requires SellerSide(s, q, now).Some? && BuyerSide(b, q, now).Some?
    ensures var s', b' := SellerSide(s, q, now).value, BuyerSide(b, q, now).value;
      && Cell(s'.holdings, q.seller, u)
           == Cell(s.holdings, q.seller, u) - If(u == q.sellUnit, q.sellAmount) + If(u == q.buyUnit, q.buyAmount)
      && Cell(b'.holdings, q.buyer, u)
           == Cell(b.holdings, q.buyer, u) - If(u == q.buyUnit, q.buyAmount) + If(u == q.sellUnit, q.sellAmount)
      && Recorded(s.(holdings := s'.holdings), q, now) == Some(s')
      && Recorded(b.(holdings := b'.holdings), q, now) == Some(b')
  {
    hide Recorded, Swap;
    SellerSideEffect(s, q, now, q.seller, u);
    BuyerSideEffect(b, q, now, q.buyer, u);
    SideHoldings(s, b, q, now);
  }

  /** What a done trade does to the two nodes: the seller gives what was sold and gets what was paid, the buyer
      the other way round, both append the same two observations at the time of the trade and count the same
      flow, both remember the trade, and nothing else about them changes. */
  lemma DoneExchanges(s: NodeState, b: NodeState, sv: StoreView, bv: StoreView, same: bool, r: Request, persisted: bool,
                      u: UnitID)
    requires Execute(s, b, sv, bv, same, r, persisted).outcome.Done?
    ensures var e, q := Execute(s, b, sv, bv, same, r, persisted), r.quote;
      && Balance(e.seller, u) == Balance(s, u) - If(u == q.sellUnit, q.sellAmount) + If(u == q.buyUnit, q.buyAmount)
      && Balance(e.buyer, u) == Balance(b, u) - If(u == q.buyUnit, q.buyAmount) + If(u == q.sellUnit, q.sellAmount)
      && Witnessed(s.books, e.seller.books, q, q.timestamp, u) && Witnessed(b.books, e.buyer.books, q, q.timestamp, u)
      && e.seller == s.(books := e.seller.books, executed := s.executed + {AuthIdOf(r)})
      && e.buyer == b.(books := e.buyer.books, executed := b.executed + {AuthIdOf(r)})
  {
    hide Execute, SellerSide, BuyerSide, AuthIdOf, Recorded, Witnessed;
    var q, now := r.quote, r.sellerSig.intent.timestamp;
    DoneMeans(s, b, sv, bv, same, r, persisted);
    DoneAtTimestamp(s, b, sv, bv, same, r, persisted);
    SidesExchange(s.books, b.books, q, now, u);
    var s', b' := SellerSide(s.books, q, now).value, BuyerSide(b.books, q, now).value;
    SidesPositive(s.books, q, now);
    RecordedWitnessed(s.books, s'.holdings, q, now, u);
    RecordedWitnessed(b.books, b'.holdings, q, now, u);
  }

  lemma DoneAtTimestamp(s: NodeState, b: NodeState, sv: StoreView, bv: StoreView, same: bool, r: Request,
                        persisted: bool)
    requires Execute(s, b, sv, bv, same, r, persisted).outcome.Done?
    ensures r.sellerSig.intent.timestamp == r.quote.timestamp
  {
    hide CombiningAborts, TradeValid, SellerSide, BuyerSide, AuthIdOf, VerifyTradeIntent;
  }

  lemma SidesPositive(s: Books, q: Quote, now: int64)
    requires SellerSide(s, q, now).Some?
    ensures q.sellAmount > 0 && q.buyAmount > 0
  {
    SwapAmounts(s.holdings, q.seller, q.sellUnit, q.sellAmount, q.buyUnit, q.buyAmount);
  }

  /** The records of a node before and after it traded. */
  predicate Witnessed(before: Books, after: Books, q: Quote, now: int64, u: UnitID) {
    && HistoryOf(after, u) == HistoryOf(before, u)
         + (if u == q.sellUnit then [Observation(q.sellAmount, now)] else [])
         + (if u == q.buyUnit then [Observation(q.buyAmount, now)] else [])
    && (u in after.lastTrade <==> u == q.sellUnit || u == q.buyUnit || u in before.lastTrade)
    && (u in after.lastTrade ==>
          after.lastTrade[u] == if u == q.sellUnit || u == q.buyUnit then now else before.lastTrade[u])
    && FlowOf(after, u) == FlowOf(before, u).(trade := FlowOf(after, u).trade, payment := FlowOf(after, u).payment)
    && FlowOf(after, u).trade
         == FlowOf(before, u).trade + If(u == q.sellUnit, q.sellAmount) + If(u == q.buyUnit, q.buyAmount)
    && FlowOf(after, u).payment == FlowOf(before, u).payment + If(u == q.buyUnit, q.buyAmount)
  }

  lemma RecordedWitnessed(b: Books, h: Holdings, q: Quote, now: int64, u: UnitID)
    requires q.sellAmount > 0 && q.buyAmount > 0 && Recorded(b.(holdings := h), q, now).Some?
    ensures Witnessed(b, Recorded(b.(holdings := h), q, now).value, q, now, u)
  {
    hide Recorded;
    RecordedHistory(b.(holdings := h), q, now, u);
    RecordedEffect(b.(holdings := h), q, now, u);
  }

  lemma DoneKeepsLedger(s: NodeState, b: NodeState, sv: StoreView, bv: StoreView, same: bool, r: Request,
                        persisted: bool)
    requires Ledger(s.books) && Ledger(b.books)
    ensures var e := Execute(s, b, sv, bv, same, r, persisted);
      Ledger(e.seller.books) && Ledger(e.buyer.books)
  {
    if Execute(s, b, sv, bv, same, r, persisted).outcome.Done? {
      SidesKeepLedger(s.books, b.books, r.quote, r.sellerSig.intent.timestamp);
    }
  }

  lemma DoneGrows(s: NodeState, b: NodeState, sv: StoreView, bv: StoreView, same: bool, r: Request, persisted: bool,
                  u: UnitID)
    ensures var e := Execute(s, b, sv, bv, same, r, persisted);
      GrowTogether(s.books, e.seller.books, u) && GrowTogether(b.books, e.buyer.books, u)
  {
    hide SellerSide, BuyerSide, Permitted, CombiningAborts, TradeValid, AuthIdOf;
    if Execute(s, b, sv, bv, same, r, persisted).outcome.Done? {
      SidesGrow(s.books, b.books, r.quote, r.sellerSig.intent.timestamp, u);
    }
  }

  // ---- Giving everything away ----

  predicate PositiveRow(h: Holdings, id: NodeID) {
    id in h ==> forall u :: u in h[id] ==> h[id][u] > 0
  }

  lemma RowsPositive(s: NodeState)
    ensures RowPositive(s) <==> PositiveRow(s.books.holdings, s.id)
  {
    if s.id in s.books.holdings { assert Row(s) == s.books.holdings[s.id]; }
  }

  /** After an exchange the row is positive exactly when something is left of what was given, or comes back
      in the same unit. */
  lemma SwapRow(h: Holdings, id: NodeID, give: UnitID, giveAmount: Amount, get: UnitID, getAmount: Amount)
    requires PositiveRow(h, id) && Swap(h, id, give, giveAmount, get, getAmount).Some?
    ensures PositiveRow(Swap(h, id, give, giveAmount, get, getAmount).value, id)
       <==> give == get || Cell(h, id, give) > giveAmount
  {
    var after := Swap(h, id, give, giveAmount, get, getAmount).value;
    forall u | u in after[id]
      ensures after[id][u] == Cell(h, id, u) - If(u == give, giveAmount) + If(u == get, getAmount)
    {
      SwapCells(h, id, give, giveAmount, get, getAmount, id, u);
      assert after[id][u] == Cell(after, id, u);
    }
    assert give in after[id];
  }

  lemma SideHoldings(s: Books, b: Books, q: Quote, now: int64)
    requires SellerSide(s, q, now).Some? && BuyerSide(b, q, now).Some?
    ensures Swap(s.holdings, q.seller, q.sellUnit, q.sellAmount, q.buyUnit, q.buyAmount)
         == Some(SellerSide(s, q, now).value.holdings)
    ensures Swap(b.holdings, q.buyer, q.buyUnit, q.buyAmount, q.sellUnit, q.sellAmount)
         == Some(BuyerSide(b, q, now).value.holdings)
  {
    SwapAmounts(s.holdings, q.seller, q.sellUnit, q.sellAmount, q.buyUnit, q.buyAmount);
    SwapAmounts(b.holdings, q.buyer, q.buyUnit, q.buyAmount, q.sellUnit, q.sellAmount);
    var hs := Swap(s.holdings, q.seller, q.sellUnit, q.sellAmount, q.buyUnit, q.buyAmount).value;
    var hb := Swap(b.holdings, q.buyer, q.buyUnit, q.buyAmount, q.sellUnit, q.sellAmount).value;
    RecordedEffect(s.(holdings := hs), q, now, q.sellUnit);
    RecordedEffect(b.(holdings := hb), q, now, q.sellUnit);
  }

  /** A party still has only positive holdings after a trade exactly when something is left of the unit it
      gave, or it gave and received the same unit; a holding given away to the last stays behind as a zero. */
  lemma GivenAwayLeavesZero(s: NodeState, b: NodeState, sv: StoreView, bv: StoreView, same: bool, r: Request,
                            persisted: bool)
    requires Execute(s, b, sv, bv, same, r, persisted).outcome.Done?
    ensures var e, q := Execute(s, b, sv, bv, same, r, persisted), r.quote;
      && (RowPositive(e.seller) <==> q.sellUnit == q.buyUnit || Balance(s, q.sellUnit) > q.sellAmount)
      && (RowPositive(e.buyer) <==> q.sellUnit == q.buyUnit || Balance(b, q.buyUnit) > q.buyAmount)
  {
    hide Execute, RowPositive, PositiveRow, Swap, SellerSide, BuyerSide, AuthIdOf;
    var e, q, now := Execute(s, b, sv, bv, same, r, persisted), r.quote, r.sellerSig.intent.timestamp;
    DoneMeans(s, b, sv, bv, same, r, persisted);
    SideHoldings(s.books, b.books, q, now);
    RowsPositive(s);
    RowsPositive(b);
    RowsPositive(e.seller);
    RowsPositive(e.buyer);
    SwapRow(s.books.holdings, s.id, q.sellUnit, q.sellAmount, q.buyUnit, q.buyAmount);
    SwapRow(b.books.holdings, b.id, q.buyUnit, q.buyAmount, q.sellUnit, q.sellAmount);
  }

  /** Both parties of a done trade can trade again exactly when neither gave all it had of a unit away for
      another unit. */
  lemma BothTradeAgain(s: NodeState, b: NodeState, sv: StoreView, bv: StoreView, same: bool, r: Request,
                       persisted: bool)
    requires Execute(s, b, sv, bv, same, r, persisted).outcome.Done?
    ensures var e, q := Execute(s, b, sv, bv, same, r, persisted), r.quote;
      !CombiningAborts(e.seller, e.buyer) <==>
        q.sellUnit == q.buyUnit || (Balance(s, q.sellUnit) > q.sellAmount && Balance(b, q.buyUnit) > q.buyAmount)
  {
    hide Execute, RowPositive, SellerSide, BuyerSide, AuthIdOf;
    GivenAwayLeavesZero(s, b, sv, bv, same, r, persisted);
    DoneMeans(s, b, sv, bv, same, r, persisted);
  }

  /** With such a zero every execution the node is permitted to take part in aborts. */
  lemma ZeroAborts(s: NodeState, b: NodeState, sv: StoreView, bv: StoreView, same: bool, r: Request, persisted: bool)
    requires !RowPositive(s) || !RowPositive(b)
    ensures var e := Execute(s, b, sv, bv, same, r, persisted);
      !e.outcome.Done? && (e.outcome.Aborted? <==> Permitted(s, b, sv, bv, same, r))
  {}
}
