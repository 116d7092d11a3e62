/** What a node keeps, as a value, and what executing a signed trade does to it. */
module NodeStates {
  import opened Base
  import opened Model
  import opened Inventory
  import opened Trades

  datatype Observation = Observation(volume: Amount, time: int64)

  datatype FlowRecord = FlowRecord(trade: Amount, payment: Amount, consumption: Amount, demand: Amount)

  /** The part of a node a trade changes. */
  datatype Books = Books(
    holdings: Holdings,
    history: map<UnitID, seq<Observation>>,
    settled: map<UnitID, Amount>,
    lastTrade: map<UnitID, int64>,
    flow: map<UnitID, FlowRecord>)

  datatype NodeState = NodeState(id: NodeID, publicKey: Bytes, books: Books, executed: set<TxID>, ephemeral: bool)

  const MAX_SIGNED_INTENT_AGE: int64 := 24 * 60 * 60

  function Settled(b: Books, u: UnitID): Amount {
    if u in b.settled then b.settled[u] else 0
  }

  function FlowOf(b: Books, u: UnitID): FlowRecord {
    if u in b.flow then b.flow[u] else FlowRecord(0, 0, 0, 0)
  }

  function HistoryOf(b: Books, u: UnitID): seq<Observation> {
    if u in b.history then b.history[u] else []
  }

  // ---- Bookkeeping ----

  function RecordTradeFlow(b: Books, u: UnitID, amount: Amount): Option<Books> {
    var record := FlowOf(b, u);
    if amount <= 0 then Some(b.(flow := b.flow[u := record]))
    else
      match CheckedAdd(record.trade, amount)
      case None => None
      case Some(next) => Some(b.(flow := b.flow[u := record.(trade := next)]))
  }

  function RecordPaymentFlow(b: Books, u: UnitID, amount: Amount): Option<Books> {
    var record := FlowOf(b, u);
    if amount <= 0 then Some(b.(flow := b.flow[u := record]))
    else
      match CheckedAdd(record.payment, amount)
      case None => None
      case Some(next) => Some(b.(flow := b.flow[u := record.(payment := next)]))
  }

  function RecordObservation(b: Books, u: UnitID, volume: Amount, now: int64): Option<Books> {
    if volume <= 0 then Some(b)
    else
      match CheckedAdd(Settled(b, u), volume)
      case None => None
      case Some(next) => Some(b.(
        history := b.history[u := HistoryOf(b, u) + [Observation(volume, now)]],
        settled := b.settled[u := next],
        lastTrade := b.lastTrade[u := now]))
  }

  /** What both parties record of a trade. */
  function Recorded(b: Books, q: Quote, now: int64): Option<Books> {
    match RecordTradeFlow(b, q.sellUnit, q.sellAmount)
    case None => None
    case Some(b1) =>
      match RecordTradeFlow(b1, q.buyUnit, q.buyAmount)
      case None => None
      case Some(b2) =>
        match RecordPaymentFlow(b2, q.buyUnit, q.buyAmount)
        case None => None
        case Some(b3) =>
          match RecordObservation(b3, q.sellUnit, q.sellAmount, now)
          case None => None
          case Some(b4) => RecordObservation(b4, q.buyUnit, q.buyAmount, now)
  }

  /** One party's exchange: it gives one amount and then receives the other. */
  function Swap(h: Holdings, id: NodeID, give: UnitID, giveAmount: Amount, get: UnitID,
                getAmount: Amount): Option<Holdings> {
    if giveAmount <= 0 || Cell(h, id, give) < giveAmount then None
    else
      var given := Put(h, id, give, Cell(h, id, give) - giveAmount);
      if getAmount <= 0 || Cell(given, id, get) + getAmount > MAX_INT64 then None
      else Some(Put(given, id, get, Cell(given, id, get) + getAmount))
  }

  function SellerSide(b: Books, q: Quote, now: int64): Option<Books> {
    match Swap(b.holdings, q.seller, q.sellUnit, q.sellAmount, q.buyUnit, q.buyAmount)
    case None => None
    case Some(h) => Recorded(b.(holdings := h), q, now)
  }

  function BuyerSide(b: Books, q: Quote, now: int64): Option<Books> {
    match Swap(b.holdings, q.buyer, q.buyUnit, q.buyAmount, q.sellUnit, q.sellAmount)
    case None => None
    case Some(h) => Recorded(b.(holdings := h), q, now)
  }

  // ---- Signed execution ----

  /** A request to execute, with what the clocks and the price models say at that moment. */
  datatype Request = Request(
    quote: Quote,
    sellerSig: SignedIntent,
    buyerSig: SignedIntent,
    sellerNow: int64,
    buyerNow: int64,
    sellerAgrees: bool,
    buyerAgrees: bool,
    allowPeerShadow: bool)

  /** A node's store as execution sees it: none, or which trades it has marked. */
  type StoreView = Option<set<TxID>>

  datatype Outcome = Done | Failed | Aborted

  function Max(a: int64, b: int64): int64 {
    if a > b then a else b
  }

  predicate IntentMatches(i: TradeIntent, q: Quote, party: NodeID) {
    i == IntentFromQuote(q, party)
  }

  predicate KeyAgrees(s: NodeState, sig: SignedIntent) {
    sig.publicKey == s.id && (|s.publicKey| > 0 ==> s.publicKey == sig.publicKey)
  }

  /** Both parties signed exactly the terms of the quote, recently enough. */
  predicate Authorized(s: NodeState, b: NodeState, r: Request) {
    && r.quote.executable && s.id == r.quote.seller && b.id == r.quote.buyer
    && VerifyTradeIntent(r.sellerSig) && VerifyTradeIntent(r.buyerSig)
    && KeyAgrees(s, r.sellerSig) && KeyAgrees(b, r.buyerSig)
    && IntentMatches(r.sellerSig.intent, r.quote, s.id) && IntentMatches(r.buyerSig.intent, r.quote, b.id)
    && r.quote.timestamp <= Max(r.sellerNow, r.buyerNow) <= r.quote.timestamp + MAX_SIGNED_INTENT_AGE
  }

  predicate Guarded(s: NodeState, b: NodeState, sv: StoreView, bv: StoreView, allowPeerShadow: bool) {
    if sv.Some? && bv.Some? then true
    else if sv.Some? || bv.Some? then allowPeerShadow
    else s.ephemeral && b.ephemeral
  }

  /** A node accepts a quote if it can pay its part and its price model agrees. */
  predicate AcceptsQuote(s: NodeState, q: Quote, agrees: bool) {
    && q.executable
    && (if s.id == q.seller then Cell(s.books.holdings, s.id, q.sellUnit) >= q.sellAmount && agrees
        else s.id == q.buyer && Cell(s.books.holdings, s.id, q.buyUnit) >= q.buyAmount && agrees)
  }

  function AuthOf(r: Request): AuthorizedTrade {
    Authorize(r.quote, r.sellerSig.intent.timestamp, r.sellerSig, r.buyerSig)
  }

  function AuthIdOf(r: Request): TxID {
    AuthorizedTradeID(AuthOf(r))
  }

  predicate Marked(v: StoreView, id: TxID) {
    v.Some? && id in v.value
  }

  predicate NotReplayed(s: NodeState, b: NodeState, sv: StoreView, bv: StoreView, id: TxID) {
    id !in s.executed && id !in b.executed && !Marked(sv, id) && !Marked(bv, id)
  }

  /** Every check before the two inventories are combined. */
  predicate Permitted(s: NodeState, b: NodeState, sv: StoreView, bv: StoreView, sameStore: bool, r: Request) {
    && Authorized(s, b, r) && Guarded(s, b, sv, bv, r.allowPeerShadow)
    && AcceptsQuote(s, r.quote, r.sellerAgrees) && AcceptsQuote(b, r.quote, r.buyerAgrees)
    && (sv.Some? && bv.Some? ==> sameStore)
    && NotReplayed(s, b, sv, bv, AuthIdOf(r))
  }

  function Row(s: NodeState): map<UnitID, Amount> {
    if s.id in s.books.holdings then s.books.holdings[s.id] else map[]
  }

  predicate RowPositive(s: NodeState) {
    forall u :: u in Row(s) ==> Row(s)[u] > 0
  }

  /** Combining the inventories panics on a stored holding that is not positive, and on overflow when
      both nodes have the same identifier. */
  ghost predicate CombiningAborts(s: NodeState, b: NodeState) {
    || !RowPositive(s) || !RowPositive(b)
    || (s.id == b.id && exists u :: Cell(s.books.holdings, s.id, u) + Cell(b.books.holdings, b.id, u) > MAX_INT64)
  }

  /** The two parties' own rows, side by side. */
  function Combined(s: NodeState, b: NodeState): Holdings {
    map[s.id := Row(s), b.id := Row(b)]
  }

  ghost predicate TradeValid(s: NodeState, b: NodeState, r: Request) {
    ValidTrade(AuthOf(r).tx, Combined(s, b))
  }

  function Committed(s: NodeState, books: Books, id: TxID): NodeState {
    s.(books := books, executed := s.executed + {id})
  }

  datatype Execution = Execution(outcome: Outcome, seller: NodeState, buyer: NodeState)

  /** What the checks and the preparation come to: stop, or go ahead with these books. */
  datatype Plan = Stop(outcome: Outcome) | Go(sellerBooks: Books, buyerBooks: Books)

  function PlanSides(s: NodeState, b: NodeState, q: Quote, now: int64): Plan {
    match SellerSide(s.books, q, now)
    case None => Stop(Failed)
    case Some(sellerBooks) =>
      match BuyerSide(b.books, q, now)
      case None => Stop(Failed)
      case Some(buyerBooks) => Go(sellerBooks, buyerBooks)
  }

  ghost function PlanSigned(s: NodeState, b: NodeState, sv: StoreView, bv: StoreView, sameStore: bool,
                            r: Request): Plan {
    if !Permitted(s, b, sv, bv, sameStore, r) then Stop(Failed)
    else if CombiningAborts(s, b) then Stop(Aborted)
    else if !TradeValid(s, b, r) then Stop(Failed)
    else PlanSides(s, b, r.quote, r.sellerSig.intent.timestamp)
  }

  /** Carrying out a plan with a persist call that succeeds or fails; without a store there is none. */
  function Finish(plan: Plan, s: NodeState, b: NodeState, stores: bool, id: TxID, persisted: bool): Execution {
    match plan
    case Stop(outcome) => Execution(outcome, s, b)
    case Go(sellerBooks, buyerBooks) =>
      if stores && !persisted then Execution(Failed, s, b)
      else Execution(Done, Committed(s, sellerBooks, id), Committed(b, buyerBooks, id))
  }

  /** What signed execution comes to, given whether the persist call succeeds. */
  ghost function Execute(s: NodeState, b: NodeState, sv: StoreView, bv: StoreView, sameStore: bool, r: Request,
                         persisted: bool): Execution
  {
    Finish(PlanSigned(s, b, sv, bv, sameStore, r), s, b, sv.Some? || bv.Some?, AuthIdOf(r), persisted)
  }

  /** Whether execution gets as far as a persist call. */
  ghost predicate ReachesStore(s: NodeState, b: NodeState, sv: StoreView, bv: StoreView, sameStore: bool, r: Request) {
    PlanSigned(s, b, sv, bv, sameStore, r).Go? && (sv.Some? || bv.Some?)
  }

  ghost function PlanDirect(s: NodeState, b: NodeState, q: Quote, now: int64, sellerAgrees: bool,
                            buyerAgrees: bool): Plan {
    if !q.executable || s.id != q.seller || b.id != q.buyer then Stop(Failed)
    else if !AcceptsQuote(s, q, sellerAgrees) || !AcceptsQuote(b, q, buyerAgrees) then Stop(Failed)
    else if CombiningAborts(s, b) then Stop(Aborted)
    else if !ValidTrade(BuildTradeTx(q, now), Combined(s, b)) then Stop(Failed)
    else PlanSides(s, b, q, now)
  }

  function FinishDirect(plan: Plan, s: NodeState, b: NodeState): Execution {
    match plan
    case Stop(outcome) => Execution(outcome, s, b)
    case Go(sellerBooks, buyerBooks) => Execution(Done, s.(books := sellerBooks), b.(books := buyerBooks))
  }

  /** Execution without signatures: the nodes agree on the spot, and nothing is stored. */
  ghost function ExecuteDirect(s: NodeState, b: NodeState, q: Quote, now: int64, sellerAgrees: bool, buyerAgrees: bool)
    : Execution
  {
    FinishDirect(PlanDirect(s, b, q, now, sellerAgrees, buyerAgrees), s, b)
  }
}
