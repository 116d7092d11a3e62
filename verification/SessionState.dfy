/** A handler session as a value: its five maps, and what each message does to them. */
module SessionStates {
  import opened Base
  import opened Model
  import opened Inventory
  import opened NodeStates

  datatype QuoteRequest = QuoteRequest(
    requestId: TxID,
    seller: NodeID,
    buyer: NodeID,
    sellUnit: UnitID,
    buyUnit: UnitID,
    sellAmount: Amount,
    expiryUnix: int64)

  datatype SessionState = SessionState(
    requests: map<TxID, QuoteRequest>,
    quotes: map<TxID, QuoteResponse>,
    intents: map<TxID, seq<SignedIntent>>,
    trades: map<TxID, AuthorizedTrade>,
    seen: set<TxID>,
    lastSeen: int64)

  datatype Payload =
    | Hello(nodeId: NodeID)
    | RequestQuote(request: QuoteRequest)
    | RespondQuote(quote: QuoteResponse)
    | SendIntent(quoteId: TxID, signed: SignedIntent)
    | SendTrade(auth: AuthorizedTrade, authId: TxID)
    | Result(resultId: TxID, accepted: bool)
    | Reject(code: string)
    | Ping(time: int64)
    | Pong(pingTime: int64, pongTime: int64)

  /** A message with what the envelope check and the decoder say about it. */
  datatype Message = Message(
    id: TxID, authentic: bool, sender: NodeID, timestamp: int64, decodes: bool, payload: Payload)

  /** What the local price model makes of a request. */
  datatype Priced = Priced(buyAmount: Amount, sellerAsk: Bytes, buyerBid: Bytes, executable: bool, reason: Bytes)

  /** Everything a handler asks of its surroundings while it handles one message: the clock, whether the
      node has a key and can sign replies, what the price models say, and how the store behaves. */
  datatype Env = Env(
    now: int64,
    hasKey: bool,
    replies: bool,
    agrees: bool,
    pricesAgree: bool,
    priced: Priced,
    sellerNow: int64,
    buyerNow: int64,
    sellerAgrees: bool,
    buyerAgrees: bool,
    persisted: bool)

  /** A failure may still come with a reply. */
  datatype Reply = Silent | Respond(payload: Payload) | Fail | FailWith(payload: Payload)

  // ---- Pure helpers ----

  function QuoteOf(q: QuoteResponse): Quote {
    Quote(q.seller, q.buyer, q.sellUnit, q.buyUnit, q.sellAmount, q.buyAmount, q.executable, q.expiryUnix)
  }

  /** The terms of an intent are those of the quote; who signed is not looked at. */
  predicate TermsMatch(i: TradeIntent, q: QuoteResponse) {
    && i.seller == q.seller && i.buyer == q.buyer && i.sellUnit == q.sellUnit && i.buyUnit == q.buyUnit
    && i.sellAmount == q.sellAmount && i.buyAmount == q.buyAmount && i.timestamp == q.expiryUnix
  }

  predicate IsExpired(expiryUnix: int64, now: int64) {
    expiryUnix > 0 && now > expiryUnix
  }

  predicate Fresh(request: Option<QuoteRequest>, q: QuoteResponse, now: int64) {
    && (request.Some? ==>
          && !IsExpired(request.value.expiryUnix, now)
          && (request.value.expiryUnix > 0 ==> q.expiryUnix != 0 && q.expiryUnix <= request.value.expiryUnix))
    && !IsExpired(q.expiryUnix, now)
  }

  function Lookup<V>(m: map<TxID, V>, id: TxID): Option<V> {
    if id in m then Some(m[id]) else None
  }

  predicate StillFresh(s: SessionState, q: QuoteResponse, now: int64) {
    Fresh(Lookup(s.requests, q.requestId), q, now)
  }

  predicate Owns(local: NodeID, peer: NodeID, seller: NodeID, buyer: NodeID) {
    (seller == local && buyer == peer) || (seller == peer && buyer == local)
  }

  function IntentsOf(s: SessionState, id: TxID): seq<SignedIntent> {
    if id in s.intents then s.intents[id] else []
  }

  predicate HasParty(intents: seq<SignedIntent>, party: NodeID) {
    exists i :: 0 <= i < |intents| && intents[i].intent.party == party
  }

  /** Payloads that mean something, as the message layer checks before a handler sees them. */
  predicate Meaningful(p: Payload) {
    match p
    case RequestQuote(r) =>
      && r.requestId != ZERO_TX_ID && r.seller != ZERO_NODE_ID && r.buyer != ZERO_NODE_ID && r.seller != r.buyer
      && r.sellAmount > 0 && r.expiryUnix >= 0
    case RespondQuote(q) =>
      && q.requestId != ZERO_TX_ID && q.quoteId != ZERO_TX_ID && q.seller != ZERO_NODE_ID && q.buyer != ZERO_NODE_ID
      && q.sellAmount > 0 && (q.executable ==> q.buyAmount > 0) && q.expiryUnix >= 0
    case SendIntent(id, signed) => id != ZERO_TX_ID && VerifyTradeIntent(signed)
    case SendTrade(auth, id) => id != ZERO_TX_ID && id == AuthorizedTradeID(auth)
    case Result(id, _) => id != ZERO_TX_ID
    case Reject(code) => code != ""
    case Ping(time) => time > 0
    case Pong(pingTime, time) => pingTime > 0 && time > 0
    case Hello(_) => true
  }

  // ---- Clearing ----

  predicate TradeMatches(t: AuthorizedTrade, q: QuoteResponse) {
    TermsMatch(t.sellerAuth.intent, q) && TermsMatch(t.buyerAuth.intent, q)
  }

  /** The negotiation of one quote is over: its quote, intents, request and trades are gone. */
  function ClearNegotiation(s: SessionState, id: TxID, q: QuoteResponse, authId: TxID): SessionState {
    s.(quotes := s.quotes - {id},
       intents := s.intents - {id},
       requests := s.requests - {q.requestId},
       trades := map t | t in s.trades && (t != authId || authId == ZERO_TX_ID) && !TradeMatches(s.trades[t], q)
                 :: s.trades[t])
  }

  /** The negotiations of a set of quotes are over. */
  function ClearAll(s: SessionState, ids: set<TxID>): SessionState {
    s.(quotes := s.quotes - ids,
       intents := s.intents - ids,
       requests := map r | r in s.requests && (forall id :: id in ids && id in s.quotes ==> s.quotes[id].requestId != r)
                   :: s.requests[r],
       trades := map t | t in s.trades
                   && (forall id :: id in ids && id in s.quotes ==> !TradeMatches(s.trades[t], s.quotes[id]))
                 :: s.trades[t])
  }

  function QuotesFor(s: SessionState, requestId: TxID): set<TxID> {
    set id | id in s.quotes && s.quotes[id].requestId == requestId
  }

  function ClearRequest(s: SessionState, requestId: TxID): SessionState {
    var cleared := ClearAll(s, QuotesFor(s, requestId));
    cleared.(requests := cleared.requests - {requestId})
  }

  /** The pending requests that have expired, and the quotes that go with them or have expired themselves. */
  function ExpiredRequests(s: SessionState, now: int64): set<TxID> {
    set id | id in s.requests && IsExpired(s.requests[id].expiryUnix, now)
  }

  function ExpiredQuotes(s: SessionState, now: int64): set<TxID> {
    set id | id in s.quotes && (s.quotes[id].requestId in ExpiredRequests(s, now) || IsExpired(s.quotes[id].expiryUnix, now))
  }

  function PruneExpired(s: SessionState, now: int64): SessionState {
    var cleared := ClearAll(s, ExpiredQuotes(s, now));
    cleared.(requests := cleared.requests - ExpiredRequests(s, now))
  }

  // ---- Signing and replying ----

  function Send(env: Env, p: Payload): Reply {
    if env.replies then Respond(p) else Fail
  }

  /** The local node's intent for a quote, if it still wants to sign it. */
  function SignQuote(node: NodeState, q: Quote, env: Env): Option<SignedIntent> {
    if q.executable && (node.id == q.seller || node.id == q.buyer) && env.hasKey && q.timestamp > 0
       && AcceptsQuote(node, q, env.agrees)
    then Some(SignTradeIntent(node.id, IntentFromQuote(q, node.id)))
    else None
  }

  // ---- Messages ----

  /** The quote the local node, as seller, answers a request with. */
  function QuoteSell(node: NodeState, r: QuoteRequest, env: Env): QuoteResponse {
    var ok := env.priced.executable && env.priced.buyAmount > 0 && node.id != r.buyer && r.sellAmount > 0
              && Cell(node.books.holdings, node.id, r.sellUnit) >= r.sellAmount;
    var q := QuoteResponse(r.requestId, ZERO_TX_ID, node.id, r.buyer, r.sellUnit, r.buyUnit, r.sellAmount,
                           env.priced.buyAmount, env.priced.sellerAsk, env.priced.buyerBid, ok, env.priced.reason, env.now);
    q.(quoteId := QuoteIDFor(q))
  }

  function OnRequest(node: NodeState, peer: NodeID, s: SessionState, r: QuoteRequest, env: Env): (SessionState, Reply) {
    if r.seller != node.id || r.buyer != peer then (s, Send(env, Reject("INVALID_ROLE")))
    else if IsExpired(r.expiryUnix, env.now) then (ClearRequest(s, r.requestId), Send(env, Reject("QUOTE_EXPIRED")))
    else
      var asked := s.(requests := s.requests[r.requestId := r]);
      var q := QuoteSell(node, r, env);
      if !Meaningful(RespondQuote(q)) then (asked, Fail)
      else (asked.(quotes := asked.quotes[q.quoteId := q]), Send(env, RespondQuote(q)))
  }

  predicate AnswersRequest(q: QuoteResponse, r: QuoteRequest) {
    && q.requestId == r.requestId && q.seller == r.seller && q.buyer == r.buyer && q.sellUnit == r.sellUnit
    && q.buyUnit == r.buyUnit && q.sellAmount == r.sellAmount
  }

  function OnResponse(node: NodeState, peer: NodeID, s: SessionState, q: QuoteResponse, env: Env): (SessionState,
                      Reply) {
    if !Owns(node.id, peer, q.seller, q.buyer) then (s, Send(env, Reject("INVALID_ROLE")))
    else if q.requestId !in s.requests then (s, Send(env, Reject("UNEXPECTED_QUOTE_RESPONSE")))
    else
      var r := s.requests[q.requestId];
      var timely := Fresh(Some(r), q, env.now);
      if !AnswersRequest(q, r) || !timely || (q.executable && !env.pricesAgree) then
        (if timely then s else ClearRequest(s, q.requestId), Send(env, Reject("QUOTE_MISMATCH")))
      else if QuoteIDFor(q) != q.quoteId then (s, Send(env, Reject("QUOTE_ID_MISMATCH")))
      else
        var stored := s.(quotes := s.quotes[q.quoteId := q]);
        if !q.executable then (stored, Silent)
        else
          match SignQuote(node, QuoteOf(q), env)
          case None => (stored, Send(env, Reject("SIGN_INTENT_FAILED")))
          case Some(signed) =>
            (stored.(intents := stored.intents[q.quoteId := IntentsOf(stored, q.quoteId) + [signed]]),
             Send(env, SendIntent(q.quoteId, signed)))
  }

  /** The last intent of a party, if it has one that is signed. */
  function LastOf(intents: seq<SignedIntent>, party: NodeID): Option<SignedIntent> {
    if intents == [] then None
    else if intents[|intents| - 1].intent.party == party then Some(intents[|intents| - 1])
    else LastOf(intents[..|intents| - 1], party)
  }

  /** With intents of both parties at hand the trade is built and offered. */
  function OfferTrade(s: SessionState, q: QuoteResponse, intents: seq<SignedIntent>, env: Env): (SessionState, Reply) {
    var sellerSig := LastOf(intents, q.seller);
    var buyerSig := if q.buyer == q.seller then None else LastOf(intents, q.buyer);
    if sellerSig.None? || buyerSig.None? || sellerSig.value.signature.NoSig? || buyerSig.value.signature.NoSig? then
      (s, Silent)
    else
      var auth := Authorize(QuoteOf(q), q.expiryUnix, sellerSig.value, buyerSig.value);
      var id := AuthorizedTradeID(auth);
      (s.(trades := s.trades[id := auth]), Send(env, SendTrade(auth, id)))
  }

  function OnIntent(node: NodeState, peer: NodeID, s: SessionState, id: TxID, signed: SignedIntent, env: Env)
    : (SessionState, Reply)
  {
    if id !in s.quotes then (s, Send(env, Reject("UNEXPECTED_SIGNED_INTENT")))
    else
      var q := s.quotes[id];
      if !StillFresh(s, q, env.now) then (ClearNegotiation(s, id, q, ZERO_TX_ID), Send(env, Reject("QUOTE_EXPIRED")))
      else if !Owns(node.id, peer, q.seller, q.buyer) then (s, Send(env, Reject("INVALID_ROLE")))
      else if signed.intent.party != peer then (s, Send(env, Reject("INVALID_ROLE")))
      else if !TermsMatch(signed.intent, q) then (s, Send(env, Reject("INTENT_MISMATCH")))
      else if HasParty(IntentsOf(s, id), signed.intent.party) then (s, Send(env, Reject("DUPLICATE_INTENT")))
      else AddIntents(node, s, id, q, IntentsOf(s, id) + [signed], env)
  }

  /** The peer's intent is in; the local one joins it if it is not there yet. */
  function AddIntents(node: NodeState, s: SessionState, id: TxID, q: QuoteResponse, intents: seq<SignedIntent>,
                      env: Env)
    : (SessionState, Reply)
  {
    var one := s.(intents := s.intents[id := intents]);
    if !HasParty(intents, node.id) && (node.id == q.seller || node.id == q.buyer) then
      match SignQuote(node, QuoteOf(q), env)
      case None => (one, Send(env, Reject("SIGN_INTENT_FAILED")))
      case Some(mine) => OfferTrade(one.(intents := one.intents[id := intents + [mine]]), q, intents + [mine], env)
    else OfferTrade(one, q, intents, env)
  }

  /** Everything but an authorized trade; none of it touches the node. */
  function OnOther(node: NodeState, peer: NodeID, s: SessionState, p: Payload, env: Env): (SessionState, Reply)
    requires !p.SendTrade?
  {
    match p
    case Hello(id) => (s, if id == peer then Silent else Fail)
    case RequestQuote(r) => OnRequest(node, peer, s, r, env)
    case RespondQuote(q) => OnResponse(node, peer, s, q, env)
    case SendIntent(id, signed) => OnIntent(node, peer, s, id, signed, env)
    case Result(id, _) => (s, if id in s.trades then Silent else Fail)
    case Reject(_) => (s, Silent)
    case Ping(time) => (s, Send(env, Pong(time, env.now)))
    case Pong(_, time) => (s.(lastSeen := time), Silent)
  }

  // ---- Authorized trades ----

  predicate Candidate(local: NodeID, peer: NodeID, s: SessionState, id: TxID, auth: AuthorizedTrade) {
    && id in s.quotes && Owns(local, peer, s.quotes[id].seller, s.quotes[id].buyer)
    && TradeMatches(auth, s.quotes[id])
  }

  /** Both signed intents are exactly the ones this session holds for the quote. */
  predicate Bound(local: NodeID, peer: NodeID, s: SessionState, id: TxID, auth: AuthorizedTrade) {
    var buying := local == auth.buyerAuth.intent.party;
    var mine, theirs := if buying then auth.buyerAuth else auth.sellerAuth, if buying then auth.sellerAuth else auth.buyerAuth;
    && mine.intent.party == local && theirs.intent.party == peer
    && mine in IntentsOf(s, id) && theirs in IntentsOf(s, id)
  }

  datatype Negotiated = Refused(session: SessionState) | Agreed(session: SessionState, quote: QuoteResponse)

  /** What one matching quote says about an authorized trade. */
  function Negotiate(local: NodeID, peer: NodeID, s: SessionState, auth: AuthorizedTrade, authId: TxID, now: int64,
                     id: TxID)
    : Negotiated
    requires id in s.quotes
  {
    var q := s.quotes[id];
    var rebuilt := Authorize(QuoteOf(q), q.expiryUnix, auth.sellerAuth, auth.buyerAuth);
    if !StillFresh(s, q, now) then Refused(ClearNegotiation(s, id, q, authId))
    else if auth.sellerAuth.intent.party != q.seller || auth.buyerAuth.intent.party != q.buyer then Refused(s)
    else if !Bound(local, peer, s, id, auth) then Refused(s)
    else if AuthorizedTradeID(rebuilt) != authId then Refused(s)
    else if authId in s.trades && AuthorizedTradeID(s.trades[authId]) != authId then Refused(s)
    else Agreed(s.(trades := s.trades[authId := rebuilt]), q)
  }

  function ShadowAmount(amount: Amount): Amount
    requires amount > 0
  {
    if amount <= MAX_INT64 / 10 then amount * 10 else amount
  }

  /** The stand-in for the peer: it holds enough of what the peer has to give, and nothing else. */
  function Shadow(id: NodeID, unit: UnitID, amount: Amount, key: Bytes): NodeState
    requires amount > 0
  {
    NodeState(id, key, Books(map[id := map[unit := ShadowAmount(amount)]], map[], map[], map[], map[]), {}, false)
  }

  function RequestOf(q: QuoteResponse, auth: AuthorizedTrade, env: Env): Request {
    Request(QuoteOf(q), auth.sellerAuth, auth.buyerAuth, env.sellerNow, env.buyerNow, env.sellerAgrees, env.buyerAgrees, true)
  }

  /** What the peer hands over; its shadow cannot be set up with an amount that is not positive. */
  function PeerGives(node: NodeState, q: QuoteResponse): Amount {
    if node.id == q.seller then q.buyAmount else q.sellAmount
  }

  /** The execution of a negotiated trade on the local node and a shadow of the peer. */
  ghost function RunTrade(node: NodeState, sv: StoreView, q: QuoteResponse, auth: AuthorizedTrade, env: Env): Execution
    requires PeerGives(node, q) > 0
  {
    if node.id == q.seller then
      Execute(node, Shadow(q.buyer, q.buyUnit, q.buyAmount, auth.buyerAuth.publicKey), sv, None, sv.None?,
              RequestOf(q, auth, env), env.persisted)
    else
      Execute(Shadow(q.seller, q.sellUnit, q.sellAmount, auth.sellerAuth.publicKey), node, None, sv, sv.None?,
              RequestOf(q, auth, env), env.persisted)
  }

  function LocalAfter(node: NodeState, q: QuoteResponse, e: Execution): NodeState {
    if node.id == q.seller then e.seller else e.buyer
  }

  /** The checks before a matching quote is looked for. */
  predicate Plausible(local: NodeID, peer: NodeID, auth: AuthorizedTrade) {
    var i := auth.sellerAuth.intent;
    && VerifyTradeIntent(auth.sellerAuth) && VerifyTradeIntent(auth.buyerAuth)
    && (if local == i.seller then peer == i.buyer else local == i.buyer && peer == i.seller)
  }

  datatype TradeStep = TradeStep(session: SessionState, node: NodeState, reply: Reply, done: bool)

  /** Executing an agreed trade, and what the session keeps of it afterwards. */
  ghost function CarryOut(node: NodeState, sv: StoreView, t: SessionState, q: QuoteResponse, auth: AuthorizedTrade,
                          authId: TxID, env: Env, id: TxID): TradeStep
  {
    if PeerGives(node, q) <= 0 then TradeStep(t, node, Fail, false)
    else
      var e := RunTrade(node, sv, q, auth, env);
      var held := t.(trades := t.trades[authId := auth]);
      if e.outcome.Aborted? then TradeStep(t, node, Fail, false)
      else if e.outcome.Failed? then
        TradeStep(held, node, if env.replies then FailWith(Result(authId, false)) else Fail, false)
      else if !env.replies then TradeStep(held, LocalAfter(node, q, e), Fail, true)
      else TradeStep(ClearNegotiation(held, id, q, authId), LocalAfter(node, q, e), Respond(Result(authId, true)), true)
  }

  /** What an authorized trade does once the search has settled on a quote, or on none. */
  ghost function OnTrade(node: NodeState, sv: StoreView, peer: NodeID, s: SessionState, auth: AuthorizedTrade,
                         authId: TxID,
                         env: Env, found: Option<TxID>): TradeStep
    requires found.Some? ==> found.value in s.quotes
  {
    if !Plausible(node.id, peer, auth) || found.None? then TradeStep(s, node, Fail, false)
    else
      match Negotiate(node.id, peer, s, auth, authId, env.now, found.value)
      case Refused(t) => TradeStep(t, node, Fail, false)
      case Agreed(t, q) => CarryOut(node, sv, t, q, auth, authId, env, found.value)
  }

  /** Executing marks the trade in the store; a persist call that fails may have marked it too. */
  predicate MarksAfter(s: SessionState, before: StoreView, p: Payload, env: Env, found: Option<TxID>, done: bool,
                       after: StoreView)
  {
    if done then
      && p.SendTrade? && found.Some? && found.value in s.quotes && before.Some?
      && after == Some(before.value + {AuthIdOf(RequestOf(s.quotes[found.value], p.auth, env))})
    else MarksKept(before, after)
  }

  predicate MarksKept(before: StoreView, after: StoreView) {
    after.Some? == before.Some? && (after.Some? ==> before.value <= after.value)
  }

  // ---- Dispatch ----

  /** The search goes through the pending quotes in any order and settles on one that matches, if any. */
  ghost predicate Settles(local: NodeID, peer: NodeID, s: SessionState, p: Payload, found: Option<TxID>) {
    p.SendTrade? ==>
      match found
      case Some(id) => Candidate(local, peer, s, id, p.auth)
      case None => forall id :: id in s.quotes ==> !Candidate(local, peer, s, id, p.auth)
  }

  ghost predicate MayReceive(node: NodeState, peer: NodeID, s: SessionState, m: Message, found: Option<TxID>) {
    Settles(node.id, peer, s, m.payload, found)
  }

  /** What handling one message comes to. */
  ghost function Handle(node: NodeState, sv: StoreView, peer: NodeID, s: SessionState, m: Message, env: Env,
                        found: Option<TxID>): TradeStep
    requires MayReceive(node, peer, s, m, found)
  {
    if !m.authentic || m.sender != peer || m.id in s.seen then TradeStep(s, node, Fail, false)
    else
      var marked := s.(seen := s.seen + {m.id});
      if !m.decodes || !Meaningful(m.payload) then TradeStep(marked, node, Fail, false)
      else
        var heard := marked.(lastSeen := m.timestamp);
        if m.payload.SendTrade? then OnTrade(node, sv, peer, heard, m.payload.auth, m.payload.authId, env, found)
        else
          var r := OnOther(node, peer, heard, m.payload, env);
          TradeStep(r.0, node, r.1, false)
  }
}
