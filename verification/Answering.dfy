/** The answering side of a negotiation, from the request for a quote to the executed trade. */
module Answerings {
  import opened Base
  import opened Model
  import opened Inventory
  import opened NodeStates
  import opened SessionStates
  import opened SessionLaws
  import opened AgreedTrades
  import opened Negotiations
  import SessionRuns
  import P = Preimages

  // ---- A request is answered ----

  /** The quote answers the request as its requester will check, says now, carries what the price models made of
      it, and is executable exactly if they say so with a positive amount and the seller holds what it sells. */
  predicate QuotesAsAsked(node: NodeState, r: QuoteRequest, env: Env, q: QuoteResponse) {
    && q.requestId == r.requestId && q.seller == r.seller && q.buyer == r.buyer
    && q.sellUnit == r.sellUnit && q.buyUnit == r.buyUnit && q.sellAmount == r.sellAmount
    && q.expiryUnix == env.now && QuoteIDFor(q) == q.quoteId
    && q.buyAmount == env.priced.buyAmount && q.sellerAsk == env.priced.sellerAsk
    && q.buyerBid == env.priced.buyerBid && q.reason == env.priced.reason
    && (q.executable <==>
          && env.priced.executable && env.priced.buyAmount > 0 && r.sellAmount > 0 && r.seller != r.buyer
          && Cell(node.books.holdings, node.id, r.sellUnit) >= r.sellAmount)
  }

  lemma QuoteIdStands(q: QuoteResponse)
    ensures QuoteIDFor(q.(quoteId := QuoteIDFor(q))) == QuoteIDFor(q) != ZERO_TX_ID
  {
    P.QuoteInjective(q, q.(quoteId := QuoteIDFor(q)));
    HasBytes(q);
  }

  lemma HasBytes(q: QuoteResponse)
    ensures QuoteIDFor(q) != ZERO_TX_ID
  {}

  /** A request to the seller from the peer of the session, still in time, is kept and answered: the quote is
      stored and sent, and everything else in the session stays. */
  lemma RequestIsQuoted(node: NodeState, peer: NodeID, s: SessionState, r: QuoteRequest, env: Env)
    requires r.seller == node.id && r.buyer == peer && !IsExpired(r.expiryUnix, env.now)
    requires Meaningful(RequestQuote(r)) && env.now >= 0
    ensures var (t, reply) := OnOther(node, peer, s, RequestQuote(r), env); var q := QuoteSell(node, r, env);
      && QuotesAsAsked(node, r, env, q) && AnswersRequest(q, r)
      && t == s.(requests := s.requests[r.requestId := r], quotes := s.quotes[q.quoteId := q])
      && reply == Send(env, RespondQuote(q))
  {
    hide QuoteIDFor;
    var q := QuoteSell(node, r, env);
    QuoteIdStands(q.(quoteId := ZERO_TX_ID));
  }

  /** In the wrong role, or too late, it is refused; a late one clears its negotiation. */
  lemma RequestIsRefused(node: NodeState, peer: NodeID, s: SessionState, r: QuoteRequest, env: Env)
    requires r.seller != node.id || r.buyer != peer || IsExpired(r.expiryUnix, env.now)
    ensures var (t, reply) := OnOther(node, peer, s, RequestQuote(r), env);
      if r.seller != node.id || r.buyer != peer then t == s && reply == Send(env, Reject("INVALID_ROLE"))
      else t == ClearRequest(s, r.requestId) && reply == Send(env, Reject("QUOTE_EXPIRED"))
  {
    hide SessionStates.ClearRequest;
  }

  /** What the seller answers, the requester takes: it stores the quote as long as the second it was made in
      lasts, its request is still open and its own prices agree. */
  lemma QuoteIsTaken(seller: NodeState, buyer: NodeState, s: SessionState, r: QuoteRequest, env: Env, mine: Env)
    requires r.seller == seller.id && r.buyer == buyer.id && Meaningful(RequestQuote(r)) && env.now > 0
    requires r.requestId in s.requests && s.requests[r.requestId] == r
    requires !IsExpired(r.expiryUnix, env.now) && mine.now <= env.now && mine.pricesAgree
    ensures var q := QuoteSell(seller, r, env);
      var t := OnOther(buyer, seller.id, s, RespondQuote(q), mine).0;
      t.quotes == s.quotes[q.quoteId := q] && t.requests == s.requests
  {
    hide QuoteIDFor, SignQuote;
    var q := QuoteSell(seller, r, env);
    QuoteIdStands(q.(quoteId := ZERO_TX_ID));
  }

  // ---- The requester's intent arrives first ----

  /** The peer's intent is kept, the local node signs its own, the trade becomes pending under its identifier
      and is offered. */
  lemma IntentIsJoined(node: NodeState, peer: NodeID, s: SessionState, q: QuoteResponse, env: Env)
    requires Owns(node.id, peer, q.seller, q.buyer) && node.id != peer && env.replies
    requires q.quoteId in s.quotes && s.quotes[q.quoteId] == q && StillFresh(s, q, env.now)
    requires IntentsOf(s, q.quoteId) == [] && SignQuote(node, QuoteOf(q), env).Some?
    ensures var (t, reply) := OnOther(node, peer, s, SendIntent(q.quoteId, LocalIntent(peer, q)), env);
      && t.requests == s.requests && t.quotes == s.quotes && t.seen == s.seen
      && IntentsOf(t, q.quoteId) == [LocalIntent(peer, q), LocalIntent(node.id, q)] && OthersKept(t, s, q.quoteId)
      && t.trades == s.trades[AuthorizedTradeID(TradeOf(q)) := TradeOf(q)]
      && reply == Respond(SendTrade(TradeOf(q), AuthorizedTradeID(TradeOf(q))))
  {
    hide StillFresh, BuildTradeTx, AuthorizedTradeID, OfferTrade, TradeOf, SignQuote;
    SignedIsLocal(node, peer, q, env);
    var mine, theirs := LocalIntent(node.id, q), LocalIntent(peer, q);
    assert [] + [theirs] == [theirs] && [theirs] + [mine] == [theirs, mine];
    assert !HasParty([theirs], node.id);
    var one := s.(intents := s.intents[q.quoteId := [theirs]]);
    BothAreOffered(one.(intents := one.intents[q.quoteId := [theirs, mine]]), q, peer, node.id, env);
    assert AddIntents(node, s, q.quoteId, q, [theirs], env)
        == OfferTrade(one.(intents := one.intents[q.quoteId := [theirs, mine]]), q, [theirs, mine], env);
  }

  // ---- The whole negotiation ----

  /** The three messages of a requester that asks, signs and sends the trade it was offered. */
  ghost predicate Asks(peer: NodeID, s: SessionState, r: QuoteRequest, q: QuoteResponse, first: Message,
                       second: Message, third: Message) {
    && Delivered(first, peer, RequestQuote(r))
    && Delivered(second, peer, SendIntent(q.quoteId, LocalIntent(peer, q)))
    && Delivered(third, peer, SendTrade(TradeOf(q), AuthorizedTradeID(TradeOf(q))))
    && first.id !in s.seen && second.id !in s.seen && third.id !in s.seen
    && first.id != second.id && first.id != third.id && second.id != third.id
  }

  lemma RequestArrives(node: NodeState, sv: StoreView, peer: NodeID, s: SessionState, r: QuoteRequest, m: Message,
                       env: Env)
    requires Invariant(node.id, peer, s) && r.seller == node.id && r.buyer == peer
    requires !IsExpired(r.expiryUnix, env.now) && env.now >= 0
    requires Delivered(m, peer, RequestQuote(r)) && m.id !in s.seen
    requires QuoteSell(node, r, env).quoteId !in s.quotes
    ensures var q := QuoteSell(node, r, env); var a := Handle(node, sv, peer, s, m, env, None);
      && Invariant(node.id, peer, a.session) && a.node == node && a.session.seen == s.seen + {m.id}
      && a.session.requests == s.requests[r.requestId := r] && a.session.quotes == s.quotes[q.quoteId := q]
      && a.session.intents == s.intents && q.quoteId !in s.intents
      && a.reply == Send(env, RespondQuote(q))
  {
    hide Handle, OnOther, Invariant, QuoteIDFor, Meaningful, QuoteSell, QuotesAsAsked;
    var heard := s.(seen := s.seen + {m.id}).(lastSeen := m.timestamp);
    SeenKeeps(node.id, peer, s, m.id, m.timestamp);
    RequestIsQuoted(node, peer, heard, r, env);
    DeliveredIsHandled(node, sv, peer, s, m, env, None);
    HandleKeeps(node, sv, peer, s, m, env, None);
    NoQuoteNoIntents(node.id, peer, s, QuoteSell(node, r, env).quoteId);
  }

  lemma NoQuoteNoIntents(local: NodeID, peer: NodeID, s: SessionState, id: TxID)
    requires Invariant(local, peer, s) && id !in s.quotes
    ensures id !in s.intents
  {
    hide QuotesOkay, RequestsOkay, TradesOkay, IntentsOkay;
  }

  lemma IntentArrives(node: NodeState, sv: StoreView, peer: NodeID, s: SessionState, q: QuoteResponse, m: Message,
                      env: Env)
    requires Invariant(node.id, peer, s) && node.id != peer && Owns(node.id, peer, q.seller, q.buyer) && env.replies
    requires q.quoteId in s.quotes && s.quotes[q.quoteId] == q && StillFresh(s, q, env.now)
    requires IntentsOf(s, q.quoteId) == [] && SignQuote(node, QuoteOf(q), env).Some?
    requires Delivered(m, peer, SendIntent(q.quoteId, LocalIntent(peer, q))) && m.id !in s.seen
    ensures var b := Handle(node, sv, peer, s, m, env, None);
      && Invariant(node.id, peer, b.session) && b.node == node && b.session.seen == s.seen + {m.id}
      && b.session.requests == s.requests && b.session.quotes == s.quotes
      && IntentsOf(b.session, q.quoteId) == [LocalIntent(peer, q), LocalIntent(node.id, q)]
      && OthersKept(b.session, s, q.quoteId)
      && AuthorizedTradeID(TradeOf(q)) in b.session.trades
      && b.session.trades[AuthorizedTradeID(TradeOf(q))] == TradeOf(q)
      && b.reply == Respond(SendTrade(TradeOf(q), AuthorizedTradeID(TradeOf(q))))
  {
    hide Handle, OnOther, Invariant, Fresh, Meaningful, LocalIntent, Owns, AuthorizedTradeID, BuildTradeTx, SignQuote;
    var heard := s.(seen := s.seen + {m.id}).(lastSeen := m.timestamp);
    SeenKeeps(node.id, peer, s, m.id, m.timestamp);
    IntentIsJoined(node, peer, heard, q, env);
    DeliveredIsHandled(node, sv, peer, s, m, env, None);
    HandleKeeps(node, sv, peer, s, m, env, None);
  }

  /** A negotiation a peer asks for, within the second its quote is good for. The node quotes, then signs and
      offers the trade, and does not change before the last message. Whatever the search makes of that, the
      trade is executed exactly when the node and its surroundings allow it and every older quote on the same
      terms was negotiated as well. */
  lemma AnswerExecutes(node: NodeState, sv: StoreView, peer: NodeID, s: SessionState, r: QuoteRequest,
                       first: Message, second: Message, third: Message, e1: Env, e2: Env, e3: Env)
    requires Invariant(node.id, peer, s) && r.seller == node.id && r.buyer == peer && e1.now > 0
    requires !IsExpired(r.expiryUnix, e1.now) && e2.now <= e1.now && e3.now <= e1.now
    requires var q := QuoteSell(node, r, e1);
      && q.executable && q.quoteId !in s.quotes && Asks(peer, s, r, q, first, second, third)
      && SignQuote(node, QuoteOf(q), e2).Some?
    requires e1.replies && e2.replies
    ensures var q := QuoteSell(node, r, e1);
      var a := Handle(node, sv, peer, s, first, e1, None);
      var b := Handle(node, sv, peer, a.session, second, e2, None);
      && a.node == b.node == node && PeerGives(node, q) > 0
      && a.reply == Respond(RespondQuote(q)) && b.reply == Respond(third.payload)
      && MayReceive(node, peer, b.session, third, Some(q.quoteId))
      && (EverySearchExecutes(node, sv, peer, b.session, third, e3) <==>
          && MayExecute(node, sv, q, third.payload.authId, e3)
          && TwinsNegotiated(node.id, peer, s.(requests := s.requests[r.requestId := r]), q, e3.now))
  {
    hide Handle, Invariant, Meaningful, LocalIntent, AuthorizedTradeID, BuildTradeTx, MayExecute, SignQuote;
    hide QuoteIDFor, TradeMatches, EverySearchExecutes, ReadyUnder, SessionRuns.WasNegotiated, TradeOf, QuoteSell;
    hide IntentsOf, TwinsNegotiated, Fresh;
    var q := QuoteSell(node, r, e1);
    InTimeForAnswer(node, peer, s, r, e1, e2.now);
    InTimeForAnswer(node, peer, s, r, e1, e3.now);
    RequestArrives(node, sv, peer, s, r, first, e1);
    var a := Handle(node, sv, peer, s, first, e1, None);
    HeldOkay(node.id, peer, a.session, q.quoteId);
    NoneYet(a.session, q.quoteId);
    IntentArrives(node, sv, peer, a.session, q, second, e2);
    var b := Handle(node, sv, peer, a.session, second, e2, None);
    OwnTerms(q);
    EverySearchWhen(node, sv, peer, b.session, third, e3, q.quoteId);
    ReadyAtLast(node, sv, peer, b.session, q, e3);
    var asked := s.(requests := s.requests[r.requestId := r]);
    SameIntents(b.session, a.session, asked, q.quoteId);
    TwinsAtLast(node.id, peer, asked, b.session, q, e3.now);
  }

  lemma NoneYet(s: SessionState, id: TxID)
    requires id !in s.intents
    ensures IntentsOf(s, id) == []
  {}

  lemma SameIntents(t: SessionState, a: SessionState, s: SessionState, id: TxID)
    requires OthersKept(t, a, id) && a.intents == s.intents
    ensures OthersKept(t, s, id)
  {}

  /** The quote is fresh with its request pending, as long as its second lasts. */
  lemma InTimeForAnswer(node: NodeState, peer: NodeID, s: SessionState, r: QuoteRequest, env: Env, now: int64)
    requires r.seller == node.id && r.buyer == peer && env.now > 0 && now <= env.now && !IsExpired(r.expiryUnix, env.now)
    ensures var q := QuoteSell(node, r, env);
      && Fresh(Some(r), q, now) && q.requestId == r.requestId && q.seller == node.id && q.buyer == peer
      && q.expiryUnix > 0
  {
    hide QuoteIDFor;
  }
}
