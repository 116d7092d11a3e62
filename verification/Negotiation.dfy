/** A negotiation that goes as asked, message by message, and exactly when it ends in an executed trade. */
module Negotiations {
  import opened Base
  import opened Model
  import opened Inventory
  import opened NodeStates
  import opened SessionStates
  import opened SessionLaws
  import opened AgreedTrades
  import SessionRuns
  import BuiltTrades

  /** A matching quote is agreed to exactly when the trade was negotiated under it and the identifier is that
      of the trade rebuilt from the quote and the two intents. */
  lemma AgreedWhen(local: NodeID, peer: NodeID, s: SessionState, auth: AuthorizedTrade, authId: TxID, now: int64,
                   id: TxID)
    requires Invariant(local, peer, s) && Candidate(local, peer, s, id, auth)
    ensures var q := s.quotes[id];
      Negotiate(local, peer, s, auth, authId, now, id).Agreed? <==>
        && SessionRuns.WasNegotiated(local, peer, s, id, auth, now)
        && authId == AuthorizedTradeID(Authorize(QuoteOf(q), q.expiryUnix, auth.sellerAuth, auth.buyerAuth))
  {
    hide StillFresh, IntentsOf, BuildTradeTx, AuthorizedTradeID, VerifyTradeIntent, LocalIntent;
    hide QuoteIDFor, Meaningful, TermsMatch;
    if Bound(local, peer, s, id, auth) { SessionRuns.BoundIsExecutable(local, peer, s, id, auth); }
  }

  /** The trade both parties sign up to under a quote. */
  function TradeOf(q: QuoteResponse): AuthorizedTrade {
    Authorize(QuoteOf(q), q.expiryUnix, LocalIntent(q.seller, q), LocalIntent(q.buyer, q))
  }

  /** The intents held under other quotes are as they were. */
  ghost predicate OthersKept(t: SessionState, s: SessionState, id: TxID) {
    forall other :: other != id ==> IntentsOf(t, other) == IntentsOf(s, other)
  }

  /** The answer to a pending request is stored, and the local node signs it. */
  lemma ResponseIsSigned(node: NodeState, peer: NodeID, s: SessionState, q: QuoteResponse, env: Env)
    requires Invariant(node.id, peer, s) && q.quoteId !in s.quotes && QuoteIDFor(q) == q.quoteId
    requires Owns(node.id, peer, q.seller, q.buyer) && q.executable && env.pricesAgree && env.replies
    requires q.requestId in s.requests && AnswersRequest(q, s.requests[q.requestId]) && StillFresh(s, q, env.now)
    requires SignQuote(node, QuoteOf(q), env).Some?
    ensures var (t, reply) := OnOther(node, peer, s, RespondQuote(q), env);
      && t.requests == s.requests && t.quotes == s.quotes[q.quoteId := q] && t.seen == s.seen
      && IntentsOf(t, q.quoteId) == [LocalIntent(node.id, q)] && OthersKept(t, s, q.quoteId)
      && reply == Respond(SendIntent(q.quoteId, LocalIntent(node.id, q)))
  {
    hide QuoteIDFor, Fresh, AnswersRequest, IntentsOkay, QuoteOkay, AuthorizedTradeID, Meaningful;
    SignedIsLocal(node, peer, q, env);
    assert q.quoteId !in s.intents;
  }

  /** With the intents of both ends at hand, in either order, the trade of the quote becomes pending under its
      identifier and is offered. */
  lemma BothAreOffered(s: SessionState, q: QuoteResponse, a: NodeID, b: NodeID, env: Env)
    requires Owns(a, b, q.seller, q.buyer) && a != b
    ensures OfferTrade(s, q, [LocalIntent(a, q), LocalIntent(b, q)], env)
         == (s.(trades := s.trades[AuthorizedTradeID(TradeOf(q)) := TradeOf(q)]),
             Send(env, SendTrade(TradeOf(q), AuthorizedTradeID(TradeOf(q)))))
  {
    hide BuildTradeTx, AuthorizedTradeID;
    var one, both := [LocalIntent(a, q)], [LocalIntent(a, q), LocalIntent(b, q)];
    assert both[..1] == one && one[..0] == [];
    assert LastOf(both, b) == Some(LocalIntent(b, q));
    assert LastOf(both, a) == LastOf(one, a) == Some(LocalIntent(a, q));
  }

  /** The peer's intent joins the local one, and the trade of the quote is offered. */
  lemma IntentIsAnswered(node: NodeState, peer: NodeID, s: SessionState, q: QuoteResponse, env: Env)
    requires Owns(node.id, peer, q.seller, q.buyer) && node.id != peer && env.replies
    requires q.quoteId in s.quotes && s.quotes[q.quoteId] == q && StillFresh(s, q, env.now)
    requires IntentsOf(s, q.quoteId) == [LocalIntent(node.id, q)]
    ensures var (t, reply) := OnOther(node, peer, s, SendIntent(q.quoteId, LocalIntent(peer, q)), env);
      && t.requests == s.requests && t.quotes == s.quotes && t.seen == s.seen
      && IntentsOf(t, q.quoteId) == [LocalIntent(node.id, q), LocalIntent(peer, q)] && OthersKept(t, s, q.quoteId)
      && t.trades == s.trades[AuthorizedTradeID(TradeOf(q)) := TradeOf(q)]
      && reply == Respond(SendTrade(TradeOf(q), AuthorizedTradeID(TradeOf(q))))
  {
    hide StillFresh, BuildTradeTx, AuthorizedTradeID, OfferTrade, TradeOf;
    var mine, theirs := LocalIntent(node.id, q), LocalIntent(peer, q);
    var both := [mine] + [theirs];
    assert both == [mine, theirs];
    assert both[0] == mine && both[1] == theirs;
    assert HasParty(both, node.id);
    assert !HasParty([mine], peer);
    BothAreOffered(s.(intents := s.intents[q.quoteId := both]), q, node.id, peer, env);
  }

  // ---- What the search decides ----

  /** The trade was negotiated under this pending quote, and the node and its surroundings allow it. */
  predicate ReadyUnder(node: NodeState, sv: StoreView, peer: NodeID, s: SessionState, auth: AuthorizedTrade,
                       authId: TxID, env: Env, id: TxID)
    requires id in s.quotes
  {
    var q := s.quotes[id];
    && SessionRuns.WasNegotiated(node.id, peer, s, id, auth, env.now)
    && authId == AuthorizedTradeID(Authorize(QuoteOf(q), q.expiryUnix, auth.sellerAuth, auth.buyerAuth))
    && PeerGives(node, q) > 0 && MayExecute(node, sv, q, authId, env)
  }

  lemma NegotiatedIsPlausible(local: NodeID, peer: NodeID, s: SessionState, auth: AuthorizedTrade, id: TxID, now: int64)
    requires Invariant(local, peer, s) && SessionRuns.WasNegotiated(local, peer, s, id, auth, now)
    ensures Plausible(local, peer, auth)
  {
    hide Invariant, StillFresh, TradeMatches, IntentsOf, VerifyTradeIntent;
    AgreedSignatures(local, peer, s, auth, id, now);
    HeldOkay(local, peer, s, id);
  }

  /** Whichever matching quote the search settles on, the trade is executed exactly when it is ready under
      that quote. */
  lemma DecidedByQuote(node: NodeState, sv: StoreView, peer: NodeID, s: SessionState, auth: AuthorizedTrade,
                       authId: TxID, env: Env, id: TxID)
    requires Invariant(node.id, peer, s) && Candidate(node.id, peer, s, id, auth)
    ensures OnTrade(node, sv, peer, s, auth, authId, env, Some(id)).done <==>
      ReadyUnder(node, sv, peer, s, auth, authId, env, id)
  {
    hide StillFresh, BuildTradeTx, AuthorizedTradeID, MayExecute, RunTrade, Negotiate, Invariant, Candidate;
    hide SessionStates.ClearNegotiation, LocalAfter, IntentsOf, SessionRuns.WasNegotiated, Plausible, PeerGives;
    assert id in s.quotes by { CandidateIsPending(node.id, peer, s, id, auth); }
    AgreedWhen(node.id, peer, s, auth, authId, env.now, id);
    if Negotiate(node.id, peer, s, auth, authId, env.now, id).Agreed? {
      NegotiatedIsPlausible(node.id, peer, s, auth, id, env.now);
      AgreedTradeRuns(node, sv, peer, s, auth, authId, env, id);
      SessionRuns.AgreedIsNegotiated(node, peer, s, auth, authId, env, id);
    }
  }

  lemma CandidateIsPending(local: NodeID, peer: NodeID, s: SessionState, id: TxID, auth: AuthorizedTrade)
    requires Candidate(local, peer, s, id, auth)
    ensures id in s.quotes
  {
    hide TradeMatches, Owns;
  }

  /** Quotes on the same terms differ in nothing execution looks at. */
  lemma SameTerms(node: NodeState, sv: StoreView, auth: AuthorizedTrade, authId: TxID, env: Env, a: QuoteResponse,
                  b: QuoteResponse)
    requires TradeMatches(auth, a) && TradeMatches(auth, b) && a.executable && b.executable
    ensures QuoteOf(a) == QuoteOf(b) && PeerGives(node, a) == PeerGives(node, b)
    ensures PeerGives(node, a) > 0 ==> (MayExecute(node, sv, a, authId, env) <==> MayExecute(node, sv, b, authId, env))
  {
    hide BuiltTrades.HasRoom, BuiltTrades.GoodTerms, RowPositive;
  }

  // ---- The whole negotiation ----

  ghost predicate Delivered(m: Message, peer: NodeID, p: Payload) {
    m.authentic && m.sender == peer && m.decodes && m.payload == p && Meaningful(p)
  }

  lemma DeliveredIsHandled(node: NodeState, sv: StoreView, peer: NodeID, s: SessionState, m: Message, env: Env,
                           found: Option<TxID>)
    requires Delivered(m, peer, m.payload) && m.id !in s.seen && MayReceive(node, peer, s, m, found)
    ensures var heard := s.(seen := s.seen + {m.id}).(lastSeen := m.timestamp);
      var step := Handle(node, sv, peer, s, m, env, found);
      if m.payload.SendTrade? then
        (found.Some? ==> found.value in s.quotes)
        && step == OnTrade(node, sv, peer, heard, m.payload.auth, m.payload.authId, env, found)
      else
        step.session == OnOther(node, peer, heard, m.payload, env).0
        && step.reply == OnOther(node, peer, heard, m.payload, env).1 && step.node == node && !step.done
  {
    hide OnTrade, OnOther, Meaningful, TradeMatches, Owns;
  }

  /** The peer answers a request and the local node signs and says so. */
  lemma FirstMessage(node: NodeState, sv: StoreView, peer: NodeID, s: SessionState, q: QuoteResponse, m: Message,
                     env: Env)
    requires Invariant(node.id, peer, s) && q.quoteId !in s.quotes && QuoteIDFor(q) == q.quoteId
    requires Owns(node.id, peer, q.seller, q.buyer) && q.executable && env.pricesAgree && env.replies
    requires q.requestId in s.requests && AnswersRequest(q, s.requests[q.requestId]) && StillFresh(s, q, env.now)
    requires SignQuote(node, QuoteOf(q), env).Some?
    requires Delivered(m, peer, RespondQuote(q)) && m.id !in s.seen
    ensures var a := Handle(node, sv, peer, s, m, env, None);
      && Invariant(node.id, peer, a.session) && a.node == node && a.session.seen == s.seen + {m.id}
      && a.session.requests == s.requests && a.session.quotes == s.quotes[q.quoteId := q]
      && IntentsOf(a.session, q.quoteId) == [LocalIntent(node.id, q)] && OthersKept(a.session, s, q.quoteId)
      && a.reply == Respond(SendIntent(q.quoteId, LocalIntent(node.id, q)))
  {
    hide Handle, OnOther, Invariant, QuoteIDFor, Fresh, AnswersRequest, Meaningful, SignQuote, LocalIntent, Owns;
    var heard := s.(seen := s.seen + {m.id}).(lastSeen := m.timestamp);
    SeenKeeps(node.id, peer, s, m.id, m.timestamp);
    ResponseIsSigned(node, peer, heard, q, env);
    DeliveredIsHandled(node, sv, peer, s, m, env, None);
    HandleKeeps(node, sv, peer, s, m, env, None);
  }

  /** The peer's intent arrives and the local node offers the trade. */
  lemma SecondMessage(node: NodeState, sv: StoreView, peer: NodeID, s: SessionState, q: QuoteResponse, m: Message,
                      env: Env)
    requires Invariant(node.id, peer, s) && node.id != peer && Owns(node.id, peer, q.seller, q.buyer) && env.replies
    requires q.quoteId in s.quotes && s.quotes[q.quoteId] == q && StillFresh(s, q, env.now)
    requires IntentsOf(s, q.quoteId) == [LocalIntent(node.id, q)]
    requires Delivered(m, peer, SendIntent(q.quoteId, LocalIntent(peer, q))) && m.id !in s.seen
    ensures var b := Handle(node, sv, peer, s, m, env, None);
      && Invariant(node.id, peer, b.session) && b.node == node && b.session.seen == s.seen + {m.id}
      && b.session.requests == s.requests && b.session.quotes == s.quotes
      && IntentsOf(b.session, q.quoteId) == [LocalIntent(node.id, q), LocalIntent(peer, q)]
      && OthersKept(b.session, s, q.quoteId)
      && b.reply == Respond(SendTrade(TradeOf(q), AuthorizedTradeID(TradeOf(q))))
  {
    hide Handle, OnOther, Invariant, Fresh, Meaningful, LocalIntent, Owns, AuthorizedTradeID, BuildTradeTx;
    var heard := s.(seen := s.seen + {m.id}).(lastSeen := m.timestamp);
    SeenKeeps(node.id, peer, s, m.id, m.timestamp);
    IntentIsAnswered(node, peer, heard, q, env);
    DeliveredIsHandled(node, sv, peer, s, m, env, None);
    HandleKeeps(node, sv, peer, s, m, env, None);
  }

  /** An authorized trade arrives. Whatever the search settles on, the trade is executed exactly when it is
      ready under that quote. */
  lemma TradeDecided(node: NodeState, sv: StoreView, peer: NodeID, s: SessionState, m: Message, env: Env,
                     found: Option<TxID>)
    requires Invariant(node.id, peer, s) && m.payload.SendTrade? && Delivered(m, peer, m.payload) && m.id !in s.seen
    requires MayReceive(node, peer, s, m, found)
    ensures Handle(node, sv, peer, s, m, env, found).done <==>
      found.Some? && found.value in s.quotes
      && ReadyUnder(node, sv, peer, s, m.payload.auth, m.payload.authId, env, found.value)
  {
    hide Handle, Candidate, Invariant, StillFresh, Negotiate, Meaningful, AuthorizedTradeID, BuildTradeTx, MayExecute;
    hide TradeMatches, SessionStates.CarryOut, Plausible;
    var heard := s.(seen := s.seen + {m.id}).(lastSeen := m.timestamp);
    SeenKeeps(node.id, peer, s, m.id, m.timestamp);
    SessionRuns.SearchIgnoresSeen(node.id, peer, s, heard, m.payload, found);
    DeliveredIsHandled(node, sv, peer, s, m, env, found);
    if found.Some? {
      DecidedByQuote(node, sv, peer, heard, m.payload.auth, m.payload.authId, env, found.value);
      SessionRuns.NegotiatedIgnoresSeen(node.id, peer, s, heard, found.value, m.payload.auth, env.now);
    }
  }

  ghost predicate EverySearchExecutes(node: NodeState, sv: StoreView, peer: NodeID, s: SessionState, m: Message,
                                      env: Env) {
    forall found :: MayReceive(node, peer, s, m, found) ==> Handle(node, sv, peer, s, m, env, found).done
  }

  /** Once the trade is ready under one pending quote, every search executes it exactly when it was
      negotiated under every pending quote on the same terms. */
  lemma EverySearchWhen(node: NodeState, sv: StoreView, peer: NodeID, s: SessionState, m: Message, env: Env, id: TxID)
    requires Invariant(node.id, peer, s) && m.payload.SendTrade? && Delivered(m, peer, m.payload) && m.id !in s.seen
    requires Candidate(node.id, peer, s, id, m.payload.auth)
    ensures EverySearchExecutes(node, sv, peer, s, m, env) <==>
      && ReadyUnder(node, sv, peer, s, m.payload.auth, m.payload.authId, env, id)
      && forall other :: Candidate(node.id, peer, s, other, m.payload.auth) ==>
           SessionRuns.WasNegotiated(node.id, peer, s, other, m.payload.auth, env.now)
  {
    hide Handle, Invariant, StillFresh, Meaningful, AuthorizedTradeID, BuildTradeTx, MayExecute, Owns;
    var auth, authId := m.payload.auth, m.payload.authId;
    forall found | MayReceive(node, peer, s, m, found)
      ensures found.Some? && Candidate(node.id, peer, s, found.value, auth)
      ensures Handle(node, sv, peer, s, m, env, found).done <==>
        ReadyUnder(node, sv, peer, s, auth, authId, env, found.value)
    {
      TradeDecided(node, sv, peer, s, m, env, found);
    }
    assert MayReceive(node, peer, s, m, Some(id));
    forall other | Candidate(node.id, peer, s, other, auth)
      ensures MayReceive(node, peer, s, m, Some(other))
      ensures ReadyUnder(node, sv, peer, s, auth, authId, env, id) ==>
        (ReadyUnder(node, sv, peer, s, auth, authId, env, other) <==>
         SessionRuns.WasNegotiated(node.id, peer, s, other, auth, env.now))
    {
      if s.quotes[id].executable && s.quotes[other].executable {
        SameTerms(node, sv, auth, authId, env, s.quotes[id], s.quotes[other]);
      }
    }
  }

  lemma OwnTerms(q: QuoteResponse)
    ensures TradeMatches(TradeOf(q), q)
  {
    hide BuildTradeTx;
  }

  /** A new quote that answers a pending request on its terms. */
  predicate Answers(local: NodeID, peer: NodeID, s: SessionState, q: QuoteResponse) {
    && q.quoteId !in s.quotes && QuoteIDFor(q) == q.quoteId && Owns(local, peer, q.seller, q.buyer)
    && q.executable && q.expiryUnix > 0 && q.requestId in s.requests && AnswersRequest(q, s.requests[q.requestId])
  }

  /** The three messages of a peer that answers, signs and sends the trade the local node offered. */
  ghost predicate AsAsked(peer: NodeID, s: SessionState, q: QuoteResponse, first: Message, second: Message,
                          third: Message) {
    && Delivered(first, peer, RespondQuote(q))
    && Delivered(second, peer, SendIntent(q.quoteId, LocalIntent(peer, q)))
    && Delivered(third, peer, SendTrade(TradeOf(q), AuthorizedTradeID(TradeOf(q))))
    && first.id !in s.seen && second.id !in s.seen && third.id !in s.seen
    && first.id != second.id && first.id != third.id && second.id != third.id
  }

  /** Every pending quote with the terms of q, other than q, is fresh and executable, and under it both
      intents are held too. */
  ghost predicate TwinsNegotiated(local: NodeID, peer: NodeID, s: SessionState, q: QuoteResponse, now: int64) {
    forall id :: id in s.quotes && TradeMatches(TradeOf(q), s.quotes[id]) ==>
      SessionRuns.WasNegotiated(local, peer, s, id, TradeOf(q), now)
  }

  /** A negotiation in which the peer does as asked, while the quote is fresh and the local node signs it. The
      node signs, then offers the trade, and does not change before the last message. Whatever the search
      makes of that, the trade is executed exactly when the node and its surroundings allow it and every
      older quote on the same terms was negotiated as well. */
  lemma NegotiationExecutes(node: NodeState, sv: StoreView, peer: NodeID, s: SessionState, q: QuoteResponse,
                            first: Message, second: Message, third: Message, e1: Env, e2: Env, e3: Env)
    requires Invariant(node.id, peer, s) && Answers(node.id, peer, s, q) && AsAsked(peer, s, q, first, second, third)
    requires StillFresh(s, q, e1.now) && StillFresh(s, q, e2.now) && StillFresh(s, q, e3.now)
    requires e1.pricesAgree && e1.replies && e2.replies && SignQuote(node, QuoteOf(q), e1).Some?
    ensures var a := Handle(node, sv, peer, s, first, e1, None);
      var b := Handle(node, sv, peer, a.session, second, e2, None);
      && a.node == b.node == node && PeerGives(node, q) > 0
      && a.reply == Respond(SendIntent(q.quoteId, LocalIntent(node.id, q)))
      && b.reply == Respond(third.payload)
      && MayReceive(node, peer, b.session, third, Some(q.quoteId))
      && (EverySearchExecutes(node, sv, peer, b.session, third, e3) <==>
          MayExecute(node, sv, q, third.payload.authId, e3) && TwinsNegotiated(node.id, peer, s, q, e3.now))
  {
    hide Handle, Invariant, Fresh, Meaningful, LocalIntent, AuthorizedTradeID, BuildTradeTx, MayExecute, SignQuote;
    hide AnswersRequest, QuoteIDFor, TradeMatches, EverySearchExecutes, ReadyUnder, SessionRuns.WasNegotiated, TradeOf;
    hide IntentsOf, TwinsNegotiated;
    FirstMessage(node, sv, peer, s, q, first, e1);
    var a := Handle(node, sv, peer, s, first, e1, None);
    HeldOkay(node.id, peer, a.session, q.quoteId);
    SecondMessage(node, sv, peer, a.session, q, second, e2);
    var b := Handle(node, sv, peer, a.session, second, e2, None);
    OwnTerms(q);
    EverySearchWhen(node, sv, peer, b.session, third, e3, q.quoteId);
    ReadyAtLast(node, sv, peer, b.session, q, e3);
    TwinsAtLast(node.id, peer, s, b.session, q, e3.now);
  }

  /** With both intents held, the quote is ready exactly when the node and its surroundings allow it. */
  lemma ReadyAtLast(node: NodeState, sv: StoreView, peer: NodeID, s: SessionState, q: QuoteResponse, env: Env)
    requires Invariant(node.id, peer, s) && q.quoteId in s.quotes && s.quotes[q.quoteId] == q && q.executable
    requires StillFresh(s, q, env.now)
    requires LocalIntent(q.seller, q) in IntentsOf(s, q.quoteId) && LocalIntent(q.buyer, q) in IntentsOf(s, q.quoteId)
    ensures PeerGives(node, q) > 0 && SessionRuns.WasNegotiated(node.id, peer, s, q.quoteId, TradeOf(q), env.now)
    ensures ReadyUnder(node, sv, peer, s, TradeOf(q), AuthorizedTradeID(TradeOf(q)), env, q.quoteId) <==>
      MayExecute(node, sv, q, AuthorizedTradeID(TradeOf(q)), env)
  {
    hide StillFresh, BuildTradeTx, AuthorizedTradeID, MayExecute, Invariant, IntentsOf;
    HeldOkay(node.id, peer, s, q.quoteId);
    OwnTerms(q);
  }

  lemma TwinsAtLast(local: NodeID, peer: NodeID, s: SessionState, t: SessionState, q: QuoteResponse, now: int64)
    requires Invariant(local, peer, t) && q.quoteId !in s.quotes && t.quotes == s.quotes[q.quoteId := q]
    requires t.requests == s.requests && OthersKept(t, s, q.quoteId)
    requires SessionRuns.WasNegotiated(local, peer, t, q.quoteId, TradeOf(q), now)
    ensures TwinsNegotiated(local, peer, s, q, now) <==>
      forall other :: Candidate(local, peer, t, other, TradeOf(q)) ==>
        SessionRuns.WasNegotiated(local, peer, t, other, TradeOf(q), now)
  {
    hide TradeMatches, TradeOf, Fresh, IntentsOf, Invariant;
    forall id | id in s.quotes
      ensures Candidate(local, peer, t, id, TradeOf(q)) <==> TradeMatches(TradeOf(q), s.quotes[id])
      ensures SessionRuns.WasNegotiated(local, peer, t, id, TradeOf(q), now)
         <==> SessionRuns.WasNegotiated(local, peer, s, id, TradeOf(q), now)
    {
      HeldOkay(local, peer, t, id);
    }
  }

  /** With another pending quote on the same terms that lacks an intent, the search may settle on that one,
      and then the trade is refused although both intents may be held under the first. */
  lemma TwinStops(node: NodeState, sv: StoreView, peer: NodeID, s: SessionState, q: QuoteResponse, twin: TxID,
                  m: Message, env: Env)
    requires Invariant(node.id, peer, s) && twin in s.quotes && TradeMatches(TradeOf(q), s.quotes[twin])
    requires LocalIntent(q.seller, q) !in IntentsOf(s, twin) || LocalIntent(q.buyer, q) !in IntentsOf(s, twin)
    requires Delivered(m, peer, SendTrade(TradeOf(q), AuthorizedTradeID(TradeOf(q)))) && m.id !in s.seen
    ensures MayReceive(node, peer, s, m, Some(twin))
    ensures var step := Handle(node, sv, peer, s, m, env, Some(twin)); !step.done && step.node == node
  {
    hide Handle, Invariant, StillFresh, Meaningful, LocalIntent, AuthorizedTradeID, BuildTradeTx, MayExecute;
    hide TradeMatches, IntentsOf;
    HeldOkay(node.id, peer, s, twin);
    TradeDecided(node, sv, peer, s, m, env, Some(twin));
    if Handle(node, sv, peer, s, m, env, Some(twin)).node != node {
      SessionRuns.OnlyNegotiatedTrades(node, sv, peer, s, m, env, Some(twin));
    }
  }

  /** How it comes about: the peer answers one request twice on the same terms, the local node signs both
      quotes, and the peer signs the first only. */
  lemma TwinArises(node: NodeState, sv: StoreView, peer: NodeID, s: SessionState, q: QuoteResponse, twin: QuoteResponse,
                   first: Message, again: Message, second: Message, third: Message, e: Env)
    requires Invariant(node.id, peer, s) && AsAsked(peer, s, q, first, second, third)
    requires Answers(node.id, peer, s, q) && Answers(node.id, peer, s, twin) && twin.quoteId != q.quoteId
    requires QuoteOf(twin) == QuoteOf(q) && StillFresh(s, q, e.now) && StillFresh(s, twin, e.now)
    requires Delivered(again, peer, RespondQuote(twin)) && again.id !in s.seen + {first.id, second.id, third.id}
    requires e.pricesAgree && e.replies && SignQuote(node, QuoteOf(q), e).Some?
    ensures var a := Handle(node, sv, peer, s, first, e, None).session;
      var b := Handle(node, sv, peer, a, again, e, None).session;
      var c := Handle(node, sv, peer, b, second, e, None).session;
      && LocalIntent(q.seller, q) in IntentsOf(c, q.quoteId) && LocalIntent(q.buyer, q) in IntentsOf(c, q.quoteId)
      && MayReceive(node, peer, c, third, Some(twin.quoteId))
      && !Handle(node, sv, peer, c, third, e, Some(twin.quoteId)).done
  {
    hide Handle, Invariant, Fresh, Meaningful, AuthorizedTradeID, BuildTradeTx, SignQuote, AnswersRequest, QuoteIDFor;
    hide IntentsOf, Candidate;
    FirstMessage(node, sv, peer, s, q, first, e);
    var a := Handle(node, sv, peer, s, first, e, None).session;
    HeldOkay(node.id, peer, a, q.quoteId);
    FirstMessage(node, sv, peer, a, twin, again, e);
    var b := Handle(node, sv, peer, a, again, e, None).session;
    SecondMessage(node, sv, peer, b, q, second, e);
    var c := Handle(node, sv, peer, b, second, e, None).session;
    OwnTerms(q);
    TwinStops(node, sv, peer, c, q, twin.quoteId, third, e);
  }
}
