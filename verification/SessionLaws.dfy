/** What every message keeps of a session, and when a message can change the node behind it. */
module SessionLaws {
  import opened Base
  import opened Model
  import opened Inventory
  import opened NodeStates
  import opened SessionStates
  import NodeLaws
  import P = Preimages

  function LocalIntent(local: NodeID, q: QuoteResponse): SignedIntent {
    SignTradeIntent(local, IntentFromQuote(QuoteOf(q), local))
  }

  /** A pending quote is stored under its own identifier and is between the two ends of the session. */
  predicate QuoteOkay(local: NodeID, peer: NodeID, id: TxID, q: QuoteResponse) {
    && QuoteIDFor(q) == id && q.quoteId == id
    && Owns(local, peer, q.seller, q.buyer) && q.seller != q.buyer
    && q.sellAmount > 0 && (q.executable ==> q.buyAmount > 0)
  }

  /** A held intent verifies and has the terms of its quote. It is the peer's, or it is the one intent the
      local node signs for the quote, which it only does when the quote is executable. */
  predicate IntentOkay(local: NodeID, peer: NodeID, q: QuoteResponse, signed: SignedIntent) {
    && TermsMatch(signed.intent, q) && VerifyTradeIntent(signed)
    && (signed.intent.party == peer || (q.executable && signed == LocalIntent(local, q)))
  }

  predicate IntentsOkay(local: NodeID, peer: NodeID, q: QuoteResponse, intents: seq<SignedIntent>) {
    && (forall k :: 0 <= k < |intents| ==> IntentOkay(local, peer, q, intents[k]))
    && (forall j, k :: 0 <= j < k < |intents| ==> !(intents[j].intent.party == peer && intents[k].intent.party == peer))
  }

  predicate RequestsOkay(s: SessionState) {
    forall id :: id in s.requests ==> s.requests[id].requestId == id && Meaningful(RequestQuote(s.requests[id]))
  }

  predicate QuotesOkay(local: NodeID, peer: NodeID, s: SessionState) {
    forall id :: id in s.quotes ==> QuoteOkay(local, peer, id, s.quotes[id])
  }

  predicate HeldIntentsOkay(local: NodeID, peer: NodeID, s: SessionState) {
    forall id :: id in s.intents ==> id in s.quotes && IntentsOkay(local, peer, s.quotes[id], s.intents[id])
  }

  predicate TradesOkay(s: SessionState) {
    forall id :: id in s.trades ==> AuthorizedTradeID(s.trades[id]) == id
  }

  predicate Invariant(local: NodeID, peer: NodeID, s: SessionState) {
    RequestsOkay(s) && QuotesOkay(local, peer, s) && HeldIntentsOkay(local, peer, s) && TradesOkay(s)
  }

  lemma EmptySession(local: NodeID, peer: NodeID, lastSeen: int64)
    ensures Invariant(local, peer, SessionState(map[], map[], map[], map[], {}, lastSeen))
  {}

  // ---- Removing ----

  /** t has no more than s has, and no intents without their quote. */
  predicate Fewer(t: SessionState, s: SessionState) {
    && (forall id :: id in t.requests ==> id in s.requests && t.requests[id] == s.requests[id])
    && (forall id :: id in t.quotes ==> id in s.quotes && t.quotes[id] == s.quotes[id])
    && (forall id :: id in t.intents ==> id in t.quotes && id in s.intents && t.intents[id] == s.intents[id])
    && (forall id :: id in t.trades ==> id in s.trades && t.trades[id] == s.trades[id])
  }

  lemma FewerKeeps(local: NodeID, peer: NodeID, t: SessionState, s: SessionState)
    requires Fewer(t, s) && Invariant(local, peer, s)
    ensures Invariant(local, peer, t)
  {
    hide QuoteOkay, IntentsOkay, AuthorizedTradeID, Meaningful;
  }

  lemma ClearNegotiationKeeps(local: NodeID, peer: NodeID, s: SessionState, id: TxID, q: QuoteResponse, authId: TxID)
    requires Invariant(local, peer, s)
    ensures Invariant(local, peer, ClearNegotiation(s, id, q, authId))
  {
    hide QuoteOkay, IntentsOkay, AuthorizedTradeID, Meaningful;
    FewerKeeps(local, peer, ClearNegotiation(s, id, q, authId), s);
  }

  lemma ClearRequestKeeps(local: NodeID, peer: NodeID, s: SessionState, requestId: TxID)
    requires Invariant(local, peer, s)
    ensures Invariant(local, peer, ClearRequest(s, requestId))
  {
    hide QuoteOkay, IntentsOkay, AuthorizedTradeID, Meaningful;
    FewerKeeps(local, peer, ClearRequest(s, requestId), s);
  }

  lemma PruneKeeps(local: NodeID, peer: NodeID, s: SessionState, now: int64)
    requires Invariant(local, peer, s)
    ensures Invariant(local, peer, PruneExpired(s, now))
  {
    hide QuoteOkay, IntentsOkay, AuthorizedTradeID, Meaningful;
    FewerKeeps(local, peer, PruneExpired(s, now), s);
  }

  lemma SeenKeeps(local: NodeID, peer: NodeID, s: SessionState, id: TxID, time: int64)
    requires Invariant(local, peer, s)
    ensures Invariant(local, peer, s.(seen := s.seen + {id}))
    ensures Invariant(local, peer, s.(seen := s.seen + {id}).(lastSeen := time))
  {
    hide QuoteOkay, IntentsOkay, AuthorizedTradeID, Meaningful;
  }

  lemma PongKeeps(local: NodeID, peer: NodeID, s: SessionState, time: int64)
    requires Invariant(local, peer, s)
    ensures Invariant(local, peer, s.(lastSeen := time))
  {
    hide QuoteOkay, IntentsOkay, AuthorizedTradeID, Meaningful;
  }

  // ---- Adding ----

  lemma OneQuotePerId(local: NodeID, peer: NodeID, id: TxID, a: QuoteResponse, b: QuoteResponse)
    requires QuoteOkay(local, peer, id, a) && QuoteOkay(local, peer, id, b)
    ensures a == b
  {
    P.QuoteInjective(a, b);
  }

  lemma AddRequestKeeps(local: NodeID, peer: NodeID, s: SessionState, r: QuoteRequest)
    requires Invariant(local, peer, s) && Meaningful(RequestQuote(r))
    ensures Invariant(local, peer, s.(requests := s.requests[r.requestId := r]))
  {
    hide QuoteOkay, IntentsOkay, AuthorizedTradeID, Meaningful;
  }

  lemma AddQuoteKeeps(local: NodeID, peer: NodeID, s: SessionState, q: QuoteResponse)
    requires Invariant(local, peer, s) && QuoteOkay(local, peer, q.quoteId, q)
    ensures Invariant(local, peer, s.(quotes := s.quotes[q.quoteId := q]))
  {
    hide QuoteOkay, IntentsOkay;
    if q.quoteId in s.quotes { OneQuotePerId(local, peer, q.quoteId, q, s.quotes[q.quoteId]); }
  }

  lemma AddIntentsKeeps(local: NodeID, peer: NodeID, s: SessionState, id: TxID, intents: seq<SignedIntent>)
    requires Invariant(local, peer, s) && id in s.quotes && IntentsOkay(local, peer, s.quotes[id], intents)
    ensures Invariant(local, peer, s.(intents := s.intents[id := intents]))
  {
    hide QuoteOkay, IntentsOkay, AuthorizedTradeID, Meaningful;
  }

  lemma AddTradeKeeps(local: NodeID, peer: NodeID, s: SessionState, auth: AuthorizedTrade)
    requires Invariant(local, peer, s)
    ensures Invariant(local, peer, s.(trades := s.trades[AuthorizedTradeID(auth) := auth]))
  {
    hide AuthorizedTradeID;
  }

  lemma HeldOkay(local: NodeID, peer: NodeID, s: SessionState, id: TxID)
    requires Invariant(local, peer, s) && id in s.quotes
    ensures IntentsOkay(local, peer, s.quotes[id], IntentsOf(s, id)) && QuoteOkay(local, peer, id, s.quotes[id])
  {}

  /** What the local node signs for a quote is its one intent for it. */
  lemma SignedIsLocal(node: NodeState, peer: NodeID, q: QuoteResponse, env: Env)
    requires SignQuote(node, QuoteOf(q), env).Some?
    ensures SignQuote(node, QuoteOf(q), env) == Some(LocalIntent(node.id, q))
    ensures IntentOkay(node.id, peer, q, LocalIntent(node.id, q))
  {}

  lemma AppendLocal(local: NodeID, peer: NodeID, q: QuoteResponse, intents: seq<SignedIntent>)
    requires IntentsOkay(local, peer, q, intents) && local != peer
    requires IntentOkay(local, peer, q, LocalIntent(local, q))
    ensures IntentsOkay(local, peer, q, intents + [LocalIntent(local, q)])
  {}

  lemma AppendPeer(local: NodeID, peer: NodeID, q: QuoteResponse, intents: seq<SignedIntent>, signed: SignedIntent)
    requires IntentsOkay(local, peer, q, intents) && !HasParty(intents, peer)
    requires signed.intent.party == peer && TermsMatch(signed.intent, q) && VerifyTradeIntent(signed)
    ensures IntentsOkay(local, peer, q, intents + [signed])
  {}

  // ---- Messages ----

  lemma OnRequestKeeps(node: NodeState, peer: NodeID, s: SessionState, r: QuoteRequest, env: Env)
    requires Invariant(node.id, peer, s) && Meaningful(RequestQuote(r))
    ensures Invariant(node.id, peer, OnRequest(node, peer, s, r, env).0)
  {
    hide QuoteIDFor, Cell, Invariant;
    if r.seller == node.id && r.buyer == peer {
      if IsExpired(r.expiryUnix, env.now) {
        ClearRequestKeeps(node.id, peer, s, r.requestId);
      } else {
        AddRequestKeeps(node.id, peer, s, r);
        var asked := s.(requests := s.requests[r.requestId := r]);
        var q := QuoteSell(node, r, env);
        QuoteSellOkay(node, peer, r, env);
        AddQuoteKeeps(node.id, peer, asked, q);
      }
    }
  }

  lemma QuoteSellOkay(node: NodeState, peer: NodeID, r: QuoteRequest, env: Env)
    requires r.seller == node.id && r.buyer == peer && Meaningful(RequestQuote(r))
    ensures var q := QuoteSell(node, r, env); QuoteOkay(node.id, peer, q.quoteId, q)
  {
    var q := QuoteSell(node, r, env);
    P.QuoteInjective(q, q.(quoteId := ZERO_TX_ID));
  }

  lemma OnResponseKeeps(node: NodeState, peer: NodeID, s: SessionState, q: QuoteResponse, env: Env)
    requires Invariant(node.id, peer, s) && Meaningful(RespondQuote(q))
    ensures Invariant(node.id, peer, OnResponse(node, peer, s, q, env).0)
  {
    hide QuoteIDFor, SignQuote, LocalIntent, IntentOkay, Fresh;
    if Owns(node.id, peer, q.seller, q.buyer) && q.requestId in s.requests {
      var r := s.requests[q.requestId];
      ClearRequestKeeps(node.id, peer, s, q.requestId);
      if AnswersRequest(q, r) && QuoteIDFor(q) == q.quoteId {
        AddQuoteKeeps(node.id, peer, s, q);
        var stored := s.(quotes := s.quotes[q.quoteId := q]);
        if SignQuote(node, QuoteOf(q), env).Some? {
          SignedIsLocal(node, peer, q, env);
          HeldOkay(node.id, peer, stored, q.quoteId);
          AppendLocal(node.id, peer, q, IntentsOf(stored, q.quoteId));
          AddIntentsKeeps(node.id, peer, stored, q.quoteId, IntentsOf(stored, q.quoteId) + [LocalIntent(node.id, q)]);
        }
      }
    }
  }

  lemma OfferTradeKeeps(local: NodeID, peer: NodeID, s: SessionState, q: QuoteResponse, intents: seq<SignedIntent>,
                        env: Env)
    requires Invariant(local, peer, s)
    ensures Invariant(local, peer, OfferTrade(s, q, intents, env).0)
  {
    hide AuthorizedTradeID, Authorize, Invariant;
    var sellerSig := LastOf(intents, q.seller);
    var buyerSig := if q.buyer == q.seller then None else LastOf(intents, q.buyer);
    if sellerSig.Some? && buyerSig.Some? {
      AddTradeKeeps(local, peer, s, Authorize(QuoteOf(q), q.expiryUnix, sellerSig.value, buyerSig.value));
    }
  }

  lemma AddIntentsStepKeeps(node: NodeState, peer: NodeID, s: SessionState, id: TxID, intents: seq<SignedIntent>,
                            env: Env)
    requires Invariant(node.id, peer, s) && id in s.quotes && IntentsOkay(node.id, peer, s.quotes[id], intents)
    ensures Invariant(node.id, peer, AddIntents(node, s, id, s.quotes[id], intents, env).0)
  {
    hide SignQuote, LocalIntent, IntentOkay, OfferTrade, Invariant;
    var q := s.quotes[id];
    HeldOkay(node.id, peer, s, id);
    AddIntentsKeeps(node.id, peer, s, id, intents);
    var one := s.(intents := s.intents[id := intents]);
    OfferTradeKeeps(node.id, peer, one, q, intents, env);
    if SignQuote(node, QuoteOf(q), env).Some? {
      SignedIsLocal(node, peer, q, env);
      var both := intents + [LocalIntent(node.id, q)];
      AppendLocal(node.id, peer, q, intents);
      AddIntentsKeeps(node.id, peer, one, id, both);
      OfferTradeKeeps(node.id, peer, one.(intents := one.intents[id := both]), q, both, env);
    }
  }

  lemma OnIntentKeeps(node: NodeState, peer: NodeID, s: SessionState, id: TxID, signed: SignedIntent, env: Env)
    requires Invariant(node.id, peer, s) && Meaningful(SendIntent(id, signed))
    ensures Invariant(node.id, peer, OnIntent(node, peer, s, id, signed, env).0)
  {
    hide AddIntents, IntentOkay, Invariant;
    if id in s.quotes {
      var q := s.quotes[id];
      ClearNegotiationKeeps(node.id, peer, s, id, q, ZERO_TX_ID);
      if signed.intent.party == peer && TermsMatch(signed.intent, q) && !HasParty(IntentsOf(s, id), peer) {
        HeldOkay(node.id, peer, s, id);
        AppendPeer(node.id, peer, q, IntentsOf(s, id), signed);
        AddIntentsStepKeeps(node, peer, s, id, IntentsOf(s, id) + [signed], env);
      }
    }
  }

  lemma OnOtherKeeps(node: NodeState, peer: NodeID, s: SessionState, p: Payload, env: Env)
    requires Invariant(node.id, peer, s) && Meaningful(p) && !p.SendTrade?
    ensures Invariant(node.id, peer, OnOther(node, peer, s, p, env).0)
  {
    hide OnRequest, OnResponse, OnIntent, Invariant;
    if p.RequestQuote? { OnRequestKeeps(node, peer, s, p.request, env); }
    if p.RespondQuote? { OnResponseKeeps(node, peer, s, p.quote, env); }
    if p.SendIntent? { OnIntentKeeps(node, peer, s, p.quoteId, p.signed, env); }
    if p.Pong? { PongKeeps(node.id, peer, s, p.pongTime); }
  }

  lemma NegotiateKeeps(local: NodeID, peer: NodeID, s: SessionState, auth: AuthorizedTrade, authId: TxID, now: int64,
                       id: TxID)
    requires Invariant(local, peer, s) && id in s.quotes
    ensures Invariant(local, peer, Negotiate(local, peer, s, auth, authId, now, id).session)
  {
    hide AuthorizedTradeID, Authorize, Bound, StillFresh, Invariant;
    var q := s.quotes[id];
    ClearNegotiationKeeps(local, peer, s, id, q, authId);
    AddTradeKeeps(local, peer, s, Authorize(QuoteOf(q), q.expiryUnix, auth.sellerAuth, auth.buyerAuth));
  }

  lemma OnTradeKeeps(node: NodeState, sv: StoreView, peer: NodeID, s: SessionState, auth: AuthorizedTrade, authId: TxID,
                     env: Env, found: Option<TxID>)
    requires Invariant(node.id, peer, s) && authId == AuthorizedTradeID(auth) && (found.Some? ==> found.value in s.quotes)
    ensures Invariant(node.id, peer, OnTrade(node, sv, peer, s, auth, authId, env, found).session)
  {
    hide AuthorizedTradeID, Negotiate, RunTrade, Plausible, LocalAfter, Invariant;
    if found.Some? {
      NegotiateKeeps(node.id, peer, s, auth, authId, env.now, found.value);
      var n := Negotiate(node.id, peer, s, auth, authId, env.now, found.value);
      if n.Agreed? {
        AddTradeKeeps(node.id, peer, n.session, auth);
        ClearNegotiationKeeps(node.id, peer, n.session.(trades := n.session.trades[authId := auth]), found.value, n.quote,
                              authId);
      }
    }
  }

  /** Handling any message keeps the invariant. */
  lemma HandleKeeps(node: NodeState, sv: StoreView, peer: NodeID, s: SessionState, m: Message, env: Env,
                    found: Option<TxID>)
    requires Invariant(node.id, peer, s) && MayReceive(node, peer, s, m, found)
    ensures Invariant(node.id, peer, Handle(node, sv, peer, s, m, env, found).session)
  {
    hide OnTrade, OnOther, Invariant;
    var marked := s.(seen := s.seen + {m.id});
    var heard := marked.(lastSeen := m.timestamp);
    SeenKeeps(node.id, peer, s, m.id, m.timestamp);
    if Meaningful(m.payload) {
      if m.payload.SendTrade? {
        OnTradeKeeps(node, sv, peer, heard, m.payload.auth, m.payload.authId, env, found);
      } else {
        OnOtherKeeps(node, peer, heard, m.payload, env);
      }
    }
  }
}
