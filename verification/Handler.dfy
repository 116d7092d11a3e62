/** The message handler of a session: one method per message, and the dispatch. */
module Handlers {
  import opened Base
  import opened Model
  import opened Inventory
  import opened NodeStates
  import opened SessionStates
  import opened Sessions
  import opened Nodes
  import F = Files

  // ---- Searching intents ----

  method HasPartyIntent(intents: seq<SignedIntent>, party: NodeID) returns (found: bool)
    ensures found <==> HasParty(intents, party)
  {
    for i := 0 to |intents|
      invariant forall k :: 0 <= k < i ==> intents[k].intent.party != party
    {
      if intents[i].intent.party == party { return true; }
    }
    return false;
  }

  method HasSignedIntent(intents: seq<SignedIntent>, target: SignedIntent) returns (found: bool)
    ensures found <==> target in intents
  {
    for i := 0 to |intents|
      invariant forall k :: 0 <= k < i ==> intents[k] != target
    {
      if intents[i] == target { return true; }
    }
    return false;
  }

  /** The last intent of either party. */
  method SelectIntents(intents: seq<SignedIntent>, seller: NodeID, buyer: NodeID)
    returns (sellerSig: Option<SignedIntent>, buyerSig: Option<SignedIntent>)
    ensures sellerSig == LastOf(intents, seller)
    ensures buyerSig == if buyer == seller then None else LastOf(intents, buyer)
  {
    sellerSig, buyerSig := None, None;
    for i := 0 to |intents|
      invariant sellerSig == LastOf(intents[..i], seller)
      invariant buyerSig == if buyer == seller then None else LastOf(intents[..i], buyer)
    {
      assert intents[..i + 1][..i] == intents[..i];
      if intents[i].intent.party == seller {
        sellerSig := Some(intents[i]);
      } else if intents[i].intent.party == buyer {
        buyerSig := Some(intents[i]);
      }
    }
    assert intents[..|intents|] == intents;
  }

  // ---- The specification case by case ----

  /** A shadow has no store and does not vouch for executing without one, so the local node has a store. */
  lemma DoneHasStore(node: NodeState, sv: StoreView, q: QuoteResponse, auth: AuthorizedTrade, env: Env)
    requires PeerGives(node, q) > 0 && RunTrade(node, sv, q, auth, env).outcome.Done?
    ensures sv.Some?
  {
    hide Authorized, AcceptsQuote, NotReplayed, AuthIdOf, CombiningAborts, TradeValid, PlanSides, ShadowAmount;
  }

  lemma SameMarksKept(marks: StoreView)
    ensures MarksKept(marks, marks)
  {}

  predicate Is(step: TradeStep, session: SessionState, node: NodeState, reply: Reply, done: bool) {
    step.session == session && step.node == node && step.reply == reply && step.done == done
  }

  lemma CarryOutCases(node: NodeState, sv: StoreView, t: SessionState, q: QuoteResponse, auth: AuthorizedTrade,
                      authId: TxID, env: Env, id: TxID)
    ensures PeerGives(node, q) <= 0 ==> Is(CarryOut(node, sv, t, q, auth, authId, env, id), t, node, Fail, false)
    ensures PeerGives(node, q) > 0 ==>
      var e := RunTrade(node, sv, q, auth, env);
      var held := t.(trades := t.trades[authId := auth]);
      var step := CarryOut(node, sv, t, q, auth, authId, env, id);
      && (e.outcome.Aborted? ==> Is(step, t, node, Fail, false))
      && (e.outcome.Failed? ==>
            Is(step, held, node, if env.replies then FailWith(Result(authId, false)) else Fail, false))
      && (e.outcome.Done? && !env.replies ==> Is(step, held, LocalAfter(node, q, e), Fail, true))
      && (e.outcome.Done? && env.replies ==>
            Is(step, SessionStates.ClearNegotiation(held, id, q, authId), LocalAfter(node, q, e),
                              Respond(Result(authId, true)), true))
  {
    hide RunTrade, LocalAfter, SessionStates.ClearNegotiation;
  }

  lemma OnTradeCases(node: NodeState, sv: StoreView, peer: NodeID, s: SessionState, auth: AuthorizedTrade, authId: TxID,
                     env: Env, found: Option<TxID>)
    requires found.Some? ==> found.value in s.quotes
    ensures var step := OnTrade(node, sv, peer, s, auth, authId, env, found);
      if !Plausible(node.id, peer, auth) || found.None? then Is(step, s, node, Fail, false)
      else
        var n := Negotiate(node.id, peer, s, auth, authId, env.now, found.value);
        if n.Refused? then Is(step, n.session, node, Fail, false)
        else step == CarryOut(node, sv, n.session, n.quote, auth, authId, env, found.value)
  {
    hide Negotiate, CarryOut, Plausible;
  }

  function Heard(s: SessionState, m: Message): SessionState {
    s.(seen := s.seen + {m.id}).(lastSeen := m.timestamp)
  }

  lemma HandleCases(node: NodeState, sv: StoreView, peer: NodeID, s: SessionState, m: Message, env: Env,
                    found: Option<TxID>)
    requires MayReceive(node, peer, s, m, found)
    ensures var step := Handle(node, sv, peer, s, m, env, found);
      if !m.authentic || m.sender != peer || m.id in s.seen then Is(step, s, node, Fail, false)
      else if !m.decodes || !Meaningful(m.payload) then Is(step, s.(seen := s.seen + {m.id}), node, Fail, false)
      else if m.payload.SendTrade? then
        (found.Some? ==> found.value in s.quotes)
        && step == OnTrade(node, sv, peer, Heard(s, m), m.payload.auth, m.payload.authId, env, found)
      else
        Is(step, OnOther(node, peer, Heard(s, m), m.payload, env).0, node,
                          OnOther(node, peer, Heard(s, m), m.payload, env).1, false)
  {
    hide OnTrade, OnOther, Meaningful, TradeMatches;
  }

  class Handler {
    const node: Node
    const session: Session

    constructor (node: Node, session: Session)
      requires session.LocalID == node.id
      ensures this.node == node && this.session == session
    {
      this.node := node;
      this.session := session;
    }

    // ---- Quotes ----

    method HandleQuoteRequest(r: QuoteRequest, env: Env) returns (reply: Reply)
      modifies session
      ensures (session.View(), reply) == OnRequest(node.State(), session.PeerID, old(session.View()), r, env)
    {
      hide SessionStates.ClearRequest, QuoteSell, Meaningful;
      if r.seller != node.id || r.buyer != session.PeerID { return Send(env, Reject("INVALID_ROLE")); }
      if IsExpired(r.expiryUnix, env.now) {
        session.ClearRequest(r.requestId);
        return Send(env, Reject("QUOTE_EXPIRED"));
      }
      session.PendingRequests := session.PendingRequests[r.requestId := r];
      var q := QuoteSell(node.State(), r, env);
      if !Meaningful(RespondQuote(q)) { return Fail; }
      session.PendingQuotes := session.PendingQuotes[q.quoteId := q];
      return Send(env, RespondQuote(q));
    }

    method HandleQuoteResponse(q: QuoteResponse, env: Env) returns (reply: Reply)
      modifies session
      ensures (session.View(), reply) == OnResponse(node.State(), session.PeerID, old(session.View()), q, env)
    {
      hide SessionStates.ClearRequest, QuoteIDFor, SignQuote, Fresh, AnswersRequest, Owns;
      if !Owns(node.id, session.PeerID, q.seller, q.buyer) { return Send(env, Reject("INVALID_ROLE")); }
      if q.requestId !in session.PendingRequests { return Send(env, Reject("UNEXPECTED_QUOTE_RESPONSE")); }
      var r := session.PendingRequests[q.requestId];
      if !AnswersRequest(q, r) || !Fresh(Some(r), q, env.now) || (q.executable && !env.pricesAgree) {
        if !Fresh(Some(r), q, env.now) { session.ClearRequest(q.requestId); }
        return Send(env, Reject("QUOTE_MISMATCH"));
      }
      if QuoteIDFor(q) != q.quoteId { return Send(env, Reject("QUOTE_ID_MISMATCH")); }
      session.PendingQuotes := session.PendingQuotes[q.quoteId := q];
      if !q.executable { return Silent; }
      var signed := SignQuote(node.State(), QuoteOf(q), env);
      if signed.None? { return Send(env, Reject("SIGN_INTENT_FAILED")); }
      session.PendingIntents := session.PendingIntents[q.quoteId := IntentsOf(session.View(), q.quoteId) + [signed.value]];
      return Send(env, SendIntent(q.quoteId, signed.value));
    }

    // ---- Intents ----

    /** Builds and offers the trade once both intents are there. */
    method OfferIfComplete(q: QuoteResponse, intents: seq<SignedIntent>, env: Env) returns (reply: Reply)
      modifies session
      ensures (session.View(), reply) == OfferTrade(old(session.View()), q, intents, env)
    {
      hide AuthorizedTradeID, Authorize;
      var sellerSig, buyerSig := SelectIntents(intents, q.seller, q.buyer);
      if sellerSig.None? || buyerSig.None? || sellerSig.value.signature.NoSig? || buyerSig.value.signature.NoSig? {
        return Silent;
      }
      var auth := Authorize(QuoteOf(q), q.expiryUnix, sellerSig.value, buyerSig.value);
      var id := AuthorizedTradeID(auth);
      session.PendingTrades := session.PendingTrades[id := auth];
      return Send(env, SendTrade(auth, id));
    }

    method AddSignedIntent(id: TxID, q: QuoteResponse, intents: seq<SignedIntent>, env: Env) returns (reply: Reply)
      modifies session
      ensures (session.View(), reply) == AddIntents(node.State(), old(session.View()), id, q, intents, env)
    {
      hide SignQuote, OfferTrade, HasParty;
      session.PendingIntents := session.PendingIntents[id := intents];
      var mine := HasPartyIntent(intents, node.id);
      if !mine && (node.id == q.seller || node.id == q.buyer) {
        var signed := SignQuote(node.State(), QuoteOf(q), env);
        if signed.None? { return Send(env, Reject("SIGN_INTENT_FAILED")); }
        session.PendingIntents := session.PendingIntents[id := intents + [signed.value]];
        reply := OfferIfComplete(q, intents + [signed.value], env);
      } else {
        reply := OfferIfComplete(q, intents, env);
      }
    }

    method HandleSignedIntent(id: TxID, signed: SignedIntent, env: Env) returns (reply: Reply)
      modifies session
      ensures (session.View(), reply) == OnIntent(node.State(), session.PeerID, old(session.View()), id, signed, env)
    {
      hide SessionStates.ClearNegotiation, AddIntents, StillFresh, HasParty, TermsMatch, Owns;
      if id !in session.PendingQuotes { return Send(env, Reject("UNEXPECTED_SIGNED_INTENT")); }
      var q := session.PendingQuotes[id];
      if !StillFresh(session.View(), q, env.now) {
        session.ClearNegotiation(id, q, ZERO_TX_ID);
        return Send(env, Reject("QUOTE_EXPIRED"));
      }
      if !Owns(node.id, session.PeerID, q.seller, q.buyer) { return Send(env, Reject("INVALID_ROLE")); }
      if signed.intent.party != session.PeerID { return Send(env, Reject("INVALID_ROLE")); }
      if !TermsMatch(signed.intent, q) { return Send(env, Reject("INTENT_MISMATCH")); }
      var intents := IntentsOf(session.View(), id);
      var duplicate := HasPartyIntent(intents, signed.intent.party);
      if duplicate { return Send(env, Reject("DUPLICATE_INTENT")); }
      reply := AddSignedIntent(id, q, intents + [signed], env);
    }

    method HandleOther(p: Payload, env: Env) returns (reply: Reply)
      requires !p.SendTrade?
      modifies session
      ensures (session.View(), reply) == OnOther(node.State(), session.PeerID, old(session.View()), p, env)
    {
      hide OnRequest, OnResponse, OnIntent;
      match p {
        case Hello(id) => reply := if id == session.PeerID then Silent else Fail;
        case RequestQuote(r) => reply := HandleQuoteRequest(r, env);
        case RespondQuote(q) => reply := HandleQuoteResponse(q, env);
        case SendIntent(id, signed) => reply := HandleSignedIntent(id, signed, env);
        case Result(id, _) => reply := if id in session.PendingTrades then Silent else Fail;
        case Reject(_) => reply := Silent;
        case Ping(time) => reply := Send(env, Pong(time, env.now));
        case Pong(_, time) =>
          session.LastSeenUnix := time;
          reply := Silent;
      }
    }

    // ---- Authorized trades ----

    method BindAuthorizedIntents(id: TxID, auth: AuthorizedTrade) returns (ok: bool)
      ensures ok <==> Bound(node.id, session.PeerID, session.View(), id, auth)
    {
      var intents := IntentsOf(session.View(), id);
      var mine, theirs := auth.sellerAuth, auth.buyerAuth;
      if node.id == auth.buyerAuth.intent.party { mine, theirs := auth.buyerAuth, auth.sellerAuth; }
      if mine.intent.party != node.id { return false; }
      if theirs.intent.party != session.PeerID { return false; }
      ok := HasSignedIntent(intents, mine);
      if !ok { return; }
      ok := HasSignedIntent(intents, theirs);
    }

    /** What one matching quote says about the trade. */
    method TryQuote(auth: AuthorizedTrade, authId: TxID, now: int64, id: TxID) returns (quote: Option<QuoteResponse>)
      requires id in session.PendingQuotes
      modifies session
      ensures var n := Negotiate(node.id, session.PeerID, old(session.View()), auth, authId, now, id);
        session.View() == n.session && quote == if n.Agreed? then Some(n.quote) else None
    {
      hide AuthorizedTradeID, Authorize, Bound, StillFresh, SessionStates.ClearNegotiation;
      var q := session.PendingQuotes[id];
      if !StillFresh(session.View(), q, now) {
        session.ClearNegotiation(id, q, authId);
        return None;
      }
      if auth.sellerAuth.intent.party != q.seller || auth.buyerAuth.intent.party != q.buyer { return None; }
      var bound := BindAuthorizedIntents(id, auth);
      if !bound { return None; }
      var rebuilt := Authorize(QuoteOf(q), q.expiryUnix, auth.sellerAuth, auth.buyerAuth);
      if AuthorizedTradeID(rebuilt) != authId { return None; }
      if authId in session.PendingTrades && AuthorizedTradeID(session.PendingTrades[authId]) != authId { return None; }
      session.PendingTrades := session.PendingTrades[authId := rebuilt];
      return Some(q);
    }

    /** Goes through the pending quotes in any order and lets the first that matches decide. */
    method AuthorizedNegotiation(auth: AuthorizedTrade, authId: TxID, now: int64)
      returns (quote: Option<QuoteResponse>, found: Option<TxID>)
      modifies session
      ensures Settles(node.id, session.PeerID, old(session.View()), SendTrade(auth, authId), found)
      ensures found.Some? ==> found.value in old(session.PendingQuotes)
      ensures found.None? ==> quote.None? && session.View() == old(session.View())
      ensures found.Some? ==>
        var n := Negotiate(node.id, session.PeerID, old(session.View()), auth, authId, now, found.value);
        session.View() == n.session && quote == if n.Agreed? then Some(n.quote) else None
    {
      hide Negotiate, Owns, TradeMatches;
      var unseen := session.PendingQuotes.Keys;
      while unseen != {}
        invariant unseen <= session.PendingQuotes.Keys && session.View() == old(session.View())
        invariant forall id :: id in session.PendingQuotes && id !in unseen ==>
          !Candidate(node.id, session.PeerID, session.View(), id, auth)
        decreases |unseen|
      {
        var id :| id in unseen;
        unseen := unseen - {id};
        var q := session.PendingQuotes[id];
        if Owns(node.id, session.PeerID, q.seller, q.buyer) && TradeMatches(auth, q) {
          quote := TryQuote(auth, authId, now, id);
          return quote, Some(id);
        }
      }
      return None, None;
    }

    /** A stand-in for the peer that holds what the peer has to give. */
    method PeerShadow(id: NodeID, unit: UnitID, amount: Amount, key: Bytes) returns (peer: Node)
      requires amount > 0
      ensures fresh(peer) && fresh(peer.Inventory)
      ensures peer.State() == Shadow(id, unit, amount, key) && peer.Store == null
    {
      peer := new Node(id);
      var ok := peer.Inventory.AddChecked(id, unit, ShadowAmount(amount));
      assert ok;
      assert peer.Inventory.Holdings == map[id := map[unit := ShadowAmount(amount)]];
      peer.publicKey := key;
    }

    method ExecuteAsSeller(q: QuoteResponse, auth: AuthorizedTrade, env: Env) returns (outcome: Outcome, stored: bool)
      requires node.id == q.seller && PeerGives(node.State(), q) > 0
      modifies node, node.Store
      ensures var e := RunTrade(old(node.State()), old(node.Marks()), q, auth, env.(persisted := stored));
        && outcome == e.outcome
        && node.State() == (if e.outcome.Done? then LocalAfter(old(node.State()), q, e) else old(node.State()))
      ensures node.Store == old(node.Store)
      ensures outcome.Done? && node.Store != null ==>
        node.Marks() == Some(old(node.Marks()).value + {AuthIdOf(RequestOf(q, auth, env))})
      ensures MarksKept(old(node.Marks()), node.Marks())
    {
      hide PlanSigned, AuthIdOf, AuthOf, ShadowAmount, DiskOutcome, OnDisk, Parties;
      ghost var plan;
      var tx;
      var buyer := PeerShadow(q.buyer, q.buyUnit, q.buyAmount, auth.buyerAuth.publicKey);
      outcome, tx, stored, plan := ExecuteSignedTrade(node, buyer, RequestOf(q, auth, env));
    }

    method ExecuteAsBuyer(q: QuoteResponse, auth: AuthorizedTrade, env: Env) returns (outcome: Outcome, stored: bool)
      requires node.id != q.seller && PeerGives(node.State(), q) > 0
      modifies node, node.Store
      ensures var e := RunTrade(old(node.State()), old(node.Marks()), q, auth, env.(persisted := stored));
        && outcome == e.outcome
        && node.State() == (if e.outcome.Done? then LocalAfter(old(node.State()), q, e) else old(node.State()))
      ensures node.Store == old(node.Store)
      ensures outcome.Done? && node.Store != null ==>
        node.Marks() == Some(old(node.Marks()).value + {AuthIdOf(RequestOf(q, auth, env))})
      ensures MarksKept(old(node.Marks()), node.Marks())
    {
      hide PlanSigned, AuthIdOf, AuthOf, ShadowAmount, DiskOutcome, OnDisk, Parties;
      ghost var plan;
      var tx;
      var seller := PeerShadow(q.seller, q.sellUnit, q.sellAmount, auth.sellerAuth.publicKey);
      outcome, tx, stored, plan := ExecuteSignedTrade(seller, node, RequestOf(q, auth, env));
    }

    /** Executes a negotiated trade on the local node and a shadow of the peer. */
    method ExecuteNegotiated(q: QuoteResponse, auth: AuthorizedTrade, env: Env) returns (outcome: Outcome, stored: bool)
      requires PeerGives(node.State(), q) > 0
      modifies node, node.Store
      ensures var e := RunTrade(old(node.State()), old(node.Marks()), q, auth, env.(persisted := stored));
        && outcome == e.outcome
        && node.State() == (if e.outcome.Done? then LocalAfter(old(node.State()), q, e) else old(node.State()))
      ensures node.Store == old(node.Store)
      ensures outcome.Done? && node.Store != null ==>
        node.Marks() == Some(old(node.Marks()).value + {AuthIdOf(RequestOf(q, auth, env))})
      ensures MarksKept(old(node.Marks()), node.Marks())
    {
      hide RunTrade, LocalAfter, AuthIdOf;
      if node.id == q.seller {
        outcome, stored := ExecuteAsSeller(q, auth, env);
      } else {
        outcome, stored := ExecuteAsBuyer(q, auth, env);
      }
    }

    /** What the session keeps once the trade has run. */
    method Conclude(q: QuoteResponse, auth: AuthorizedTrade, authId: TxID, outcome: Outcome, replies: bool, id: TxID)
      returns (reply: Reply)
      modifies session
      ensures outcome.Aborted? ==> session.View() == old(session.View()) && reply == Fail
      ensures var held := old(session.View()).(trades := old(session.PendingTrades)[authId := auth]);
        && (outcome.Failed? ==> session.View() == held && reply == if replies then FailWith(Result(authId, false)) else Fail)
        && (outcome.Done? && !replies ==> session.View() == held && reply == Fail)
        && (outcome.Done? && replies ==>
              session.View() == SessionStates.ClearNegotiation(held, id, q, authId) && reply == Respond(Result(authId, true)))
    {
      hide SessionStates.ClearNegotiation;
      if outcome.Aborted? { return Fail; }
      session.PendingTrades := session.PendingTrades[authId := auth];
      if outcome.Failed? { return if replies then FailWith(Result(authId, false)) else Fail; }
      if !replies { return Fail; }
      session.ClearNegotiation(id, q, authId);
      return Respond(Result(authId, true));
    }

    method CarryOutTrade(q: QuoteResponse, auth: AuthorizedTrade, authId: TxID, env: Env, id: TxID,
                         ghost n: NodeState, ghost marks: StoreView, ghost t: SessionState)
      returns (reply: Reply, stored: bool, done: bool)
      requires n == node.State() && marks == node.Marks() && t == session.View()
      modifies session, node, node.Store
      ensures Is(CarryOut(n, marks, t, q, auth, authId, env.(persisted := stored), id),
                 session.View(), node.State(), reply, done)
      ensures node.Store == old(node.Store)
      ensures done ==> marks.Some? && node.Marks() == Some(marks.value + {AuthIdOf(RequestOf(q, auth, env))})
      ensures MarksKept(marks, node.Marks())
    {
      hide RunTrade, CarryOut, SessionStates.ClearNegotiation, AuthIdOf, LocalAfter, PeerGives, RequestOf;
      hide F.Evidence, MarksKept, Is;
      if PeerGives(node.State(), q) <= 0 {
        SameMarksKept(marks);
        CarryOutCases(n, marks, t, q, auth, authId, env.(persisted := true), id);
        return Fail, true, false;
      }
      var outcome;
      outcome, stored := ExecuteNegotiated(q, auth, env);
      CarryOutCases(n, marks, t, q, auth, authId, env.(persisted := stored), id);
      if outcome.Done? { DoneHasStore(n, marks, q, auth, env.(persisted := stored)); }
      reply := Conclude(q, auth, authId, outcome, env.replies, id);
      done := outcome.Done?;
    }

    /** The search and what follows from it. */
    method HandlePlausible(auth: AuthorizedTrade, authId: TxID, env: Env,
                           ghost n: NodeState, ghost marks: StoreView, ghost s: SessionState)
      returns (reply: Reply, found: Option<TxID>, stored: bool, done: bool)
      requires n == node.State() && marks == node.Marks()
      requires s == session.View() && Plausible(n.id, session.PeerID, auth)
      modifies session, node, node.Store
      ensures Settles(n.id, session.PeerID, s, SendTrade(auth, authId), found)
      ensures found.Some? ==> found.value in s.quotes
      ensures Is(OnTrade(n, marks, session.PeerID, s, auth, authId, env.(persisted := stored), found),
                 session.View(), node.State(), reply, done)
      ensures MarksAfter(s, marks, SendTrade(auth, authId), env, found, done, node.Marks())
      ensures node.Store == old(node.Store)
    {
      hide OnTrade, Negotiate, CarryOut, Settles, Plausible, AuthIdOf, RequestOf;
      var quote;
      quote, found := AuthorizedNegotiation(auth, authId, env.now);
      stored, done, reply := true, false, Fail;
      if quote.Some? {
        AgreedQuote(n.id, session.PeerID, s, auth, authId, env.now, found.value);
        reply, stored, done := CarryOutTrade(quote.value, auth, authId, env, found.value, n, marks, session.View());
      }
      OnTradeCases(n, marks, session.PeerID, s, auth, authId, env.(persisted := stored), found);
    }

    method HandleAuthorizedTrade(auth: AuthorizedTrade, authId: TxID, env: Env,
                                 ghost n: NodeState, ghost marks: StoreView, ghost s: SessionState)
      returns (reply: Reply, ghost found: Option<TxID>, stored: bool, done: bool)
      requires n == node.State() && marks == node.Marks() && s == session.View()
      modifies session, node, node.Store
      ensures Settles(n.id, session.PeerID, s, SendTrade(auth, authId), found)
      ensures found.Some? ==> found.value in s.quotes
      ensures Is(OnTrade(n, marks, session.PeerID, s, auth, authId, env.(persisted := stored), found),
                 session.View(), node.State(), reply, done)
      ensures MarksAfter(s, marks, SendTrade(auth, authId), env, found, done, node.Marks())
      ensures node.Store == old(node.Store)
    {
      hide OnTrade, Negotiate, CarryOut, Settles, Plausible, MarksAfter;
      if !Plausible(node.id, session.PeerID, auth) {
        found := Settle(s, SendTrade(auth, authId));
        NothingMarked(s, marks, SendTrade(auth, authId), env, found);
        OnTradeCases(n, marks, session.PeerID, s, auth, authId, env.(persisted := true), found);
        return Fail, found, true, false;
      }
      reply, found, stored, done := HandlePlausible(auth, authId, env, n, marks, s);
    }

    /** A message that is refused before the search leaves open which quote it would have found. */
    ghost method Settle(s: SessionState, p: Payload) returns (found: Option<TxID>)
      ensures Settles(node.id, session.PeerID, s, p, found)
      ensures found.Some? ==> found.value in s.quotes
    {
      found := None;
      if p.SendTrade? {
        if id :| id in s.quotes && Candidate(node.id, session.PeerID, s, id, p.auth) {
          found := Some(id);
        }
      }
    }

    // ---- Dispatch ----

    /** Whether a message is for the handlers, and what the session remembers of it either way. */
    method AcceptMessage(m: Message) returns (heard: bool)
      modifies session
      ensures heard <==>
        m.authentic && m.sender == session.PeerID && m.id !in old(session.SeenMessages) && m.decodes && Meaningful(m.payload)
      ensures session.View() ==
        if heard then Heard(old(session.View()), m)
        else if m.authentic && m.sender == session.PeerID && m.id !in old(session.SeenMessages)
        then old(session.View()).(seen := old(session.SeenMessages) + {m.id})
        else old(session.View())
    {
      hide Meaningful;
      if !m.authentic { return false; }
      if m.sender != session.PeerID { return false; }
      var unseen := session.MarkSeen(m.id);
      if !unseen {
        assert session.SeenMessages == old(session.SeenMessages);
        return false;
      }
      if !m.decodes || !Meaningful(m.payload) { return false; }
      session.LastSeenUnix := m.timestamp;
      return true;
    }

    method HandleHeard(p: Payload, env: Env, ghost n: NodeState, ghost marks: StoreView, ghost s: SessionState)
      returns (reply: Reply, ghost found: Option<TxID>, ghost stored: bool, done: bool)
      requires n == node.State() && marks == node.Marks() && s == session.View()
      modifies session, node, node.Store
      ensures Settles(n.id, session.PeerID, s, p, found) && (p.SendTrade? && found.Some? ==> found.value in s.quotes)
      ensures p.SendTrade? ==>
        Is(OnTrade(n, marks, session.PeerID, s, p.auth, p.authId, env.(persisted := stored), found),
           session.View(), node.State(), reply, done)
      ensures !p.SendTrade? ==>
        (session.View(), reply) == OnOther(n, session.PeerID, s, p, env) && node.State() == n && !done && stored == env.persisted
      ensures MarksAfter(s, marks, p, env, found, done, node.Marks())
      ensures node.Store == old(node.Store)
    {
      hide OnOther, OnTrade, Candidate, MarksAfter;
      if p.SendTrade? {
        var persisted;
        reply, found, persisted, done := HandleAuthorizedTrade(p.auth, p.authId, env, n, marks, s);
        stored := persisted;
      } else {
        found, stored, done := None, env.persisted, false;
        NothingMarked(s, marks, p, env, None);
        reply := HandleOther(p, env);
      }
    }

    method HandleAccepted(m: Message, env: Env, heard: bool, ghost n: NodeState, ghost marks: StoreView,
                          ghost s: SessionState)
      returns (reply: Reply, ghost found: Option<TxID>, ghost stored: bool, done: bool)
      requires n == node.State() && marks == node.Marks()
      requires heard <==> m.authentic && m.sender == session.PeerID && m.id !in s.seen && m.decodes && Meaningful(m.payload)
      requires session.View() ==
        if heard then Heard(s, m)
        else if m.authentic && m.sender == session.PeerID && m.id !in s.seen then s.(seen := s.seen + {m.id})
        else s
      modifies session, node, node.Store
      ensures MayReceive(n, session.PeerID, s, m, found)
      ensures Is(Handle(n, marks, session.PeerID, s, m, env.(persisted := stored), found),
                 session.View(), node.State(), reply, done)
      ensures MarksAfter(s, marks, m.payload, env, found, done, node.Marks())
      ensures node.Store == old(node.Store)
    {
      hide Handle, OnOther, OnTrade, Meaningful, Candidate, Settles, MarksAfter;
      if !heard {
        found := Settle(s, m.payload);
        NothingMarked(s, marks, m.payload, env, found);
        HandleCases(n, marks, session.PeerID, s, m, env, found);
        return Fail, found, env.persisted, false;
      }
      reply, found, stored, done := HandleHeard(m.payload, env, n, marks, Heard(s, m));
      SameSearch(n.id, session.PeerID, s, Heard(s, m), m.payload, found);
      SameMarks(s, Heard(s, m), marks, m.payload, env, found, done, node.Marks());
      HandleCases(n, marks, session.PeerID, s, m, env.(persisted := stored), found);
    }

    /** Handles one message of the session's peer. */
    method HandleMessage(m: Message, env: Env)
      returns (reply: Reply, ghost found: Option<TxID>, ghost stored: bool, done: bool)
      modifies session, node, node.Store
      ensures MayReceive(old(node.State()), session.PeerID, old(session.View()), m, found)
      ensures Is(Handle(old(node.State()), old(node.Marks()), session.PeerID, old(session.View()), m,
                        env.(persisted := stored), found),
                 session.View(), node.State(), reply, done)
      ensures MarksAfter(old(session.View()), old(node.Marks()), m.payload, env, found, done, node.Marks())
      ensures node.Store == old(node.Store)
    {
      hide Handle, Meaningful, MayReceive, MarksAfter;
      ghost var n, marks, s := node.State(), node.Marks(), session.View();
      var heard := AcceptMessage(m);
      reply, found, stored, done := HandleAccepted(m, env, heard, n, marks, s);
    }
  }

  lemma SameMarks(s: SessionState, t: SessionState, before: StoreView, p: Payload, env: Env, found: Option<TxID>,
                  done: bool,
                  after: StoreView)
    requires t.quotes == s.quotes && MarksAfter(t, before, p, env, found, done, after)
    ensures MarksAfter(s, before, p, env, found, done, after)
  {
    hide AuthIdOf, RequestOf;
  }

  lemma NothingMarked(s: SessionState, before: StoreView, p: Payload, env: Env, found: Option<TxID>)
    ensures MarksAfter(s, before, p, env, found, false, before)
  {
    hide AuthIdOf, RequestOf;
  }

  lemma AgreedQuote(local: NodeID, peer: NodeID, s: SessionState, auth: AuthorizedTrade, authId: TxID, now: int64,
                    id: TxID)
    requires id in s.quotes && Negotiate(local, peer, s, auth, authId, now, id).Agreed?
    ensures Negotiate(local, peer, s, auth, authId, now, id).quote == s.quotes[id]
  {
    hide AuthorizedTradeID, Authorize, Bound, StillFresh;
  }

  lemma SameSearch(local: NodeID, peer: NodeID, s: SessionState, t: SessionState, p: Payload, found: Option<TxID>)
    requires t.quotes == s.quotes && Settles(local, peer, t, p, found)
    ensures Settles(local, peer, s, p, found)
  {}
}
