/** What one message does to a session, condition by condition, and what it leaves alone. */
module SessionVerdicts {
  import opened Base
  import opened Model
  import opened Inventory
  import opened NodeStates
  import opened SessionStates
  import opened SessionLaws
  import NodeLaws
  import R = SessionRuns

  // ---- The envelope ----

  predicate Accepts(peer: NodeID, s: SessionState, m: Message) {
    m.authentic && m.sender == peer && m.id !in s.seen
  }

  lemma OtherKeepsSeen(node: NodeState, peer: NodeID, s: SessionState, p: Payload, env: Env)
    requires !p.SendTrade?
    ensures var t := OnOther(node, peer, s, p, env).0;
      t.seen == s.seen && t.lastSeen == if p.Pong? then p.pongTime else s.lastSeen
  {
    hide QuoteSell, QuoteIDFor, Meaningful, SignQuote, Fresh, Owns, TermsMatch, HasParty, AuthorizedTradeID, StillFresh;
    hide LastOf, IntentsOf, AnswersRequest, BuildTradeTx;
  }

  lemma TradeKeepsSeen(node: NodeState, sv: StoreView, peer: NodeID, s: SessionState, auth: AuthorizedTrade,
                       authId: TxID, env: Env, found: Option<TxID>)
    requires found.Some? ==> found.value in s.quotes
    ensures var t := OnTrade(node, sv, peer, s, auth, authId, env, found).session;
      t.seen == s.seen && t.lastSeen == s.lastSeen
  {
    hide RunTrade, AuthorizedTradeID, LocalAfter, Plausible, TradeMatches, Bound, StillFresh, BuildTradeTx;
  }

  /** A message that is forged, from someone else or seen before changes nothing. One that is accepted is
      remembered; if it also decodes to something meaningful its time is noted, or that of a pong. */
  lemma EnvelopeVerdict(node: NodeState, sv: StoreView, peer: NodeID, s: SessionState, m: Message, env: Env,
                        found: Option<TxID>)
    requires MayReceive(node, peer, s, m, found)
    ensures var step := Handle(node, sv, peer, s, m, env, found);
      if !Accepts(peer, s, m) then step == TradeStep(s, node, Fail, false)
      else if !m.decodes || !Meaningful(m.payload) then
        step == TradeStep(s.(seen := s.seen + {m.id}), node, Fail, false)
      else
        && step.session.seen == s.seen + {m.id}
        && step.session.lastSeen == if m.payload.Pong? then m.payload.pongTime else m.timestamp
  {
    hide OnOther, OnTrade, Meaningful, TradeMatches;
    if Accepts(peer, s, m) && m.decodes && Meaningful(m.payload) {
      var heard := s.(seen := s.seen + {m.id}).(lastSeen := m.timestamp);
      if m.payload.SendTrade? {
        if found.Some? { R.CandidatePending(node, peer, s, m, found); }
        TradeKeepsSeen(node, sv, peer, heard, m.payload.auth, m.payload.authId, env, found);
      } else {
        OtherKeepsSeen(node, peer, heard, m.payload, env);
      }
    }
  }

  lemma StepRemembers(peer: NodeID, a: R.State, e: R.Event, b: R.State)
    requires R.Steps(peer, a, e, b)
    ensures a.session.seen <= b.session.seen
    ensures e.Receive? && e.m.authentic && e.m.sender == peer ==> e.m.id in b.session.seen
    ensures e.Receive? && e.m.id in a.session.seen ==> b.session == a.session && b.node == a.node
  {
    hide Handle, MarksAfter, Meaningful;
    if e.Receive? { EnvelopeVerdict(a.node, a.marks, peer, a.session, e.m, e.env, e.found); }
  }

  lemma {:induction false} RunRemembers(peer: NodeID, states: seq<R.State>, events: seq<R.Event>, j: nat, k: nat)
    requires R.IsRun(peer, states, events) && j <= k < |states|
    ensures states[j].session.seen <= states[k].session.seen
    decreases k - j
  {
    hide R.Steps, Invariant;
    if j < k {
      assert R.Steps(peer, states[j], events[j], states[j + 1]);
      StepRemembers(peer, states[j], events[j], states[j + 1]);
      RunRemembers(peer, states, events, j + 1, k);
    }
  }

  /** A message identifier has an effect once: after a run has handled a message of the peer, receiving one with
      the same identifier again changes neither session nor node. */
  lemma RepeatedMessageIgnored(peer: NodeID, states: seq<R.State>, events: seq<R.Event>, j: nat, k: nat)
    requires R.IsRun(peer, states, events) && j < k < |events| && events[j].Receive? && events[k].Receive?
    requires events[j].m.authentic && events[j].m.sender == peer && events[k].m.id == events[j].m.id
    ensures states[k + 1].session == states[k].session && states[k + 1].node == states[k].node
  {
    hide R.Steps, Invariant;
    assert R.Steps(peer, states[j], events[j], states[j + 1]) && R.Steps(peer, states[k], events[k], states[k + 1]);
    StepRemembers(peer, states[j], events[j], states[j + 1]);
    RunRemembers(peer, states, events, j + 1, k);
    StepRemembers(peer, states[k], events[k], states[k + 1]);
  }

  // ---- Small messages ----

  lemma SmallMessages(node: NodeState, peer: NodeID, s: SessionState, p: Payload, env: Env)
    requires p.Hello? || p.Result? || p.Reject? || p.Ping? || p.Pong?
    ensures var (t, reply) := OnOther(node, peer, s, p, env);
      && t == (if p.Pong? then s.(lastSeen := p.pongTime) else s)
      && (p.Hello? ==> reply == if p.nodeId == peer then Silent else Fail)
      && (p.Result? ==> reply == if p.resultId in s.trades then Silent else Fail)
      && (p.Ping? ==> reply == if env.replies then Respond(Pong(p.time, env.now)) else Fail)
      && (p.Reject? || p.Pong? ==> reply == Silent)
  {}

  // ---- Quotes ----

  /** A quote between the two ends that answers a pending request field by field, while both are in time, with
      prices that agree if it is executable, under its own identifier. */
  predicate TakesQuote(local: NodeID, peer: NodeID, s: SessionState, q: QuoteResponse, env: Env) {
    && ((q.seller == local && q.buyer == peer) || (q.seller == peer && q.buyer == local))
    && q.requestId in s.requests && AnswersInTime(s.requests[q.requestId], q, env)
    && QuoteIDFor(q) == q.quoteId
  }

  predicate AnswersInTime(r: QuoteRequest, q: QuoteResponse, env: Env) {
    && r.requestId == q.requestId && r.seller == q.seller && r.buyer == q.buyer
    && r.sellUnit == q.sellUnit && r.buyUnit == q.buyUnit && r.sellAmount == q.sellAmount
    && (r.expiryUnix > 0 ==> env.now <= r.expiryUnix && q.expiryUnix != 0 && q.expiryUnix <= r.expiryUnix)
    && (q.expiryUnix > 0 ==> env.now <= q.expiryUnix)
    && (q.executable ==> env.pricesAgree)
  }

  lemma AnswersWhen(r: QuoteRequest, q: QuoteResponse, env: Env)
    ensures AnswersInTime(r, q, env) <==>
      AnswersRequest(q, r) && Fresh(Some(r), q, env.now) && (q.executable ==> env.pricesAgree)
  {}

  /** Such a quote is stored, and signed if it is executable and the node signs it; any other is refused, and at
      most what belongs to its request is cleared, which happens only if that is out of time. */
  lemma ResponseVerdict(node: NodeState, peer: NodeID, s: SessionState, q: QuoteResponse, env: Env)
    ensures var (t, reply) := OnOther(node, peer, s, RespondQuote(q), env);
      var signed := SignQuote(node, QuoteOf(q), env);
      if TakesQuote(node.id, peer, s, q, env) then
        && t == s.(quotes := s.quotes[q.quoteId := q], intents := t.intents)
        && t.intents == (if q.executable && signed.Some?
                         then s.intents[q.quoteId := IntentsOf(s, q.quoteId) + [signed.value]] else s.intents)
        && reply == if !q.executable then Silent
                    else if signed.Some? then Send(env, SendIntent(q.quoteId, signed.value))
                    else Send(env, Reject("SIGN_INTENT_FAILED"))
      else
        && (reply.Fail? || (reply.Respond? && reply.payload.Reject?))
        && (t != s ==> t == ClearRequest(s, q.requestId) && q.requestId in s.requests
                       && !Fresh(Some(s.requests[q.requestId]), q, env.now))
  {
    hide QuoteIDFor, SignQuote, SessionStates.ClearRequest, AnswersInTime, AnswersRequest, Fresh;
    if q.requestId in s.requests { AnswersWhen(s.requests[q.requestId], q, env); }
  }

  /** A node signs exactly executable quotes it is party to, has a key and a time for, agrees with and can pay, and
      what it signs are the terms of the quote, as the party it is. */
  lemma SignVerdict(node: NodeState, q: Quote, env: Env)
    ensures var signed := SignQuote(node, q, env);
      && (signed.Some? <==>
            && q.executable && env.hasKey && env.agrees && q.timestamp > 0
            && (if node.id == q.seller then NodeLaws.Balance(node, q.sellUnit) >= q.sellAmount
                else node.id == q.buyer && NodeLaws.Balance(node, q.buyUnit) >= q.buyAmount))
      && (signed.Some? ==>
            && VerifyTradeIntent(signed.value) && signed.value.intent.party == node.id
            && signed.value.intent.seller == q.seller && signed.value.intent.buyer == q.buyer
            && signed.value.intent.sellUnit == q.sellUnit && signed.value.intent.buyUnit == q.buyUnit
            && signed.value.intent.sellAmount == q.sellAmount && signed.value.intent.buyAmount == q.buyAmount
            && signed.value.intent.timestamp == q.timestamp)
  {}

  // ---- Intents ----

  /** The peer's first intent for a pending quote of the pair that is still fresh, on its terms. */
  predicate TakesIntent(local: NodeID, peer: NodeID, s: SessionState, id: TxID, signed: SignedIntent, now: int64) {
    && id in s.quotes && StillFresh(s, s.quotes[id], now) && Owns(local, peer, s.quotes[id].seller, s.quotes[id].buyer)
    && signed.intent.party == peer && OnTermsOf(signed.intent, s.quotes[id])
    && forall held :: held in IntentsOf(s, id) ==> held.intent.party != peer
  }

  predicate OnTermsOf(i: TradeIntent, q: QuoteResponse) {
    && i.seller == q.seller && i.buyer == q.buyer && i.timestamp == q.expiryUnix
    && i.sellUnit == q.sellUnit && i.buyUnit == q.buyUnit && i.sellAmount == q.sellAmount && i.buyAmount == q.buyAmount
  }

  /** Such an intent is kept, followed at most by the node's own; any other is refused, and only a quote out of
      time is cleared, with all that belongs to it. */
  lemma IntentVerdict(node: NodeState, peer: NodeID, s: SessionState, id: TxID, signed: SignedIntent, env: Env)
    ensures var (t, reply) := OnOther(node, peer, s, SendIntent(id, signed), env);
      if TakesIntent(node.id, peer, s, id, signed, env.now) then
        && t == s.(intents := t.intents, trades := t.trades)
        && (forall other :: other != id ==> IntentsOf(t, other) == IntentsOf(s, other))
        && (IntentsOf(t, id) == IntentsOf(s, id) + [signed]
            || (SignQuote(node, QuoteOf(s.quotes[id]), env).Some?
                && IntentsOf(t, id) == IntentsOf(s, id) + [signed] + [SignQuote(node, QuoteOf(s.quotes[id]), env).value]))
      else
        && (reply.Respond? ==> reply.payload.Reject?)
        && t == if id in s.quotes && !StillFresh(s, s.quotes[id], env.now)
                then ClearNegotiation(s, id, s.quotes[id], ZERO_TX_ID) else s
  {
    hide StillFresh, SignQuote, SessionStates.ClearNegotiation, Owns, OfferTrade;
    if id in s.quotes {
      PartyHeld(IntentsOf(s, id), peer);
      if !HasParty(IntentsOf(s, id), peer) { AddVerdict(node, s, id, s.quotes[id], IntentsOf(s, id) + [signed], env); }
    }
  }

  lemma PartyHeld(intents: seq<SignedIntent>, party: NodeID)
    ensures HasParty(intents, party) <==> exists held :: held in intents && held.intent.party == party
  {
    if HasParty(intents, party) {
      var i :| 0 <= i < |intents| && intents[i].intent.party == party;
      assert intents[i] in intents;
    }
  }

  lemma OfferKeeps(s: SessionState, q: QuoteResponse, intents: seq<SignedIntent>, env: Env)
    ensures var t := OfferTrade(s, q, intents, env).0; t == s.(trades := t.trades)
  {
    hide AuthorizedTradeID, BuildTradeTx, LastOf;
  }

  lemma AddVerdict(node: NodeState, s: SessionState, id: TxID, q: QuoteResponse, intents: seq<SignedIntent>, env: Env)
    ensures var t := AddIntents(node, s, id, q, intents, env).0;
      && t == s.(intents := t.intents, trades := t.trades)
      && (forall other :: other != id ==> IntentsOf(t, other) == IntentsOf(s, other))
      && (IntentsOf(t, id) == intents
          || (SignQuote(node, QuoteOf(q), env).Some?
              && IntentsOf(t, id) == intents + [SignQuote(node, QuoteOf(q), env).value]))
  {
    hide SignQuote, OfferTrade, HasParty;
    var one := s.(intents := s.intents[id := intents]);
    OfferKeeps(one, q, intents, env);
    if SignQuote(node, QuoteOf(q), env).Some? {
      var both := intents + [SignQuote(node, QuoteOf(q), env).value];
      OfferKeeps(one.(intents := one.intents[id := both]), q, both, env);
    }
  }

  /** The intent a trade is offered with is the last the party has among those held. */
  lemma {:induction false} LastOfIs(intents: seq<SignedIntent>, party: NodeID)
    ensures LastOf(intents, party).None? <==> !HasParty(intents, party)
    ensures LastOf(intents, party).Some? ==>
      exists i :: 0 <= i < |intents| && LastOf(intents, party) == Some(intents[i]) && intents[i].intent.party == party
        && forall j :: i < j < |intents| ==> intents[j].intent.party != party
  {
    if intents != [] {
      var n := |intents| - 1;
      LastOfIs(intents[..n], party);
      if intents[n].intent.party != party && LastOf(intents[..n], party).Some? {
        var i :| 0 <= i < n && LastOf(intents[..n], party) == Some(intents[..n][i]) && intents[..n][i].intent.party == party
          && forall j :: i < j < n ==> intents[..n][j].intent.party != party;
        assert intents[..n][i] == intents[i];
        assert forall j :: i < j < n ==> intents[..n][j] == intents[j];
      }
    }
  }

  // ---- Clearing ----

  /** Clearing a negotiation takes its quote, its intents, its request, the trade named and the trades on its
      terms, and nothing else. */
  lemma ClearingVerdict(s: SessionState, id: TxID, q: QuoteResponse, authId: TxID)
    ensures var t := ClearNegotiation(s, id, q, authId);
      && t.seen == s.seen && t.lastSeen == s.lastSeen
      && (forall k :: (k in t.quotes <==> k in s.quotes && k != id) && (k in t.quotes ==> t.quotes[k] == s.quotes[k]))
      && (forall k :: (k in t.intents <==> k in s.intents && k != id) && (k in t.intents ==> t.intents[k] == s.intents[k]))
      && (forall k :: (k in t.requests <==> k in s.requests && k != q.requestId)
                      && (k in t.requests ==> t.requests[k] == s.requests[k]))
      && (forall k :: (k in t.trades <==>
                         && k in s.trades && (k != authId || authId == ZERO_TX_ID)
                         && !(OnTermsOf(s.trades[k].sellerAuth.intent, q) && OnTermsOf(s.trades[k].buyerAuth.intent, q)))
                      && (k in t.trades ==> t.trades[k] == s.trades[k]))
  {}

  /** Clearing a request takes it, the quotes that answer it, their intents and the trades on their terms. */
  lemma ClearRequestVerdict(s: SessionState, requestId: TxID)
    ensures var t := ClearRequest(s, requestId);
      && t.seen == s.seen && t.lastSeen == s.lastSeen
      && (forall k :: (k in t.requests <==> k in s.requests && k != requestId)
                      && (k in t.requests ==> t.requests[k] == s.requests[k]))
      && (forall k :: (k in t.quotes <==> k in s.quotes && s.quotes[k].requestId != requestId)
                      && (k in t.quotes ==> t.quotes[k] == s.quotes[k]))
      && (forall k :: (k in t.intents <==> k in s.intents && !(k in s.quotes && s.quotes[k].requestId == requestId))
                      && (k in t.intents ==> t.intents[k] == s.intents[k]))
      && (forall k :: (k in t.trades <==> k in s.trades && forall id :: id in s.quotes && s.quotes[id].requestId == requestId
                                                              ==> !TradeMatches(s.trades[k], s.quotes[id]))
                      && (k in t.trades ==> t.trades[k] == s.trades[k]))
  {
    hide TradeMatches;
  }

  /** A quote is out of time itself or with its pending request. */
  predicate OutOfTime(s: SessionState, id: TxID, now: int64)
    requires id in s.quotes
  {
    || (s.quotes[id].expiryUnix > 0 && now > s.quotes[id].expiryUnix)
    || (s.quotes[id].requestId in s.requests && s.requests[s.quotes[id].requestId].expiryUnix > 0
        && now > s.requests[s.quotes[id].requestId].expiryUnix)
  }

  /** Pruning takes exactly the quotes out of time with their intents, their requests and the trades on their terms,
      and the requests out of time. */
  lemma PruneVerdict(s: SessionState, now: int64)
    ensures var t := PruneExpired(s, now);
      && t.seen == s.seen && t.lastSeen == s.lastSeen
      && (forall k :: (k in t.quotes <==> k in s.quotes && !OutOfTime(s, k, now))
                      && (k in t.quotes ==> t.quotes[k] == s.quotes[k]))
      && (forall k :: (k in t.intents <==> k in s.intents && !(k in s.quotes && OutOfTime(s, k, now)))
                      && (k in t.intents ==> t.intents[k] == s.intents[k]))
      && (forall k :: (k in t.requests <==>
                         && k in s.requests && !(s.requests[k].expiryUnix > 0 && now > s.requests[k].expiryUnix)
                         && forall id :: id in s.quotes && OutOfTime(s, id, now) ==> s.quotes[id].requestId != k)
                      && (k in t.requests ==> t.requests[k] == s.requests[k]))
      && (forall k :: (k in t.trades <==>
                         && k in s.trades
                         && forall id :: id in s.quotes && OutOfTime(s, id, now) ==> !TradeMatches(s.trades[k], s.quotes[id]))
                      && (k in t.trades ==> t.trades[k] == s.trades[k]))
  {
    hide TradeMatches;
    forall id | id in s.quotes ensures id in ExpiredQuotes(s, now) <==> OutOfTime(s, id, now) {
      assert s.quotes[id].requestId in ExpiredRequests(s, now) <==>
        s.quotes[id].requestId in s.requests && IsExpired(s.requests[s.quotes[id].requestId].expiryUnix, now);
    }
  }

  // ---- Authorized trades ----

  /** What the peer is told of an authorized trade, and what stays in the session: a trade that was executed and
      answered is cleared; one that failed stays pending and is answered as failed; nothing is answered where
      execution panics or no reply can be signed. */
  lemma TradeVerdict(node: NodeState, sv: StoreView, t: SessionState, q: QuoteResponse, auth: AuthorizedTrade,
                     authId: TxID, env: Env, id: TxID)
    requires PeerGives(node, q) > 0
    ensures var e, step := RunTrade(node, sv, q, auth, env), CarryOut(node, sv, t, q, auth, authId, env, id);
      && (step.done <==> e.outcome.Done?)
      && (e.outcome.Done? && env.replies ==>
            && step.reply == Respond(Result(authId, true)) && step.node == LocalAfter(node, q, e)
            && id !in step.session.quotes && id !in step.session.intents && q.requestId !in step.session.requests
            && (authId != ZERO_TX_ID ==> authId !in step.session.trades))
      && (e.outcome.Failed? ==>
            && step.node == node && step.session == t.(trades := t.trades[authId := auth])
            && step.reply == if env.replies then FailWith(Result(authId, false)) else Fail)
      && (e.outcome.Aborted? ==> step.node == node && step.session == t && step.reply == Fail)
      && (e.outcome.Done? && !env.replies ==>
            step.session == t.(trades := t.trades[authId := auth]) && step.reply == Fail)
  {
    hide RunTrade, TradeMatches, LocalAfter;
  }

  /** An authorized trade the session does not agree to changes nothing and is not answered, except that a quote
      found out of time is cleared with all that belongs to it. One it agrees to becomes pending as rebuilt. */
  lemma RefusalVerdict(node: NodeState, sv: StoreView, peer: NodeID, s: SessionState, auth: AuthorizedTrade,
                       authId: TxID, env: Env, found: Option<TxID>)
    requires found.Some? ==> found.value in s.quotes
    ensures var step := OnTrade(node, sv, peer, s, auth, authId, env, found);
      if !Plausible(node.id, peer, auth) || found.None? then step == TradeStep(s, node, Fail, false)
      else
        var q := s.quotes[found.value];
        var n := Negotiate(node.id, peer, s, auth, authId, env.now, found.value);
        if n.Refused? then
          step == TradeStep(if StillFresh(s, q, env.now) then s else ClearNegotiation(s, found.value, q, authId),
                            node, Fail, false)
        else
          n.quote == q && n.session == s.(trades := s.trades[authId :=
            Authorize(QuoteOf(q), q.expiryUnix, auth.sellerAuth, auth.buyerAuth)])
  {
    hide Plausible, CarryOut, StillFresh, Bound, AuthorizedTradeID, BuildTradeTx, SessionStates.ClearNegotiation;
  }
}
