/** When a message can change the node, and runs of a session over any sequence of messages. */
module SessionRuns {
  import opened Base
  import opened Model
  import opened NodeStates
  import opened SessionStates
  import opened SessionLaws
  import NodeLaws

  // ---- Authorized trades ----

  /** What is true of a quote whose authorized trade a session agrees to. */
  predicate WasNegotiated(local: NodeID, peer: NodeID, s: SessionState, id: TxID, auth: AuthorizedTrade, now: int64) {
    && id in s.quotes && StillFresh(s, s.quotes[id], now) && s.quotes[id].executable
    && auth.sellerAuth in IntentsOf(s, id) && auth.buyerAuth in IntentsOf(s, id)
    && auth.sellerAuth.intent.party == s.quotes[id].seller && auth.buyerAuth.intent.party == s.quotes[id].buyer
    && TradeMatches(auth, s.quotes[id])
  }

  lemma BoundIsExecutable(local: NodeID, peer: NodeID, s: SessionState, id: TxID, auth: AuthorizedTrade)
    requires Invariant(local, peer, s) && id in s.quotes && Bound(local, peer, s, id, auth)
    ensures auth.sellerAuth in IntentsOf(s, id) && auth.buyerAuth in IntentsOf(s, id)
    ensures s.quotes[id].executable && s.quotes[id].buyAmount > 0 && s.quotes[id].sellAmount > 0
  {
    hide VerifyTradeIntent, LocalIntent, TermsMatch, QuoteIDFor, AuthorizedTradeID, Meaningful;
    HeldOkay(local, peer, s, id);
    var mine := if local == auth.buyerAuth.intent.party then auth.buyerAuth else auth.sellerAuth;
    assert local != peer;
    var k :| 0 <= k < |IntentsOf(s, id)| && IntentsOf(s, id)[k] == mine;
    assert IntentOkay(local, peer, s.quotes[id], IntentsOf(s, id)[k]);
  }

  /** A session agrees only to what was negotiated in it, and the identifier it was sent is the one the
      node computes on its own. The peer's shadow can always be set up. */
  lemma AgreedIsNegotiated(node: NodeState, peer: NodeID, s: SessionState, auth: AuthorizedTrade, authId: TxID,
                           env: Env,
                           id: TxID)
    requires Invariant(node.id, peer, s) && Candidate(node.id, peer, s, id, auth)
    requires Negotiate(node.id, peer, s, auth, authId, env.now, id).Agreed?
    ensures var q := Negotiate(node.id, peer, s, auth, authId, env.now, id).quote;
      && q == s.quotes[id] && WasNegotiated(node.id, peer, s, id, auth, env.now)
      && PeerGives(node, q) > 0 && AuthIdOf(RequestOf(q, auth, env)) == authId
  {
    hide Invariant, AuthorizedTradeID, BuildTradeTx, VerifyTradeIntent;
    BoundIsExecutable(node.id, peer, s, id, auth);
  }

  /** Execution on a shadow needs a store at the local node, where the trade is not yet marked, and a clock
      that has reached the timestamp of the quote. */
  lemma RunTradeDone(node: NodeState, sv: StoreView, q: QuoteResponse, auth: AuthorizedTrade, env: Env)
    requires PeerGives(node, q) > 0 && RunTrade(node, sv, q, auth, env).outcome.Done?
    ensures var id := AuthIdOf(RequestOf(q, auth, env));
      && sv.Some? && id !in sv.value && id !in node.executed
      && q.expiryUnix <= Max(env.sellerNow, env.buyerNow)
      && LocalAfter(node, q, RunTrade(node, sv, q, auth, env)).executed == node.executed + {id}
      && LocalAfter(node, q, RunTrade(node, sv, q, auth, env)).id == node.id
  {
    var r := RequestOf(q, auth, env);
    if node.id == q.seller {
      var shadow := Shadow(q.buyer, q.buyUnit, q.buyAmount, auth.buyerAuth.publicKey);
      NodeLaws.DoneMeans(node, shadow, sv, None, sv.None?, r, env.persisted);
      DonePermitted(node, shadow, sv, None, sv.None?, r, env.persisted);
    } else {
      var shadow := Shadow(q.seller, q.sellUnit, q.sellAmount, auth.sellerAuth.publicKey);
      NodeLaws.DoneMeans(shadow, node, None, sv, sv.None?, r, env.persisted);
      DonePermitted(shadow, node, None, sv, sv.None?, r, env.persisted);
    }
  }

  lemma DonePermitted(s: NodeState, b: NodeState, sv: StoreView, bv: StoreView, same: bool, r: Request, persisted: bool)
    requires Execute(s, b, sv, bv, same, r, persisted).outcome.Done?
    ensures Authorized(s, b, r) && Guarded(s, b, sv, bv, r.allowPeerShadow)
  {
    hide Authorized, Guarded, CombiningAborts, TradeValid, PlanSides, AuthIdOf;
  }

  /** What a message that changes the node, or executes anything, must be: an authorized trade under a
      pending, fresh and executable quote, with exactly the two signed intents the session holds for that
      quote; and what the store comes to mark is the identifier in the message, once. */
  lemma OnlyNegotiatedTrades(node: NodeState, sv: StoreView, peer: NodeID, s: SessionState, m: Message, env: Env,
                             found: Option<TxID>)
    requires Invariant(node.id, peer, s) && MayReceive(node, peer, s, m, found)
    requires var step := Handle(node, sv, peer, s, m, env, found); step.node != node || step.done
    ensures m.payload.SendTrade? && found.Some? && m.id !in s.seen
    ensures WasNegotiated(node.id, peer, s, found.value, m.payload.auth, env.now)
    ensures sv.Some? && m.payload.authId !in sv.value && m.payload.authId !in node.executed
    ensures AuthIdOf(RequestOf(s.quotes[found.value], m.payload.auth, env)) == m.payload.authId
    ensures Handle(node, sv, peer, s, m, env, found).done
    ensures Handle(node, sv, peer, s, m, env, found).node.executed == node.executed + {m.payload.authId}
  {
    hide OnOther, Negotiate, RunTrade, AuthIdOf, AuthorizedTradeID, Candidate;
    hide Invariant, StillFresh, TradeMatches, LocalAfter;
    var heard := s.(seen := s.seen + {m.id}).(lastSeen := m.timestamp);
    SeenKeeps(node.id, peer, s, m.id, m.timestamp);
    if m.payload.SendTrade? {
      SearchIgnoresSeen(node.id, peer, s, heard, m.payload, found);
      TradeThatChanges(node, sv, peer, heard, m.payload.auth, m.payload.authId, env, found);
      NegotiatedIgnoresSeen(node.id, peer, s, heard, found.value, m.payload.auth, env.now);
    }
  }

  lemma SearchIgnoresSeen(local: NodeID, peer: NodeID, s: SessionState, t: SessionState, p: Payload,
                          found: Option<TxID>)
    requires t.quotes == s.quotes && Settles(local, peer, s, p, found)
    ensures Settles(local, peer, t, p, found)
  {}

  lemma NegotiatedIgnoresSeen(local: NodeID, peer: NodeID, s: SessionState, t: SessionState, id: TxID,
                              auth: AuthorizedTrade, now: int64)
    requires t.quotes == s.quotes && t.intents == s.intents && t.requests == s.requests
    ensures WasNegotiated(local, peer, s, id, auth, now) <==> WasNegotiated(local, peer, t, id, auth, now)
  {}

  lemma TradeThatChanges(node: NodeState, sv: StoreView, peer: NodeID, s: SessionState, auth: AuthorizedTrade,
                         authId: TxID,
                         env: Env, found: Option<TxID>)
    requires Invariant(node.id, peer, s)
    requires found.Some? ==> Candidate(node.id, peer, s, found.value, auth)
    requires var step := OnTrade(node, sv, peer, s, auth, authId, env, found); step.node != node || step.done
    ensures found.Some? && WasNegotiated(node.id, peer, s, found.value, auth, env.now)
    ensures sv.Some? && authId !in sv.value && authId !in node.executed
    ensures AuthIdOf(RequestOf(s.quotes[found.value], auth, env)) == authId
    ensures OnTrade(node, sv, peer, s, auth, authId, env, found).done
    ensures OnTrade(node, sv, peer, s, auth, authId, env, found).node.executed == node.executed + {authId}
    ensures s.quotes[found.value].expiryUnix <= Max(env.sellerNow, env.buyerNow)
  {
    hide Negotiate, RunTrade, AuthIdOf, AuthorizedTradeID, Invariant, StillFresh, TradeMatches, LocalAfter;
    AgreedIsNegotiated(node, peer, s, auth, authId, env, found.value);
    RunTradeDone(node, sv, s.quotes[found.value], auth, env);
  }

  /** With one clock reading per message a trade can execute at one second only: a pending quote is
      fresh until its timestamp, and the node refuses to execute before it. */
  lemma ExecutesAtTheTimestamp(node: NodeState, sv: StoreView, peer: NodeID, s: SessionState, m: Message, env: Env,
                               found: Option<TxID>)
    requires Invariant(node.id, peer, s) && MayReceive(node, peer, s, m, found)
    requires Handle(node, sv, peer, s, m, env, found).done && env.sellerNow == env.buyerNow == env.now
    ensures found.Some? && found.value in s.quotes && env.now == s.quotes[found.value].expiryUnix
  {
    hide OnOther, Negotiate, RunTrade, AuthIdOf, AuthorizedTradeID, Candidate, Invariant, LocalAfter;
    var heard := s.(seen := s.seen + {m.id}).(lastSeen := m.timestamp);
    SeenKeeps(node.id, peer, s, m.id, m.timestamp);
    SearchIgnoresSeen(node.id, peer, s, heard, m.payload, found);
    TradeThatChanges(node, sv, peer, heard, m.payload.auth, m.payload.authId, env, found);
    NegotiatedInTime(node.id, peer, heard, found.value, m.payload.auth, env.now);
  }

  lemma NegotiatedInTime(local: NodeID, peer: NodeID, s: SessionState, id: TxID, auth: AuthorizedTrade, now: int64)
    requires WasNegotiated(local, peer, s, id, auth, now) && Invariant(local, peer, s)
    ensures now <= s.quotes[id].expiryUnix
  {
    HeldOkay(local, peer, s, id);
    var k :| 0 <= k < |IntentsOf(s, id)| && IntentsOf(s, id)[k] == auth.sellerAuth;
    assert IntentOkay(local, peer, s.quotes[id], IntentsOf(s, id)[k]);
  }

  /** The reply that says a trade was executed is sent only when it was, and then nothing of the
      negotiation is left to replay: not its quote, not its intents, and no pending trade on its terms. */
  lemma AcceptedMeansExecuted(node: NodeState, sv: StoreView, peer: NodeID, s: SessionState, m: Message, env: Env,
                              found: Option<TxID>, id: TxID)
    requires MayReceive(node, peer, s, m, found)
    requires Handle(node, sv, peer, s, m, env, found).reply == Respond(Result(id, true))
    ensures var step := Handle(node, sv, peer, s, m, env, found);
      && step.done && m.payload.SendTrade? && id == m.payload.authId && found.Some? && found.value in s.quotes
      && found.value !in step.session.quotes && found.value !in step.session.intents
      && (forall t :: t in step.session.trades ==> !TradeMatches(step.session.trades[t], s.quotes[found.value]))
  {
    hide OnOther, OnTrade, TradeMatches;
    var heard := s.(seen := s.seen + {m.id}).(lastSeen := m.timestamp);
    if m.payload.SendTrade? {
      assert found.Some? ==> found.value in s.quotes by { if found.Some? { CandidatePending(node, peer, s, m, found); } }
      AcceptedTrade(node, sv, peer, heard, m.payload.auth, m.payload.authId, env, found, id);
    } else {
      OthersNeverAccept(node, peer, heard, m.payload, env);
    }
  }

  lemma CandidatePending(node: NodeState, peer: NodeID, s: SessionState, m: Message, found: Option<TxID>)
    requires MayReceive(node, peer, s, m, found) && m.payload.SendTrade? && found.Some?
    ensures found.value in s.quotes
  {
    hide TradeMatches, Owns;
  }

  lemma OthersNeverAccept(node: NodeState, peer: NodeID, s: SessionState, p: Payload, env: Env)
    requires !p.SendTrade?
    ensures var reply := OnOther(node, peer, s, p, env).1; reply.Respond? ==> !reply.payload.Result?
  {
    hide QuoteSell, QuoteIDFor, Meaningful, SignQuote, SessionStates.ClearRequest, SessionStates.ClearNegotiation;
    hide Fresh, Owns, TermsMatch, HasParty, AuthorizedTradeID, StillFresh, LastOf, IntentsOf, AnswersRequest;
  }

  lemma AcceptedTrade(node: NodeState, sv: StoreView, peer: NodeID, s: SessionState, auth: AuthorizedTrade,
                      authId: TxID, env: Env, found: Option<TxID>, id: TxID)
    requires found.Some? ==> found.value in s.quotes
    requires OnTrade(node, sv, peer, s, auth, authId, env, found).reply == Respond(Result(id, true))
    ensures var step := OnTrade(node, sv, peer, s, auth, authId, env, found);
      && step.done && id == authId && found.Some?
      && found.value !in step.session.quotes && found.value !in step.session.intents
      && (forall t :: t in step.session.trades ==> !TradeMatches(step.session.trades[t], s.quotes[found.value]))
  {
    hide RunTrade, AuthIdOf, AuthorizedTradeID, LocalAfter, Plausible, TradeMatches, Bound, StillFresh;
  }

  /** Pruning leaves nothing that has expired. */
  lemma NothingExpiredRemains(s: SessionState, now: int64)
    ensures var t := PruneExpired(s, now);
      && (forall id :: id in t.requests ==> !IsExpired(t.requests[id].expiryUnix, now))
      && (forall id :: id in t.quotes ==> !IsExpired(t.quotes[id].expiryUnix, now))
      && (forall id :: id in t.intents ==> id !in ExpiredQuotes(s, now))
  {
    hide IsExpired;
  }

  // ---- Runs ----

  datatype State = State(session: SessionState, node: NodeState, marks: StoreView)

  /** A message arrives, the local side opens a request of its own, the session is pruned, or something else
      changes the node and its store: every connection has its own session, and all share one node. */
  datatype Event =
    | Receive(m: Message, env: Env, found: Option<TxID>)
    | Open(request: QuoteRequest)
    | Prune(now: int64)
    | Elsewhere(node: NodeState, marks: StoreView)

  ghost predicate Steps(peer: NodeID, a: State, e: Event, b: State) {
    match e
    case Receive(m, env, found) =>
      && MayReceive(a.node, peer, a.session, m, found)
      && var step := Handle(a.node, a.marks, peer, a.session, m, env, found);
         && b.session == step.session && b.node == step.node
         && MarksAfter(a.session, a.marks, m.payload, env, found, step.done, b.marks)
    case Open(r) =>
      && Meaningful(RequestQuote(r))
      && b == a.(session := a.session.(requests := a.session.requests[r.requestId := r]))
    case Prune(now) => b == a.(session := PruneExpired(a.session, now))
    case Elsewhere(node, marks) =>
      node.id == a.node.id && MarksKept(a.marks, marks) && b == a.(node := node, marks := marks)
  }

  ghost predicate IsRun(peer: NodeID, states: seq<State>, events: seq<Event>) {
    && |states| == |events| + 1
    && Invariant(states[0].node.id, peer, states[0].session)
    && forall k :: 0 <= k < |events| ==> Steps(peer, states[k], events[k], states[k + 1])
  }

  /** The event executes the trade with this identifier. */
  ghost predicate Executes(peer: NodeID, a: State, e: Event, id: TxID) {
    && e.Receive? && MayReceive(a.node, peer, a.session, e.m, e.found)
    && Handle(a.node, a.marks, peer, a.session, e.m, e.env, e.found).done
    && e.m.payload.SendTrade? && e.m.payload.authId == id
  }

  lemma StepKeepsInvariant(peer: NodeID, a: State, e: Event, b: State)
    requires Invariant(a.node.id, peer, a.session) && Steps(peer, a, e, b)
    ensures Invariant(b.node.id, peer, b.session) && b.node.id == a.node.id
    ensures e.Receive? && b.node != a.node ==> e.m.payload.SendTrade? && Executes(peer, a, e, e.m.payload.authId)
    ensures !e.Receive? && !e.Elsewhere? ==> b.node == a.node
  {
    hide Handle, Invariant, MarksAfter;
    if e.Receive? {
      HandleKeeps(a.node, a.marks, peer, a.session, e.m, e.env, e.found);
      NodeKeepsId(a.node, a.marks, peer, a.session, e.m, e.env, e.found);
      if b.node != a.node { OnlyNegotiatedTrades(a.node, a.marks, peer, a.session, e.m, e.env, e.found); }
    }
    if e.Open? { AddRequestKeeps(a.node.id, peer, a.session, e.request); }
    if e.Prune? { PruneKeeps(a.node.id, peer, a.session, e.now); }
  }

  lemma NodeKeepsId(node: NodeState, sv: StoreView, peer: NodeID, s: SessionState, m: Message, env: Env,
                    found: Option<TxID>)
    requires MayReceive(node, peer, s, m, found)
    ensures Handle(node, sv, peer, s, m, env, found).node.id == node.id
  {
    hide OnOther, Negotiate, RunTrade, AuthIdOf, AuthorizedTradeID, TradeMatches, LocalAfter, Plausible;
    var heard := s.(seen := s.seen + {m.id}).(lastSeen := m.timestamp);
    if m.payload.SendTrade? && found.Some? {
      var n := Negotiate(node.id, peer, heard, m.payload.auth, m.payload.authId, env.now, found.value);
      if n.Agreed? && PeerGives(node, n.quote) > 0 && RunTrade(node, sv, n.quote, m.payload.auth, env).outcome.Done? {
        RunTradeDone(node, sv, n.quote, m.payload.auth, env);
      }
    }
  }

  /** The invariant holds in every state of every run, whatever else happens to the node, and the session itself
      changes the node only where a negotiated trade executes. */
  lemma {:induction false} RunKeepsInvariant(peer: NodeID, states: seq<State>, events: seq<Event>, k: nat)
    requires IsRun(peer, states, events) && k < |states|
    ensures Invariant(states[k].node.id, peer, states[k].session)
    ensures k > 0 && states[k].node != states[k - 1].node && !events[k - 1].Elsewhere? ==>
      events[k - 1].Receive? && events[k - 1].m.payload.SendTrade?
      && Executes(peer, states[k - 1], events[k - 1], events[k - 1].m.payload.authId)
    decreases k
  {
    hide Invariant, Steps, Executes;
    if k > 0 {
      RunKeepsInvariant(peer, states, events, k - 1);
      assert Steps(peer, states[k - 1], events[k - 1], states[k]);
      StepNode(peer, states[k - 1], events[k - 1], states[k]);
    }
  }

  lemma StepNode(peer: NodeID, a: State, e: Event, b: State)
    requires Invariant(a.node.id, peer, a.session) && Steps(peer, a, e, b)
    ensures Invariant(b.node.id, peer, b.session)
    ensures b.node != a.node && !e.Elsewhere? ==>
      e.Receive? && e.m.payload.SendTrade? && Executes(peer, a, e, e.m.payload.authId)
  {
    hide Handle, Invariant, Executes, MayReceive;
    StepKeepsInvariant(peer, a, e, b);
  }

  // ---- Each trade once ----

  lemma StepMarks(peer: NodeID, a: State, e: Event, b: State)
    requires Invariant(a.node.id, peer, a.session) && Steps(peer, a, e, b)
    ensures a.marks.Some? == b.marks.Some? && (a.marks.Some? ==> a.marks.value <= b.marks.value)
  {
    hide Handle, Invariant, AuthIdOf;
  }

  lemma {:induction false} RunMarks(peer: NodeID, states: seq<State>, events: seq<Event>, j: nat, k: nat)
    requires IsRun(peer, states, events) && j <= k < |states|
    ensures states[j].marks.Some? == states[k].marks.Some?
    ensures states[j].marks.Some? ==> states[j].marks.value <= states[k].marks.value
    decreases k - j
  {
    hide Steps, Invariant;
    if j < k {
      RunKeepsInvariant(peer, states, events, j);
      assert Steps(peer, states[j], events[j], states[j + 1]);
      StepMarks(peer, states[j], events[j], states[j + 1]);
      RunMarks(peer, states, events, j + 1, k);
    }
  }

  lemma ExecutionMarks(peer: NodeID, a: State, e: Event, b: State, id: TxID)
    requires Invariant(a.node.id, peer, a.session) && Steps(peer, a, e, b) && Executes(peer, a, e, id)
    ensures a.marks.Some? && id !in a.marks.value && b.marks == Some(a.marks.value + {id})
  {
    hide Handle, Invariant, AuthIdOf, MayReceive;
    OnlyNegotiatedTrades(a.node, a.marks, peer, a.session, e.m, e.env, e.found);
  }

  /** No run of a session executes the same trade identifier twice, whatever else happens to node and store. */
  lemma ExecutesOnce(peer: NodeID, states: seq<State>, events: seq<Event>, j: nat, k: nat, id: TxID)
    requires IsRun(peer, states, events) && j < k < |events|
    requires Executes(peer, states[j], events[j], id)
    ensures !Executes(peer, states[k], events[k], id)
  {
    hide Steps, Invariant, Executes;
    RunKeepsInvariant(peer, states, events, j);
    RunKeepsInvariant(peer, states, events, k);
    assert Steps(peer, states[j], events[j], states[j + 1]);
    assert Steps(peer, states[k], events[k], states[k + 1]);
    ExecutionMarks(peer, states[j], events[j], states[j + 1], id);
    RunMarks(peer, states, events, j + 1, k);
    if Executes(peer, states[k], events[k], id) {
      ExecutionMarks(peer, states[k], events[k], states[k + 1], id);
    }
  }
}
