/** Exactly when a trade a session has agreed to goes through on the local node and the peer's shadow. */
module AgreedTrades {
  import opened Base
  import opened Model
  import opened Inventory
  import opened NodeStates
  import opened SessionStates
  import opened SessionLaws
  import opened BuiltTrades
  import SessionRuns

  /** Some clock has reached the timestamp of the quote, and neither is past the age limit of its intents. */
  predicate InTime(q: QuoteResponse, env: Env) {
    q.expiryUnix <= Max(env.sellerNow, env.buyerNow) <= q.expiryUnix + MAX_SIGNED_INTENT_AGE
  }

  lemma AgreedSignatures(local: NodeID, peer: NodeID, s: SessionState, auth: AuthorizedTrade, id: TxID, now: int64)
    requires Invariant(local, peer, s) && SessionRuns.WasNegotiated(local, peer, s, id, auth, now)
    ensures var q := s.quotes[id];
      && q.executable && q.seller != q.buyer && q.sellAmount > 0 && q.buyAmount > 0
      && (local == q.seller || local == q.buyer)
      && VerifyTradeIntent(auth.sellerAuth) && auth.sellerAuth.intent == IntentFromQuote(QuoteOf(q), q.seller)
      && VerifyTradeIntent(auth.buyerAuth) && auth.buyerAuth.intent == IntentFromQuote(QuoteOf(q), q.buyer)
  {
    hide LocalIntent, VerifyTradeIntent, StillFresh, QuoteIDFor, Invariant, IntentsOf;
    HeldOkay(local, peer, s, id);
    HeldVerifies(local, peer, s.quotes[id], IntentsOf(s, id), auth.sellerAuth);
    HeldVerifies(local, peer, s.quotes[id], IntentsOf(s, id), auth.buyerAuth);
  }

  lemma HeldVerifies(local: NodeID, peer: NodeID, q: QuoteResponse, intents: seq<SignedIntent>, signed: SignedIntent)
    requires IntentsOkay(local, peer, q, intents) && signed in intents
    ensures VerifyTradeIntent(signed)
  {
    hide LocalIntent, VerifyTradeIntent;
    var k :| 0 <= k < |intents| && intents[k] == signed;
    assert IntentOkay(local, peer, q, intents[k]);
  }

  /** The node or the peer's shadow as seller, and the other as buyer. */
  function Sides(node: NodeState, q: QuoteResponse, shadow: NodeState): (NodeState, NodeState) {
    if node.id == q.seller then (node, shadow) else (shadow, node)
  }

  function PeerShadow(node: NodeState, q: QuoteResponse, auth: AuthorizedTrade): NodeState
    requires PeerGives(node, q) > 0
  {
    if node.id == q.seller then Shadow(q.buyer, q.buyUnit, q.buyAmount, auth.buyerAuth.publicKey)
    else Shadow(q.seller, q.sellUnit, q.sellAmount, auth.sellerAuth.publicKey)
  }

  /** The node's key, if it has one, is the one it is named after. */
  predicate OwnKey(node: NodeState) {
    node.publicKey == [] || node.publicKey == node.id
  }

  /** Both ends of a negotiation signed the terms of its quote with their own keys, so only time is left. */
  lemma AgreedAuthorized(node: NodeState, peer: NodeID, s: SessionState, auth: AuthorizedTrade, id: TxID, env: Env)
    requires Invariant(node.id, peer, s) && SessionRuns.WasNegotiated(node.id, peer, s, id, auth, env.now)
    requires PeerGives(node, s.quotes[id]) > 0
    ensures var q := s.quotes[id]; var sides := Sides(node, q, PeerShadow(node, q, auth));
      Authorized(sides.0, sides.1, RequestOf(q, auth, env)) <==> InTime(q, env) && OwnKey(node)
  {
    hide Invariant, SessionRuns.WasNegotiated, Verify;
    AgreedSignatures(node.id, peer, s, auth, id, env.now);
  }

  /** A shadow that receives the unit it gives can hold the result: it has ten times what it gives, where that
      fits, and else just that. */
  predicate ShadowFits(node: NodeState, q: QuoteResponse) {
    var gives := if node.id == q.seller then q.buyAmount else q.sellAmount;
    var gets := if node.id == q.seller then q.sellAmount else q.buyAmount;
    q.sellUnit == q.buyUnit ==> (if gives <= MAX_INT64 / 10 then 9 * gives else 0) + gets <= MAX_INT64
  }

  lemma ShadowFacts(node: NodeState, q: QuoteResponse, auth: AuthorizedTrade)
    requires q.sellAmount > 0 && q.buyAmount > 0 && q.seller != q.buyer && (node.id == q.seller || node.id == q.buyer)
    ensures var shadow := PeerShadow(node, q, auth);
      && RowPositive(shadow) && shadow.executed == {} && !shadow.ephemeral
      && (GoodTerms(QuoteOf(q)) && node.id == q.seller ==>
        (ShadowFits(node, q) <==>
          HasRoom(shadow.books, q.buyer, q.buyUnit, q.buyAmount, q.sellUnit, q.sellAmount, QuoteOf(q))))
      && (GoodTerms(QuoteOf(q)) && node.id == q.buyer ==>
        (ShadowFits(node, q) <==>
          HasRoom(shadow.books, q.seller, q.sellUnit, q.sellAmount, q.buyUnit, q.buyAmount, QuoteOf(q))))
  {}

  /** The local node can pay, has room for what it gets and records, and holds only positive amounts. */
  predicate LocalReady(node: NodeState, q: QuoteResponse) {
    && RowPositive(node) && OwnKey(node)
    && if node.id == q.seller then
         && Cell(node.books.holdings, node.id, q.sellUnit) >= q.sellAmount
         && HasRoom(node.books, node.id, q.sellUnit, q.sellAmount, q.buyUnit, q.buyAmount, QuoteOf(q))
       else
         && Cell(node.books.holdings, node.id, q.buyUnit) >= q.buyAmount
         && HasRoom(node.books, node.id, q.buyUnit, q.buyAmount, q.sellUnit, q.sellAmount, QuoteOf(q))
  }

  /** In time, new to the node and to its store, acceptable to both parties, payable and recordable, and the
      persist call succeeds. */
  predicate MayExecute(node: NodeState, sv: StoreView, q: QuoteResponse, authId: TxID, env: Env)
    requires PeerGives(node, q) > 0
  {
    && InTime(q, env) && env.sellerAgrees && env.buyerAgrees
    && sv.Some? && authId !in sv.value && authId !in node.executed
    && GoodTerms(QuoteOf(q)) && LocalReady(node, q) && ShadowFits(node, q) && env.persisted
  }

  /** A trade a session has agreed to is executed exactly when that holds: the signatures and the party
      checks never stop it. */
  lemma AgreedTradeRuns(node: NodeState, sv: StoreView, peer: NodeID, s: SessionState, auth: AuthorizedTrade,
                        authId: TxID, env: Env, id: TxID)
    requires Invariant(node.id, peer, s) && Candidate(node.id, peer, s, id, auth)
    requires Negotiate(node.id, peer, s, auth, authId, env.now, id).Agreed?
    ensures var q := s.quotes[id];
      PeerGives(node, q) > 0
      && (RunTrade(node, sv, q, auth, env).outcome.Done? <==> MayExecute(node, sv, q, authId, env))
  {
    hide Invariant, Negotiate, SessionRuns.WasNegotiated, Authorized, AuthIdOf, Execute, HasRoom, RowPositive;
    hide ShadowFits, InTime, BuildTradeTx, AuthorizedTradeID, TradeMatches, Owns, GoodTerms;
    SessionRuns.AgreedIsNegotiated(node, peer, s, auth, authId, env, id);
    var q := s.quotes[id];
    AgreedSignatures(node.id, peer, s, auth, id, env.now);
    AgreedAuthorized(node, peer, s, auth, id, env);
    ShadowFacts(node, q, auth);
    var shadow := PeerShadow(node, q, auth);
    var r := RequestOf(q, auth, env);
    if node.id == q.seller {
      DoneExactlyWhen(node, shadow, sv, None, sv.None?, r, env.persisted);
    } else {
      DoneExactlyWhen(shadow, node, None, sv, sv.None?, r, env.persisted);
    }
  }
}
