/** The session and its handler as they run. What the methods do is SessionStates. */
module Sessions {
  import opened Base
  import opened Model
  import opened Inventory
  import opened NodeStates
  import opened SessionStates
  import Nodes

  // ---- Clearing one negotiation after another ----

  lemma ClearOneMore(s: SessionState, ids: set<TxID>, id: TxID)
    requires id in s.quotes && id !in ids
    ensures SessionStates.ClearNegotiation(ClearAll(s, ids), id, s.quotes[id], ZERO_TX_ID) == ClearAll(s, ids + {id})
  {
    hide TradeMatches;
    var t, u := SessionStates.ClearNegotiation(ClearAll(s, ids), id, s.quotes[id], ZERO_TX_ID), ClearAll(s, ids + {id});
    assert t.quotes == u.quotes && t.intents == u.intents;
    assert t.requests == u.requests;
    assert t.trades == u.trades;
  }

  lemma ClearNone(s: SessionState)
    ensures ClearAll(s, {}) == s
  {}

  lemma ClearNoRequests(s: SessionState)
    ensures ClearRequests(s, {}) == s
  {
    assert QuotesOfRequests(s, {}) == {};
    ClearNone(s);
    assert s.requests - {} == s.requests;
  }

  lemma ClearRequestsKeeps(s: SessionState, requests: set<TxID>)
    ensures ClearRequests(s, requests).quotes == s.quotes - QuotesOfRequests(s, requests)
  {}

  function QuotesOfRequests(s: SessionState, requests: set<TxID>): set<TxID> {
    set id | id in s.quotes && s.quotes[id].requestId in requests
  }

  /** The session after a set of its requests has been cleared. */
  function ClearRequests(s: SessionState, requests: set<TxID>): SessionState {
    var cleared := ClearAll(s, QuotesOfRequests(s, requests));
    cleared.(requests := cleared.requests - requests)
  }

  lemma ClearOneRequestMore(s: SessionState, requests: set<TxID>, r: TxID)
    requires r !in requests
    ensures SessionStates.ClearRequest(ClearRequests(s, requests), r) == ClearRequests(s, requests + {r})
  {
    hide ClearAll;
    var mid := ClearRequests(s, requests);
    ClearAllKeeps(s, QuotesOfRequests(s, requests));
    assert QuotesFor(mid, r) == QuotesOfRequests(s, {r});
    ClearedTwice(s, requests, QuotesFor(mid, r));
    assert QuotesOfRequests(s, requests) + QuotesFor(mid, r) == QuotesOfRequests(s, requests + {r});
    var u := ClearAll(s, QuotesOfRequests(s, requests + {r}));
    assert u.requests - requests - {r} == u.requests - (requests + {r});
  }

  lemma ClearedTwiceTrades(s: SessionState, requests: set<TxID>, ids: set<TxID>)
    ensures ClearAll(ClearRequests(s, requests), ids).trades == ClearAll(s, QuotesOfRequests(s, requests) + ids).trades
  {
    hide TradeMatches;
  }

  lemma ClearedTwiceRequests(s: SessionState, requests: set<TxID>, ids: set<TxID>)
    ensures ClearAll(ClearRequests(s, requests), ids).requests
         == ClearAll(s, QuotesOfRequests(s, requests) + ids).requests - requests
  {
    hide TradeMatches;
  }

  lemma ClearedTwice(s: SessionState, requests: set<TxID>, ids: set<TxID>)
    ensures var t := ClearAll(ClearRequests(s, requests), ids);
      var u := ClearAll(s, QuotesOfRequests(s, requests) + ids);
      t == u.(requests := u.requests - requests)
  {
    hide TradeMatches;
    ClearedTwiceTrades(s, requests, ids);
    ClearedTwiceRequests(s, requests, ids);
    var t := ClearAll(ClearRequests(s, requests), ids);
    var u := ClearAll(s, QuotesOfRequests(s, requests) + ids);
    assert t.quotes == u.quotes && t.intents == u.intents;
  }

  /** trades is start without the matching trades outside unseen. */
  ghost predicate Sifted(trades: map<TxID, AuthorizedTrade>, start: map<TxID, AuthorizedTrade>, q: QuoteResponse,
                         unseen: set<TxID>)
  {
    && (forall t :: t in trades <==> t in start && (t in unseen || !TradeMatches(start[t], q)))
    && (forall t :: t in trades ==> trades[t] == start[t])
  }

  lemma SiftedAll(trades: map<TxID, AuthorizedTrade>, start: map<TxID, AuthorizedTrade>, q: QuoteResponse)
    requires Sifted(trades, start, q, {})
    ensures trades == map t | t in start && !TradeMatches(start[t], q) :: start[t]
  {
    hide TradeMatches;
  }

  lemma ClearedParts(s: SessionState, id: TxID, q: QuoteResponse, authId: TxID, start: map<TxID, AuthorizedTrade>)
    requires start == if authId != ZERO_TX_ID then s.trades - {authId} else s.trades
    ensures SessionStates.ClearNegotiation(s, id, q, authId)
         == s.(quotes := s.quotes - {id}, intents := s.intents - {id}, requests := s.requests - {q.requestId},
               trades := map t | t in start && !TradeMatches(start[t], q) :: start[t])
  {
    hide TradeMatches;
    assert SessionStates.ClearNegotiation(s, id, q, authId).trades
        == map t | t in start && !TradeMatches(start[t], q) :: start[t];
  }

  /** Pruning in two steps: the expired requests with their quotes, then the expired quotes left over. */
  lemma PrunedParts(s: SessionState, now: int64)
    ensures var mid := ClearRequests(s, ExpiredRequests(s, now));
      ClearAll(mid, QuotesExpired(mid, now)) == SessionStates.PruneExpired(s, now)
  {
    hide ClearAll, ClearRequests, IsExpired;
    var requests := ExpiredRequests(s, now);
    var mid := ClearRequests(s, requests);
    ClearRequestsKeeps(s, requests);
    ClearedTwice(s, requests, QuotesExpired(mid, now));
    assert QuotesOfRequests(s, requests) + QuotesExpired(mid, now) == ExpiredQuotes(s, now);
  }

  lemma OneLess(all: set<TxID>, unseen: set<TxID>, id: TxID)
    requires id in unseen
    ensures all - (unseen - {id}) == if id in all then all - unseen + {id} else all - unseen
  {}

  function QuotesExpired(s: SessionState, now: int64): set<TxID> {
    set id | id in s.quotes && IsExpired(s.quotes[id].expiryUnix, now)
  }

  lemma ClearAllKeeps(s: SessionState, ids: set<TxID>)
    ensures ClearAll(s, ids).quotes == s.quotes - ids
  {}

  class Session {
    const LocalID: NodeID
    const PeerID: NodeID
    var PendingRequests: map<TxID, QuoteRequest>
    var PendingQuotes: map<TxID, QuoteResponse>
    var PendingIntents: map<TxID, seq<SignedIntent>>
    var PendingTrades: map<TxID, AuthorizedTrade>
    var SeenMessages: set<TxID>
    var LastSeenUnix: int64

    constructor (localID: NodeID, peerID: NodeID)
      ensures LocalID == localID && PeerID == peerID
      ensures View() == SessionState(map[], map[], map[], map[], {}, 0)
    {
      LocalID, PeerID := localID, peerID;
      PendingRequests, PendingQuotes, PendingIntents, PendingTrades := map[], map[], map[], map[];
      SeenMessages, LastSeenUnix := {}, 0;
    }

    function View(): SessionState
      reads this
    {
      SessionState(PendingRequests, PendingQuotes, PendingIntents, PendingTrades, SeenMessages, LastSeenUnix)
    }

    /** False for a message that was seen before. */
    method MarkSeen(id: TxID) returns (ok: bool)
      modifies `SeenMessages
      ensures ok <==> id !in old(SeenMessages)
      ensures SeenMessages == old(SeenMessages) + {id}
    {
      if id in SeenMessages {
        assert SeenMessages == SeenMessages + {id};
        return false;
      }
      SeenMessages := SeenMessages + {id};
      return true;
    }

    /** Drops the pending trades with the terms of a quote. */
    method DropMatchingTrades(q: QuoteResponse)
      modifies `PendingTrades
      ensures Sifted(PendingTrades, old(PendingTrades), q, {})
    {
      hide TradeMatches;
      var unseen := PendingTrades.Keys;
      while unseen != {}
        invariant unseen <= PendingTrades.Keys && Sifted(PendingTrades, old(PendingTrades), q, unseen)
        decreases |unseen|
      {
        var t :| t in unseen;
        unseen := unseen - {t};
        if TradeMatches(PendingTrades[t], q) { PendingTrades := PendingTrades - {t}; }
      }
    }

    method ClearNegotiation(id: TxID, q: QuoteResponse, authId: TxID)
      modifies this
      ensures View() == SessionStates.ClearNegotiation(old(View()), id, q, authId)
    {
      hide TradeMatches, SessionStates.ClearNegotiation, Sifted;
      PendingQuotes := PendingQuotes - {id};
      PendingIntents := PendingIntents - {id};
      PendingRequests := PendingRequests - {q.requestId};
      if authId != ZERO_TX_ID { PendingTrades := PendingTrades - {authId}; }
      ghost var start := PendingTrades;
      DropMatchingTrades(q);
      SiftedAll(PendingTrades, start, q);
      ClearedParts(old(View()), id, q, authId, start);
    }

    method ClearRequest(requestId: TxID)
      modifies this
      ensures View() == SessionStates.ClearRequest(old(View()), requestId)
    {
      hide ClearAll, SessionStates.ClearNegotiation;
      ghost var start := View();
      var unseen := PendingQuotes.Keys;
      ClearNone(start);
      assert QuotesFor(start, requestId) - unseen == {};
      while unseen != {}
        invariant unseen <= PendingQuotes.Keys
        invariant View() == ClearAll(start, QuotesFor(start, requestId) - unseen)
        decreases |unseen|
      {
        var id :| id in unseen;
        ghost var done := QuotesFor(start, requestId) - unseen;
        ClearAllKeeps(start, done);
        OneLess(QuotesFor(start, requestId), unseen, id);
        unseen := unseen - {id};
        if PendingQuotes[id].requestId == requestId {
          ClearOneMore(start, done, id);
          ClearNegotiation(id, PendingQuotes[id], ZERO_TX_ID);
        }
        ClearAllKeeps(start, QuotesFor(start, requestId) - unseen);
      }
      assert QuotesFor(start, requestId) - unseen == QuotesFor(start, requestId);
      PendingRequests := PendingRequests - {requestId};
    }

    method PruneRequests(now: int64)
      modifies this
      ensures View() == ClearRequests(old(View()), ExpiredRequests(old(View()), now))
    {
      hide ClearRequests, ClearAll, SessionStates.ClearRequest, IsExpired;
      ghost var start := View();
      ghost var expired := ExpiredRequests(start, now);
      var unseen := PendingRequests.Keys;
      ClearNoRequests(start);
      assert expired - unseen == {};
      while unseen != {}
        invariant unseen <= start.requests.Keys
        invariant View() == ClearRequests(start, expired - unseen)
        decreases |unseen|
      {
        var r :| r in unseen;
        ghost var done := expired - unseen;
        OneLess(expired, unseen, r);
        unseen := unseen - {r};
        RequestStillThere(start, done, r);
        if IsExpired(PendingRequests[r].expiryUnix, now) {
          ClearOneRequestMore(start, done, r);
          ClearRequest(r);
        }
      }
      assert expired - unseen == expired;
    }

    method PruneQuotes(now: int64)
      modifies this
      ensures View() == ClearAll(old(View()), QuotesExpired(old(View()), now))
    {
      hide ClearAll, SessionStates.ClearNegotiation, IsExpired;
      ghost var start := View();
      ghost var expired := QuotesExpired(start, now);
      var unseen := PendingQuotes.Keys;
      ClearNone(start);
      assert expired - unseen == {};
      while unseen != {}
        invariant unseen <= PendingQuotes.Keys
        invariant View() == ClearAll(start, expired - unseen)
        decreases |unseen|
      {
        var id :| id in unseen;
        ghost var done := expired - unseen;
        ClearAllKeeps(start, done);
        OneLess(expired, unseen, id);
        unseen := unseen - {id};
        if IsExpired(PendingQuotes[id].expiryUnix, now) {
          ClearOneMore(start, done, id);
          ClearNegotiation(id, PendingQuotes[id], ZERO_TX_ID);
        }
        ClearAllKeeps(start, expired - unseen);
      }
      assert expired - unseen == expired;
    }

    /** Drops what has expired: first requests with their quotes, then quotes. */
    method PruneExpired(now: int64)
      modifies this
      ensures View() == SessionStates.PruneExpired(old(View()), now)
    {
      hide ClearAll, ClearRequests, SessionStates.PruneExpired;
      PruneRequests(now);
      PruneQuotes(now);
      PrunedParts(old(View()), now);
    }
  }

  /** Clearing other requests leaves a request where it is, with its content. */
  lemma RequestStillThere(s: SessionState, requests: set<TxID>, r: TxID)
    requires r in s.requests && r !in requests
    ensures r in ClearRequests(s, requests).requests && ClearRequests(s, requests).requests[r] == s.requests[r]
  {}
}
