/** When the trade built from a quote is valid, and when a permitted execution goes through. */
module BuiltTrades {
  import opened Base
  import opened Model
  import opened Inventory
  import opened Trades
  import opened NodeStates
  import NodeLaws
  import P = Preimages

  lemma TradeValueGenuine(unit: UnitID, amount: Amount, owner: NodeID, at: int64)
    ensures var v := TradeValue(unit, amount, owner, at); v.id == ValueIDFor(v)
  {
    var v := TradeValue(unit, amount, owner, at);
    assert ValueFields(v) == ValueFields(v.(id := ZERO_TX_ID));
  }

  /** Values created at different times are different values, whatever else they share. */
  lemma TradeValuesDiffer(a: Value, b: Value)
    requires a.id == ValueIDFor(a) && b.id == ValueIDFor(b) && a.createdAt != b.createdAt
    ensures a.id != b.id
  {
    P.ValueInjective(a, b);
  }

  lemma WrappedTimesDiffer(now: int64)
    ensures now != Wrap64(now + 1) && now != Wrap64(now + 2) && now != Wrap64(now + 3)
    ensures Wrap64(now + 1) != Wrap64(now + 2)
    ensures Wrap64(now + 1) != Wrap64(now + 3) && Wrap64(now + 2) != Wrap64(now + 3)
  {
    WrapIs(now + 1);
    WrapIs(now + 2);
    WrapIs(now + 3);
  }

  lemma WrapIs(x: int)
    requires -TWO_63 <= x < TWO_63 + 4
    ensures Wrap64(x) == if x < TWO_63 then x else x - TWO_64
  {}

  lemma TotalOne(v: Value, u: UnitID)
    ensures Total([v], u) == if v.unit == u then v.amount else 0
  {
    var none: seq<Value> := [];
    assert [v][..0] == none && Total(none, u) == 0;
  }

  lemma TotalTwo(v: Value, w: Value, u: UnitID)
    ensures Total([v] + [w], u) == (if v.unit == u then v.amount else 0) + (if w.unit == u then w.amount else 0)
  {
    TotalConcat([v], [w], u);
    TotalOne(v, u);
    TotalOne(w, u);
  }

  predicate GoodTerms(q: Quote) {
    && q.seller != ZERO_NODE_ID && q.buyer != ZERO_NODE_ID && q.seller != q.buyer
    && q.sellAmount > 0 && q.buyAmount > 0
    && (q.sellUnit == q.buyUnit ==> q.sellAmount + q.buyAmount <= MAX_INT64)
  }

  lemma BuiltIds(q: Quote, now: int64)
    ensures var tx := BuildTradeTx(q, now);
      && DistinctIds(tx.inputsA + tx.inputsB + tx.outputsA + tx.outputsB)
      && tx.id == TradeTxID(tx)
      && tx.inputsA[0].id == ValueIDFor(tx.inputsA[0]) && tx.inputsB[0].id == ValueIDFor(tx.inputsB[0])
      && tx.outputsA[0].id == ValueIDFor(tx.outputsA[0]) && tx.outputsB[0].id == ValueIDFor(tx.outputsB[0])
  {
    hide ValueIDFor;
    var tx := BuildTradeTx(q, now);
    var a, b, c, d := tx.inputsA[0], tx.inputsB[0], tx.outputsA[0], tx.outputsB[0];
    TradeValueGenuine(q.sellUnit, q.sellAmount, q.seller, now);
    TradeValueGenuine(q.buyUnit, q.buyAmount, q.buyer, Wrap64(now + 1));
    TradeValueGenuine(q.buyUnit, q.buyAmount, q.seller, Wrap64(now + 2));
    TradeValueGenuine(q.sellUnit, q.sellAmount, q.buyer, Wrap64(now + 3));
    WrappedTimesDiffer(now);
    TradeValuesDiffer(a, b);
    TradeValuesDiffer(a, c);
    TradeValuesDiffer(a, d);
    TradeValuesDiffer(b, c);
    TradeValuesDiffer(b, d);
    TradeValuesDiffer(c, d);
    assert tx.inputsA + tx.inputsB + tx.outputsA + tx.outputsB == [a, b, c, d];
    assert TradeFields(tx) == TradeFields(tx.(id := ZERO_TX_ID));
  }

  lemma BuiltBalanced(q: Quote, now: int64)
    requires q.sellAmount > 0 && q.buyAmount > 0
    ensures var tx := BuildTradeTx(q, now);
      var fits := q.sellUnit == q.buyUnit ==> q.sellAmount + q.buyAmount <= MAX_INT64;
      Balanced(tx.inputsA + tx.inputsB, tx.outputsA + tx.outputsB) == fits
  {
    hide ValueIDFor, TradeTxID;
    var tx := BuildTradeTx(q, now);
    forall u ensures Total(tx.inputsA + tx.inputsB, u) == Total(tx.outputsA + tx.outputsB, u)
                  == NodeLaws.If(u == q.sellUnit, q.sellAmount) + NodeLaws.If(u == q.buyUnit, q.buyAmount) {
      TotalTwo(tx.inputsA[0], tx.inputsB[0], u);
      TotalTwo(tx.outputsA[0], tx.outputsB[0], u);
    }
    assert Total(tx.inputsA + tx.inputsB, q.sellUnit) == Total(tx.outputsA + tx.outputsB, q.sellUnit);
  }

  lemma BuiltCovered(q: Quote, now: int64, h: Holdings)
    requires q.sellAmount <= Cell(h, q.seller, q.sellUnit) && q.buyAmount <= Cell(h, q.buyer, q.buyUnit)
    ensures var tx := BuildTradeTx(q, now);
      Covered(h, tx.partyA, tx.inputsA) && Covered(h, tx.partyB, tx.inputsB)
  {
    hide ValueIDFor, TradeTxID;
    var tx := BuildTradeTx(q, now);
    forall u ensures Total(tx.inputsA, u) == NodeLaws.If(u == q.sellUnit, q.sellAmount)
                  && Total(tx.inputsB, u) == NodeLaws.If(u == q.buyUnit, q.buyAmount) {
      TotalOne(tx.inputsA[0], u);
      TotalOne(tx.inputsB[0], u);
    }
  }

  /** The trade built from a quote both parties can pay is valid exactly when its terms are good. */
  lemma BuiltTradeValid(q: Quote, now: int64, h: Holdings)
    requires q.sellAmount <= Cell(h, q.seller, q.sellUnit) && q.buyAmount <= Cell(h, q.buyer, q.buyUnit)
    ensures ValidTrade(BuildTradeTx(q, now), h) <==> GoodTerms(q)
  {
    hide ValueIDFor, TradeTxID, Balanced, Covered, DistinctIds;
    BuiltIds(q, now);
    BuiltCovered(q, now, h);
    if q.sellAmount > 0 && q.buyAmount > 0 { BuiltBalanced(q, now); }
    var tx := BuildTradeTx(q, now);
    assert ValidValue(tx.inputsA[0], q.seller, true) <==> q.sellAmount > 0;
    assert ValidValue(tx.inputsB[0], q.buyer, true) <==> q.buyAmount > 0;
    assert ValidValue(tx.outputsA[0], q.seller, false) <==> q.buyAmount > 0 && q.seller != ZERO_NODE_ID;
    assert ValidValue(tx.outputsB[0], q.buyer, false) <==> q.sellAmount > 0 && q.buyer != ZERO_NODE_ID;
  }

  // ---- When execution goes through ----

  /** Trade flow, payment flow and settled volume have room for the trade. The three are looked at one by
      one: a node reopened from its store has its flow back but neither history nor settled volume. */
  predicate RecordsFit(b: Books, q: Quote) {
    var same := q.sellUnit == q.buyUnit;
    && FlowOf(b, q.sellUnit).trade + q.sellAmount + NodeLaws.If(same, q.buyAmount) <= MAX_INT64
    && FlowOf(b, q.buyUnit).trade + q.buyAmount + NodeLaws.If(same, q.sellAmount) <= MAX_INT64
    && FlowOf(b, q.buyUnit).payment + q.buyAmount <= MAX_INT64
    && Settled(b, q.sellUnit) + q.sellAmount + NodeLaws.If(same, q.buyAmount) <= MAX_INT64
    && Settled(b, q.buyUnit) + q.buyAmount + NodeLaws.If(same, q.sellAmount) <= MAX_INT64
  }

  /** What each party receives fits, and so does what each records. */
  predicate HasRoom(b: Books, id: NodeID, give: UnitID, giveAmount: Amount, get: UnitID, getAmount: Amount, q: Quote) {
    Cell(b.holdings, id, get) - NodeLaws.If(get == give, giveAmount) + getAmount <= MAX_INT64 && RecordsFit(b, q)
  }

  lemma RecordedWhen(b: Books, q: Quote, now: int64)
    requires q.sellAmount > 0 && q.buyAmount > 0
    ensures Recorded(b, q, now).Some? <==> RecordsFit(b, q)
  {
    var r1 := RecordTradeFlow(b, q.sellUnit, q.sellAmount);
    if r1.Some? {
      NodeLaws.TradeFlowEffect(b, q.sellUnit, q.sellAmount, q.buyUnit);
      var r2 := RecordTradeFlow(r1.value, q.buyUnit, q.buyAmount);
      if r2.Some? {
        NodeLaws.TradeFlowEffect(r1.value, q.buyUnit, q.buyAmount, q.buyUnit);
        ObservedWhen(b, r2.value, q, now);
      }
    }
  }

  /** The part of it after the trade flow. */
  lemma ObservedWhen(b: Books, c: Books, q: Quote, now: int64)
    requires q.sellAmount > 0 && q.buyAmount > 0 && c.settled == b.settled
    requires FlowOf(c, q.buyUnit).payment == FlowOf(b, q.buyUnit).payment
    ensures var r3 := RecordPaymentFlow(c, q.buyUnit, q.buyAmount);
      var r4 := if r3.None? then None else RecordObservation(r3.value, q.sellUnit, q.sellAmount, now);
      var same := q.sellUnit == q.buyUnit;
      r4.Some? && RecordObservation(r4.value, q.buyUnit, q.buyAmount, now).Some? <==>
        && FlowOf(b, q.buyUnit).payment + q.buyAmount <= MAX_INT64
        && Settled(b, q.sellUnit) + q.sellAmount + NodeLaws.If(same, q.buyAmount) <= MAX_INT64
        && Settled(b, q.buyUnit) + q.buyAmount + NodeLaws.If(same, q.sellAmount) <= MAX_INT64
  {}

  predicate TradeFlowFits(b: Books, q: Quote) {
    var same := q.sellUnit == q.buyUnit;
    && FlowOf(b, q.sellUnit).trade + q.sellAmount + NodeLaws.If(same, q.buyAmount) <= MAX_INT64
    && FlowOf(b, q.buyUnit).trade + q.buyAmount + NodeLaws.If(same, q.sellAmount) <= MAX_INT64
  }

  /** In a ledger that agrees with itself only the trade flow can be in the way. */
  lemma LedgerFits(b: Books, q: Quote)
    requires q.sellAmount > 0 && q.buyAmount > 0 && NodeLaws.Ledger(b)
    ensures RecordsFit(b, q) <==> TradeFlowFits(b, q)
  {
    assert NodeLaws.LedgerAgrees(b, q.sellUnit) && NodeLaws.LedgerAgrees(b, q.buyUnit);
  }

  lemma SellerSideWhen(b: Books, q: Quote, now: int64)
    requires q.sellAmount > 0 && q.buyAmount > 0 && Cell(b.holdings, q.seller, q.sellUnit) >= q.sellAmount
    ensures SellerSide(b, q, now).Some? <==> HasRoom(b, q.seller, q.sellUnit, q.sellAmount, q.buyUnit, q.buyAmount, q)
  {
    NodeLaws.SwapFails(b.holdings, q.seller, q.sellUnit, q.sellAmount, q.buyUnit, q.buyAmount);
    var swapped := Swap(b.holdings, q.seller, q.sellUnit, q.sellAmount, q.buyUnit, q.buyAmount);
    if swapped.Some? { RecordedWhen(b.(holdings := swapped.value), q, now); }
  }

  lemma BuyerSideWhen(b: Books, q: Quote, now: int64)
    requires q.sellAmount > 0 && q.buyAmount > 0 && Cell(b.holdings, q.buyer, q.buyUnit) >= q.buyAmount
    ensures BuyerSide(b, q, now).Some? <==> HasRoom(b, q.buyer, q.buyUnit, q.buyAmount, q.sellUnit, q.sellAmount, q)
  {
    NodeLaws.SwapFails(b.holdings, q.buyer, q.buyUnit, q.buyAmount, q.sellUnit, q.sellAmount);
    var swapped := Swap(b.holdings, q.buyer, q.buyUnit, q.buyAmount, q.sellUnit, q.sellAmount);
    if swapped.Some? { RecordedWhen(b.(holdings := swapped.value), q, now); }
  }

  /** A signed execution is done exactly when it is permitted, both parties hold only positive amounts,
      the terms are good, everything received and recorded fits, and the persist call, if there is one,
      succeeds. */
  lemma DoneExactlyWhen(s: NodeState, b: NodeState, sv: StoreView, bv: StoreView, same: bool, r: Request,
                        persisted: bool)
    ensures Execute(s, b, sv, bv, same, r, persisted).outcome.Done? <==>
      && Permitted(s, b, sv, bv, same, r) && RowPositive(s) && RowPositive(b) && GoodTerms(r.quote)
      && HasRoom(s.books, s.id, r.quote.sellUnit, r.quote.sellAmount, r.quote.buyUnit, r.quote.buyAmount, r.quote)
      && HasRoom(b.books, b.id, r.quote.buyUnit, r.quote.buyAmount, r.quote.sellUnit, r.quote.sellAmount, r.quote)
      && (sv.Some? || bv.Some? ==> persisted)
  {
    hide Authorized, Guarded, NotReplayed, AuthIdOf, BuildTradeTx, ValidTrade;
    hide HasRoom, RowPositive, SellerSide, BuyerSide;
    var q := r.quote;
    if Permitted(s, b, sv, bv, same, r) {
      PermittedParties(s, b, sv, bv, same, r);
      var now := r.sellerSig.intent.timestamp;
      if s.id != b.id { CombinedCells(s, b); }
      if s.id != b.id {
        BuiltTradeValid(q, now, Combined(s, b));
      } else {
        SamePartyInvalid(q, now, Combined(s, b));
      }
      if GoodTerms(q) {
        SellerSideWhen(s.books, q, now);
        BuyerSideWhen(b.books, q, now);
      }
    }
  }

  /** Between nodes whose ledgers agree, a permitted execution whose persist call succeeds can only fail on the
      terms, on a receipt that does not fit, or on trade flow; without positive holdings it aborts. */
  lemma DoneBetweenAgreeing(s: NodeState, b: NodeState, sv: StoreView, bv: StoreView, same: bool, r: Request)
    requires NodeLaws.Ledger(s.books) && NodeLaws.Ledger(b.books) && Permitted(s, b, sv, bv, same, r)
    ensures var q := r.quote;
      Execute(s, b, sv, bv, same, r, true).outcome.Done? <==>
        && RowPositive(s) && RowPositive(b) && GoodTerms(q) && TradeFlowFits(s.books, q) && TradeFlowFits(b.books, q)
        && NodeLaws.Balance(s, q.buyUnit) - NodeLaws.If(q.buyUnit == q.sellUnit, q.sellAmount) + q.buyAmount <= MAX_INT64
        && NodeLaws.Balance(b, q.sellUnit) - NodeLaws.If(q.sellUnit == q.buyUnit, q.buyAmount) + q.sellAmount <= MAX_INT64
  {
    hide Execute, Permitted, RowPositive, RecordsFit, TradeFlowFits, NodeLaws.Ledger;
    DoneExactlyWhen(s, b, sv, bv, same, r, true);
    if GoodTerms(r.quote) {
      LedgerFits(s.books, r.quote);
      LedgerFits(b.books, r.quote);
    }
  }

  lemma SamePartyInvalid(q: Quote, now: int64, h: Holdings)
    requires q.seller == q.buyer
    ensures !ValidTrade(BuildTradeTx(q, now), h)
  {
    hide ValueIDFor, TradeTxID;
  }

  lemma CombinedCells(s: NodeState, b: NodeState)
    requires s.id != b.id
    ensures forall u :: Cell(Combined(s, b), s.id, u) == Cell(s.books.holdings, s.id, u)
    ensures forall u :: Cell(Combined(s, b), b.id, u) == Cell(b.books.holdings, b.id, u)
  {}

  lemma PermittedParties(s: NodeState, b: NodeState, sv: StoreView, bv: StoreView, same: bool, r: Request)
    requires Permitted(s, b, sv, bv, same, r)
    ensures s.id == r.quote.seller && b.id == r.quote.buyer
    ensures s.id != b.id ==> Cell(s.books.holdings, s.id, r.quote.sellUnit) >= r.quote.sellAmount
    ensures s.id != b.id ==> Cell(b.books.holdings, b.id, r.quote.buyUnit) >= r.quote.buyAmount
  {
    hide VerifyTradeIntent, AuthIdOf;
  }

  // ---- Execution on the spot ----

  /** An execution without signatures is done exactly when both parties are those of an executable quote, can pay
      and agree, hold only positive amounts, and terms, receipts and records are as for a signed one. It aborts
      exactly when it gets as far as combining the inventories and that does. */
  lemma DirectExactlyWhen(s: NodeState, b: NodeState, q: Quote, now: int64, sellerAgrees: bool, buyerAgrees: bool)
    ensures var outcome := ExecuteDirect(s, b, q, now, sellerAgrees, buyerAgrees).outcome;
      var willing := q.executable && s.id == q.seller && b.id == q.buyer && sellerAgrees && buyerAgrees
                     && NodeLaws.Balance(s, q.sellUnit) >= q.sellAmount
                     && (if q.seller == q.buyer then NodeLaws.Balance(b, q.sellUnit) >= q.sellAmount
                         else NodeLaws.Balance(b, q.buyUnit) >= q.buyAmount);
      && (outcome.Done? <==>
            && willing && RowPositive(s) && RowPositive(b) && GoodTerms(q)
            && HasRoom(s.books, s.id, q.sellUnit, q.sellAmount, q.buyUnit, q.buyAmount, q)
            && HasRoom(b.books, b.id, q.buyUnit, q.buyAmount, q.sellUnit, q.sellAmount, q))
      && (outcome.Aborted? <==> willing && CombiningAborts(s, b))
  {
    hide BuildTradeTx, ValidTrade, RowPositive, SellerSide, BuyerSide, HasRoom;
    if s.id == q.seller && b.id == q.buyer {
      if q.seller == q.buyer {
        SamePartyInvalid(q, now, Combined(s, b));
      } else {
        CombinedCells(s, b);
        if NodeLaws.Balance(s, q.sellUnit) >= q.sellAmount && NodeLaws.Balance(b, q.buyUnit) >= q.buyAmount {
          BuiltTradeValid(q, now, Combined(s, b));
          if GoodTerms(q) {
            SellerSideWhen(s.books, q, now);
            BuyerSideWhen(b.books, q, now);
          }
        }
      }
    }
  }

  /** What it does to the two nodes: the same exchange and records as a signed execution, at the time given; no
      executed trade is remembered, and unless it is done neither node changes. */
  lemma DirectExchanges(s: NodeState, b: NodeState, q: Quote, now: int64, sellerAgrees: bool, buyerAgrees: bool,
                        u: UnitID)
    ensures var e := ExecuteDirect(s, b, q, now, sellerAgrees, buyerAgrees);
      if e.outcome.Done? then
        && NodeLaws.Balance(e.seller, u)
             == NodeLaws.Balance(s, u) - NodeLaws.If(u == q.sellUnit, q.sellAmount)
                + NodeLaws.If(u == q.buyUnit, q.buyAmount)
        && NodeLaws.Balance(e.buyer, u)
             == NodeLaws.Balance(b, u) - NodeLaws.If(u == q.buyUnit, q.buyAmount)
                + NodeLaws.If(u == q.sellUnit, q.sellAmount)
        && NodeLaws.Witnessed(s.books, e.seller.books, q, now, u) && NodeLaws.Witnessed(b.books, e.buyer.books, q, now, u)
        && e.seller == s.(books := e.seller.books) && e.buyer == b.(books := e.buyer.books)
      else e.seller == s && e.buyer == b
  {
    hide SellerSide, BuyerSide, Recorded, NodeLaws.Witnessed, CombiningAborts, ValidTrade;
    if ExecuteDirect(s, b, q, now, sellerAgrees, buyerAgrees).outcome.Done? {
      NodeLaws.SidesExchange(s.books, b.books, q, now, u);
      NodeLaws.SidesPositive(s.books, q, now);
      var s', b' := SellerSide(s.books, q, now).value, BuyerSide(b.books, q, now).value;
      NodeLaws.RecordedWitnessed(s.books, s'.holdings, q, now, u);
      NodeLaws.RecordedWitnessed(b.books, b'.holdings, q, now, u);
    }
  }

  /** The transaction built from a quote says what execution does: applied to the two parties' inventories it
      moves the sold amount from seller to buyer, the paid amount back, and nothing else. */
  lemma BuiltTradeMoves(q: Quote, now: int64, h: Holdings, n: NodeID, u: UnitID)
    requires q.seller != q.buyer
    ensures var sold, paid := NodeLaws.If(u == q.sellUnit, q.sellAmount), NodeLaws.If(u == q.buyUnit, q.buyAmount);
      Final(h, BuildTradeTx(q, now), n, u)
        == Cell(h, n, u) + NodeLaws.If(n == q.seller, paid - sold) + NodeLaws.If(n == q.buyer, sold - paid)
    ensures BuildTradeTx(q, now).partyA == q.seller && BuildTradeTx(q, now).partyB == q.buyer
    ensures BuildTradeTx(q, now).timestamp == now
  {
    hide ValueIDFor, TradeTxID;
    var tx := BuildTradeTx(q, now);
    TotalOne(tx.inputsA[0], u);
    TotalOne(tx.inputsB[0], u);
    OwnedOne(tx.outputsA[0], n, u);
    OwnedOne(tx.outputsB[0], n, u);
  }

  lemma OwnedOne(v: Value, n: NodeID, u: UnitID)
    ensures OwnedTotal([v], n, u) == if v.owner == n && v.unit == u then v.amount else 0
  {
    var none: seq<Value> := [];
    assert [v][..0] == none && OwnedTotal(none, n, u) == 0;
  }

  // ---- What is permitted ----

  /** An intent of this party on these terms, signed by it, and with the key of the node if the node has one. */
  predicate SignedBy(node: NodeState, sig: SignedIntent, q: Quote) {
    && sig.publicKey == node.id && sig.intent.party == node.id && (node.publicKey == [] || node.publicKey == node.id)
    && sig.signature.Sig? && sig.signature.signer == node.id && sig.signature.msg == IntentPreimage(sig.intent)
    && sig.intent.timestamp == q.timestamp && q.timestamp > 0
    && sig.intent.seller == q.seller && sig.intent.buyer == q.buyer
    && sig.intent.sellUnit == q.sellUnit && sig.intent.buyUnit == q.buyUnit
    && sig.intent.sellAmount == q.sellAmount && sig.intent.buyAmount == q.buyAmount
  }

  /** An execution is permitted exactly between the parties of an executable quote that both signed, by a clock
      between the timestamp and a day after it, with a store that guards against replay, the same one if both have
      one, or without stores where both allow that; if both agree and can pay; and for a trade neither node has
      executed and no store has marked. */
  lemma PermittedWhen(s: NodeState, b: NodeState, sv: StoreView, bv: StoreView, same: bool, r: Request)
    ensures var q := r.quote; var now := if r.sellerNow > r.buyerNow then r.sellerNow else r.buyerNow;
      Permitted(s, b, sv, bv, same, r) <==>
        && q.executable && s.id == q.seller && b.id == q.buyer
        && SignedBy(s, r.sellerSig, q) && SignedBy(b, r.buyerSig, q)
        && q.timestamp <= now <= q.timestamp + 86400
        && (sv.Some? && bv.Some? ==> same) && (sv.Some? != bv.Some? ==> r.allowPeerShadow)
        && (sv.None? && bv.None? ==> s.ephemeral && b.ephemeral)
        && r.sellerAgrees && NodeLaws.Balance(s, q.sellUnit) >= q.sellAmount
        && r.buyerAgrees && (if q.seller == q.buyer then NodeLaws.Balance(b, q.sellUnit) >= q.sellAmount
                             else NodeLaws.Balance(b, q.buyUnit) >= q.buyAmount)
        && AuthIdOf(r) !in s.executed && AuthIdOf(r) !in b.executed
        && (sv.Some? ==> AuthIdOf(r) !in sv.value) && (bv.Some? ==> AuthIdOf(r) !in bv.value)
  {
    hide AuthIdOf, IntentPreimage;
    if s.id == r.quote.seller && b.id == r.quote.buyer {
      SignedWhen(s, r.sellerSig, r.quote);
      SignedWhen(b, r.buyerSig, r.quote);
    }
  }

  lemma SignedWhen(node: NodeState, sig: SignedIntent, q: Quote)
    ensures SignedBy(node, sig, q) <==> VerifyTradeIntent(sig) && KeyAgrees(node, sig) && IntentMatches(sig.intent, q, node.id)
  {
    hide IntentPreimage;
  }
}
