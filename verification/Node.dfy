/** Node objects as they run: trades are prepared on copies, reserved, persisted, and only then
    committed to the nodes. What the methods do is Execute and ExecuteDirect of NodeStates. */
module Nodes {
  import opened Base
  import opened Model
  import opened Inventory
  import opened Trades
  import opened NodeStates
  import F = Files
  import J = JSONStores
  import S = StateFiles
  import NodeLaws

  class Node {
    const id: NodeID
    var publicKey: Bytes
    var Inventory: InventoryState
    var TradeHistory: map<UnitID, seq<Observation>>
    var SettledVolume: map<UnitID, Amount>
    var LastTradeUnix: map<UnitID, int64>
    var Flow: map<UnitID, FlowRecord>
    var ExecutedTrades: set<TxID>
    var Store: J.JSONStore?
    var AllowEphemeralReplayUnsafe: bool

    /** A new node holds nothing and has recorded nothing. */
    constructor (id: NodeID)
      ensures this.id == id && fresh(Inventory)
      ensures State() == NodeState(id, [], NodeStates.Books(map[], map[], map[], map[], map[]), {}, false)
      ensures Store == null
    {
      this.id := id;
      publicKey := [];
      Inventory := new InventoryState();
      TradeHistory, SettledVolume, LastTradeUnix, Flow := map[], map[], map[], map[];
      ExecutedTrades := {};
      Store := null;
      AllowEphemeralReplayUnsafe := false;
    }

    function Books(): Books
      reads this, Inventory
    {
      NodeStates.Books(Inventory.Holdings, TradeHistory, SettledVolume, LastTradeUnix, Flow)
    }

    function State(): NodeState
      reads this, Inventory
    {
      NodeState(id, publicKey, Books(), ExecutedTrades, AllowEphemeralReplayUnsafe)
    }

    function Marks(): StoreView
      reads this, Store
    {
      if Store == null then None else Some(F.Evidence(Store.files))
    }

    // ---- Bookkeeping ----

    method RecordTradeFlow(unit: UnitID, amount: Amount) returns (ok: bool)
      modifies `Flow
      ensures ok <==> NodeStates.RecordTradeFlow(old(Books()), unit, amount).Some?
      ensures ok ==> Some(Books()) == NodeStates.RecordTradeFlow(old(Books()), unit, amount)
    {
      var record := if unit in Flow then Flow[unit] else FlowRecord(0, 0, 0, 0);
      if amount > 0 {
        var next := CheckedAdd(record.trade, amount);
        if next.None? { return false; }
        record := record.(trade := next.value);
      }
      Flow := Flow[unit := record];
      return true;
    }

    method RecordPaymentFlow(unit: UnitID, amount: Amount) returns (ok: bool)
      modifies `Flow
      ensures ok <==> NodeStates.RecordPaymentFlow(old(Books()), unit, amount).Some?
      ensures ok ==> Some(Books()) == NodeStates.RecordPaymentFlow(old(Books()), unit, amount)
    {
      var record := if unit in Flow then Flow[unit] else FlowRecord(0, 0, 0, 0);
      if amount > 0 {
        var next := CheckedAdd(record.payment, amount);
        if next.None? { return false; }
        record := record.(payment := next.value);
      }
      Flow := Flow[unit := record];
      return true;
    }

    /** The observation is appended before the settled volume is checked, so a failure leaves it behind. */
    method RecordObservation(unit: UnitID, volume: Amount, now: int64) returns (ok: bool)
      modifies `TradeHistory, `SettledVolume, `LastTradeUnix
      ensures ok <==> NodeStates.RecordObservation(old(Books()), unit, volume, now).Some?
      ensures ok ==> Some(Books()) == NodeStates.RecordObservation(old(Books()), unit, volume, now)
    {
      if volume <= 0 { return true; }
      var history := if unit in TradeHistory then TradeHistory[unit] else [];
      TradeHistory := TradeHistory[unit := history + [Observation(volume, now)]];
      var next := CheckedAdd(if unit in SettledVolume then SettledVolume[unit] else 0, volume);
      if next.None? { return false; }
      SettledVolume := SettledVolume[unit := next.value];
      LastTradeUnix := LastTradeUnix[unit := now];
      return true;
    }

    /** A copy that shares no mutable state with the original. */
    method CloneRuntimeState() returns (copy: Node)
      ensures fresh(copy) && fresh(copy.Inventory) && copy.State() == State() && copy.Store == Store
    {
      var inventory := Inventory.Copy();
      copy := new Node(id);
      copy.publicKey := publicKey;
      copy.Inventory := inventory;
      copy.TradeHistory, copy.SettledVolume, copy.LastTradeUnix := TradeHistory, SettledVolume, LastTradeUnix;
      copy.Flow := Flow;
      copy.ExecutedTrades := ExecutedTrades;
      copy.Store := Store;
      copy.AllowEphemeralReplayUnsafe := AllowEphemeralReplayUnsafe;
    }

    /** Takes over the books of a prepared copy. */
    method CommitPreparedState(prepared: Node)
      modifies `Inventory, `TradeHistory, `SettledVolume, `LastTradeUnix, `Flow
      ensures Books() == old(prepared.Books()) && Inventory == prepared.Inventory
    {
      Inventory := prepared.Inventory;
      Flow := prepared.Flow;
      TradeHistory := prepared.TradeHistory;
      SettledVolume := prepared.SettledVolume;
      LastTradeUnix := prepared.LastTradeUnix;
    }
  }

  // ---- Combining inventories ----

  /** out holds what it held plus the part of row outside rest. */
  ghost predicate Added(before: Holdings, out: Holdings, id: NodeID, row: map<UnitID, Amount>, rest: set<UnitID>) {
    forall n, u :: Cell(out, n, u)
                == Cell(before, n, u) + (if n == id && u in row && u !in rest then row[u] else 0)
  }

  lemma AddedStep(before: Holdings, out: Holdings, id: NodeID, row: map<UnitID, Amount>, rest: set<UnitID>, u: UnitID)
    requires Added(before, out, id, row, rest) && u in rest && u in row
    requires Cell(out, id, u) + row[u] <= MAX_INT64 && row[u] > 0
    ensures Added(before, Put(out, id, u, Cell(out, id, u) + row[u]), id, row, rest - {u})
  {
    forall n, v ensures Cell(Put(out, id, u, Cell(out, id, u) + row[u]), n, v)
      == Cell(before, n, v) + (if n == id && v in row && v !in rest - {u} then row[v] else 0) {
      CellAfterPut(out, id, u, Cell(out, id, u) + row[u], n, v);
    }
  }

  /** Adds a row of holdings, refusing one that is not positive or does not fit. */
  method AddRow(out: InventoryState, id: NodeID, row: map<UnitID, Amount>) returns (ok: bool)
    modifies out
    ensures ok <==> forall u :: u in row ==> row[u] > 0 && Cell(old(out.Holdings), id, u) + row[u] <= MAX_INT64
    ensures ok ==> Added(old(out.Holdings), out.Holdings, id, row, {})
  {
    var rest := row.Keys;
    while rest != {}
      invariant rest <= row.Keys && Added(old(out.Holdings), out.Holdings, id, row, rest)
      invariant forall u :: u in row && u !in rest ==> row[u] > 0 && Cell(old(out.Holdings), id, u) + row[u] <= MAX_INT64
      decreases |rest|
    {
      var u :| u in rest;
      ghost var before := out.Holdings;
      assert Cell(before, id, u) == Cell(old(out.Holdings), id, u);
      ok := out.AddChecked(id, u, row[u]);
      if !ok { return; }
      AddedStep(old(out.Holdings), before, id, row, rest, u);
      rest := rest - {u};
    }
    return true;
  }

  /** The parties' own rows in one inventory; None where the original panics. */
  method CombinedInventory(a: Node, b: Node) returns (r: Option<InventoryState>)
    ensures r.None? <==> CombiningAborts(a.State(), b.State())
    ensures r.Some? ==> fresh(r.value)
    ensures r.Some? && a.id != b.id ==>
      forall n, u :: Cell(r.value.Holdings, n, u) == Cell(Combined(a.State(), b.State()), n, u)
    ensures r.Some? && a.id == b.id ==>
      forall n, u :: Cell(r.value.Holdings, n, u)
        == NodeLaws.If(n == a.id, NodeLaws.Balance(a.State(), u) + NodeLaws.Balance(b.State(), u))
  {
    hide CombiningAborts, RowPositive;
    var out := new InventoryState();
    var rowA, rowB := Row(a.State()), Row(b.State());
    var ok := AddRow(out, a.id, rowA);
    ghost var one := out.Holdings;
    FirstRow(a.State(), b.State(), rowA);
    if !ok { return None; }
    ok := AddRow(out, b.id, rowB);
    SecondRow(a.State(), b.State(), rowA, rowB);
    if !ok { return None; }
    BothRows(a.State(), b.State(), one, out.Holdings);
    return Some(out);
  }

  lemma FirstRow(a: NodeState, b: NodeState, rowA: map<UnitID, Amount>)
    requires rowA == Row(a)
    ensures RowPositive(a) <==> forall u :: u in rowA ==> rowA[u] > 0 && Cell(map[], a.id, u) + rowA[u] <= MAX_INT64
    ensures !RowPositive(a) ==> CombiningAborts(a, b)
  {}

  lemma BothRows(a: NodeState, b: NodeState, one: Holdings, two: Holdings)
    requires Added(map[], one, a.id, Row(a), {}) && Added(one, two, b.id, Row(b), {})
    ensures a.id != b.id ==> forall n, u :: Cell(two, n, u) == Cell(Combined(a, b), n, u)
    ensures a.id == b.id ==>
      forall n, u :: Cell(two, n, u) == NodeLaws.If(n == a.id, NodeLaws.Balance(a, u) + NodeLaws.Balance(b, u))
  {
    forall n, u ensures Cell(two, n, u)
      == NodeLaws.If(n == a.id, NodeLaws.Balance(a, u)) + NodeLaws.If(n == b.id, NodeLaws.Balance(b, u)) {}
  }

  lemma SecondRow(a: NodeState, b: NodeState, rowA: map<UnitID, Amount>, rowB: map<UnitID, Amount>)
    requires rowA == Row(a) && rowB == Row(b) && RowPositive(a)
    ensures CombiningAborts(a, b) <==>
      !(forall u :: u in rowB ==>
          rowB[u] > 0 && (if a.id == b.id && u in rowA then rowA[u] else 0) + rowB[u] <= MAX_INT64)
  {
    if a.id == b.id && RowPositive(b) {
      if u :| Cell(a.books.holdings, a.id, u) + Cell(b.books.holdings, b.id, u) > MAX_INT64 {
        assert u in rowB && u in rowA;
      }
      if u :| u in rowB && (if u in rowA then rowA[u] else 0) + rowB[u] > MAX_INT64 {
        assert Cell(a.books.holdings, a.id, u) + Cell(b.books.holdings, b.id, u) > MAX_INT64;
      }
    }
  }

  /** Whether a trade is valid depends on the holdings of its parties only. */
  lemma ValidTradeByCells(tx: TradeTx, h: Holdings, g: Holdings)
    requires tx.partyA != tx.partyB ==> forall n, u :: Cell(h, n, u) == Cell(g, n, u)
    ensures ValidTrade(tx, h) <==> ValidTrade(tx, g)
  {}

  // ---- Preparing ----

  /** Records the trade with both parties, alternating between them; fails on the first overflow. */
  method RecordSuccessfulTrade(seller: Node, buyer: Node, q: Quote, now: int64) returns (ok: bool)
    requires seller != buyer
    modifies seller`Flow, seller`TradeHistory, seller`SettledVolume, seller`LastTradeUnix
    modifies buyer`Flow, buyer`TradeHistory, buyer`SettledVolume, buyer`LastTradeUnix
    ensures ok <==> Recorded(old(seller.Books()), q, now).Some? && Recorded(old(buyer.Books()), q, now).Some?
    ensures ok ==> Some(seller.Books()) == Recorded(old(seller.Books()), q, now)
    ensures ok ==> Some(buyer.Books()) == Recorded(old(buyer.Books()), q, now)
  {
    hide NodeStates.RecordTradeFlow, NodeStates.RecordPaymentFlow, NodeStates.RecordObservation;
    ok := seller.RecordTradeFlow(q.sellUnit, q.sellAmount);
    if !ok { return; }
    ok := buyer.RecordTradeFlow(q.sellUnit, q.sellAmount);
    if !ok { return; }
    ok := seller.RecordTradeFlow(q.buyUnit, q.buyAmount);
    if !ok { return; }
    ok := buyer.RecordTradeFlow(q.buyUnit, q.buyAmount);
    if !ok { return; }
    ok := seller.RecordPaymentFlow(q.buyUnit, q.buyAmount);
    if !ok { return; }
    ok := buyer.RecordPaymentFlow(q.buyUnit, q.buyAmount);
    if !ok { return; }
    ok := seller.RecordObservation(q.sellUnit, q.sellAmount, now);
    if !ok { return; }
    ok := buyer.RecordObservation(q.sellUnit, q.sellAmount, now);
    if !ok { return; }
    ok := seller.RecordObservation(q.buyUnit, q.buyAmount, now);
    if !ok { return; }
    ok := buyer.RecordObservation(q.buyUnit, q.buyAmount, now);
  }

  /** The exchange of one party on its own inventory. */
  method Exchange(inv: InventoryState, id: NodeID, give: UnitID, giveAmount: Amount, get: UnitID, getAmount: Amount)
    returns (ok: bool)
    modifies inv
    ensures ok <==> Swap(old(inv.Holdings), id, give, giveAmount, get, getAmount).Some?
    ensures ok ==> Some(inv.Holdings) == Swap(old(inv.Holdings), id, give, giveAmount, get, getAmount)
  {
    ok := inv.Sub(id, give, giveAmount);
    if !ok { return; }
    ok := inv.AddChecked(id, get, getAmount);
  }

  /** Both parties' next states, on copies. */
  method PreparedTradeState(seller: Node, buyer: Node, q: Quote, now: int64)
    returns (ok: bool, nextSeller: Node, nextBuyer: Node)
    requires seller.id == q.seller && buyer.id == q.buyer
    ensures fresh(nextSeller) && fresh(nextBuyer)
    ensures ok <==> SellerSide(seller.Books(), q, now).Some? && BuyerSide(buyer.Books(), q, now).Some?
    ensures ok ==> Some(nextSeller.Books()) == SellerSide(seller.Books(), q, now)
    ensures ok ==> Some(nextBuyer.Books()) == BuyerSide(buyer.Books(), q, now)
  {
    nextSeller := seller.CloneRuntimeState();
    nextBuyer := buyer.CloneRuntimeState();
    ok := Exchange(nextSeller.Inventory, seller.id, q.sellUnit, q.sellAmount, q.buyUnit, q.buyAmount);
    if !ok { return; }
    ok := Exchange(nextBuyer.Inventory, buyer.id, q.buyUnit, q.buyAmount, q.sellUnit, q.sellAmount);
    if !ok { return; }
    ok := RecordSuccessfulTrade(nextSeller, nextBuyer, q, now);
  }

  // ---- Executing ----

  method CheckAuthorized(seller: Node, buyer: Node, r: Request) returns (ok: bool)
    ensures ok <==> Authorized(seller.State(), buyer.State(), r)
  {
    var q := r.quote;
    if !q.executable { return false; }
    if seller.id != q.seller || buyer.id != q.buyer { return false; }
    if !VerifyTradeIntent(r.sellerSig) { return false; }
    if !VerifyTradeIntent(r.buyerSig) { return false; }
    if r.sellerSig.intent.party != seller.id || r.buyerSig.intent.party != buyer.id { return false; }
    if r.sellerSig.publicKey != seller.id || r.buyerSig.publicKey != buyer.id { return false; }
    if |seller.publicKey| > 0 && seller.publicKey != r.sellerSig.publicKey { return false; }
    if |buyer.publicKey| > 0 && buyer.publicKey != r.buyerSig.publicKey { return false; }
    if !IntentMatches(r.sellerSig.intent, q, seller.id) { return false; }
    if !IntentMatches(r.buyerSig.intent, q, buyer.id) { return false; }
    var now := Max(r.sellerNow, r.buyerNow);
    if now < r.sellerSig.intent.timestamp { return false; }
    if now - r.sellerSig.intent.timestamp > MAX_SIGNED_INTENT_AGE { return false; }
    return true;
  }

  method RequireDurableReplayGuard(seller: Node, buyer: Node, allowPeerShadow: bool) returns (ok: bool)
    ensures ok <==> Guarded(seller.State(), buyer.State(), seller.Marks(), buyer.Marks(), allowPeerShadow)
  {
    if seller.Store != null && buyer.Store != null { return true; }
    if seller.Store != null || buyer.Store != null { return allowPeerShadow; }
    return seller.AllowEphemeralReplayUnsafe && buyer.AllowEphemeralReplayUnsafe;
  }

  method RejectReplay(seller: Node, buyer: Node, id: TxID) returns (ok: bool)
    ensures ok <==> NotReplayed(seller.State(), buyer.State(), seller.Marks(), buyer.Marks(), id)
  {
    if id in seller.ExecutedTrades || id in buyer.ExecutedTrades { return false; }
    if seller.Store != null && seller.Store.HasExecutedTrade(id) { return false; }
    if buyer.Store != null && buyer.Store != seller.Store && buyer.Store.HasExecutedTrade(id) { return false; }
    return true;
  }

  /** Every check before the inventories are combined, in the order they are made. */
  method CheckSigned(seller: Node, buyer: Node, r: Request) returns (ok: bool)
    ensures ok <==> Permitted(seller.State(), buyer.State(), seller.Marks(), buyer.Marks(),
                              seller.Store == buyer.Store, r)
    ensures ok ==> seller.id == r.quote.seller && buyer.id == r.quote.buyer
    ensures ok ==> NotReplayed(seller.State(), buyer.State(), seller.Marks(), buyer.Marks(), AuthIdOf(r))
    ensures ok ==> (seller.Store != null && buyer.Store != null ==> seller.Store == buyer.Store)
  {
    ok := CheckAuthorized(seller, buyer, r);
    if !ok { return; }
    ok := RequireDurableReplayGuard(seller, buyer, r.allowPeerShadow);
    if !ok { return; }
    if !AcceptsQuote(seller.State(), r.quote, r.sellerAgrees) { return false; }
    if !AcceptsQuote(buyer.State(), r.quote, r.buyerAgrees) { return false; }
    if seller.Store != null && buyer.Store != null && seller.Store != buyer.Store { return false; }
    ok := RejectReplay(seller, buyer, AuthIdOf(r));
  }

  // ---- Persisting ----

  /** The store an execution persists to: execution rejects two different ones. */
  function StoreOf(seller: Node, buyer: Node): J.JSONStore?
    reads seller, buyer
  {
    if seller.Store != null then seller.Store else buyer.Store
  }

  /** The parties whose state goes into that store. */
  function Parties(seller: Node, buyer: Node, sellerBooks: Books, buyerBooks: Books): seq<S.Party>
    reads seller, buyer
  {
    (if seller.Store != null then [S.Party(seller.id, sellerBooks)] else [])
    + (if buyer.Store != null then [S.Party(buyer.id, buyerBooks)] else [])
  }

  /** At most this trade has been marked in between. */
  predicate MarksGrow(before: StoreView, after: StoreView, id: TxID) {
    after.Some? == before.Some? && (before.Some? ==> before.value <= after.value <= before.value + {id})
  }

  /** This trade has been marked in between, and no other. */
  predicate MarksTake(before: StoreView, after: StoreView, id: TxID) {
    after.Some? == before.Some? && (before.Some? ==> after.value == before.value + {id})
  }

  /** A persist call with at most one I/O error writes everything if it succeeds or if what failed was the
      executed marker; otherwise it leaves the targets as they were. */
  ghost predicate DiskAfter(before: F.FS, store: J.JSONStore, id: TxID, auth: AuthorizedTrade, parties: seq<S.Party>,
                            ok: bool)
    reads store
  {
    if ok || store.MarkerFailed() then S.Written(before, store.files, id, auth, parties)
    else F.Targets(store.files) == F.Targets(before)
  }

  /** The state files of the parties that have a store say what the parties hold and have recorded. */
  ghost predicate OnDisk(seller: Node, buyer: Node)
    reads seller, buyer, seller.Inventory, buyer.Inventory, seller.Store, buyer.Store
  {
    var store := StoreOf(seller, buyer);
    store != null ==> S.Agrees(store.files, Parties(seller, buyer, seller.Books(), buyer.Books()))
  }

  /** Files that agree with the nodes read back, for each party with a store, as what the party holds. */
  lemma OnDiskReads(seller: Node, buyer: Node, u: UnitID)
    requires OnDisk(seller, buyer)
    ensures var store := StoreOf(seller, buyer);
      && (seller.Store != null ==>
            S.ReadAmount(store.files, seller.id, u) == Some(NodeLaws.Balance(seller.State(), u)))
      && (buyer.Store != null ==>
            S.ReadAmount(store.files, buyer.id, u) == Some(NodeLaws.Balance(buyer.State(), u)))
  {
    hide S.ReadAmount, S.Holds;
    var store, parties := StoreOf(seller, buyer), Parties(seller, buyer, seller.Books(), buyer.Books());
    if seller.Store != null {
      assert parties[0] == S.Party(seller.id, seller.Books());
      S.FilesReadBack(store.files, seller.id, seller.Books(), u);
    }
    if buyer.Store != null {
      assert parties[|parties| - 1] == S.Party(buyer.id, buyer.Books());
      S.FilesReadBack(store.files, buyer.id, buyer.Books(), u);
    }
  }

  lemma PlanChangesFlow(s: NodeState, b: NodeState, sv: StoreView, bv: StoreView, same: bool, r: Request)
    requires PlanSigned(s, b, sv, bv, same, r).Go?
    ensures var plan := PlanSigned(s, b, sv, bv, same, r);
      plan.sellerBooks.flow != s.books.flow && plan.buyerBooks.flow != b.books.flow
  {
    hide Permitted, CombiningAborts, TradeValid, Swap, Recorded;
    var q, now := r.quote, r.sellerSig.intent.timestamp;
    NodeLaws.SideHoldings(s.books, b.books, q, now);
    NodeLaws.SwapAmounts(s.books.holdings, q.seller, q.sellUnit, q.sellAmount, q.buyUnit, q.buyAmount);
    var hs := Swap(s.books.holdings, q.seller, q.sellUnit, q.sellAmount, q.buyUnit, q.buyAmount).value;
    var hb := Swap(b.books.holdings, q.buyer, q.buyUnit, q.buyAmount, q.sellUnit, q.sellAmount).value;
    NodeLaws.RecordedEffect(s.books.(holdings := hs), q, now, q.sellUnit);
    NodeLaws.RecordedEffect(b.books.(holdings := hb), q, now, q.sellUnit);
  }

  /** All of it together: what a persist call with at most one I/O error does to the disk, and to its agreement
      with what the parties held before. */
  ghost predicate DiskOutcome(before: F.FS, faults: nat, store: J.JSONStore, id: TxID, auth: AuthorizedTrade,
                              held: seq<S.Party>, next: seq<S.Party>, ok: bool)
    reads store
  {
    && DiskAfter(before, store, id, auth, next, ok) && (faults == 0 ==> ok)
    && (S.Agrees(before, held) && FlowsDiffer(held, next) ==>
          (ok ==> S.Agrees(store.files, next)) && (!ok ==> (S.Agrees(store.files, held) <==> !store.MarkerFailed())))
  }

  predicate FlowsDiffer(held: seq<S.Party>, next: seq<S.Party>) {
    |next| == |held| > 0 && forall i :: 0 <= i < |next| ==>
      next[i].node == held[i].node && next[i].books.flow != held[i].books.flow
  }

  /** The files agree with the next books after a success. After a failure they agree with the old ones unless
      what failed was the executed marker. */
  lemma AgreementAfter(before: F.FS, store: J.JSONStore, id: TxID, auth: AuthorizedTrade, parties: seq<S.Party>,
                       next: seq<S.Party>, ok: bool)
    requires S.Agrees(before, parties) && FlowsDiffer(parties, next) && DiskAfter(before, store, id, auth, next, ok)
    ensures ok ==> S.Agrees(store.files, next)
    ensures !ok ==> (S.Agrees(store.files, parties) <==> !store.MarkerFailed())
  {
    hide S.Holds, J.RefusedMarker, S.TradeText;
    if ok || store.MarkerFailed() {
      assert S.Holds(store.files, next[0].node, next[0].books);
      if S.Agrees(store.files, parties) {
        assert S.Holds(store.files, parties[0].node, parties[0].books);
        S.OneFlow(store.files, next[0].node, next[0].books, parties[0].books);
      }
    } else {
      S.HoldsTargets(before, store.files, parties);
    }
  }

  /** Hands the trade and the states of one or two parties to a store, with whatever prices the parties print
      and whatever temporary names are free. */
  method PersistParties(store: J.JSONStore, id: TxID, auth: AuthorizedTrade, parties: seq<S.Party>,
                        ghost held: seq<S.Party>)
    returns (ok: bool)
    requires 1 <= |parties| <= 2 && (|parties| == 2 ==> parties[0].node != parties[1].node)
    modifies store
    ensures MarksGrow(Some(F.Evidence(old(store.files))), Some(F.Evidence(store.files)), id)
    ensures ok ==> F.Evidence(store.files) == F.Evidence(old(store.files)) + {id}
    ensures id !in F.Evidence(old(store.files)) && J.Faults(old(store.answers)) <= 1 ==>
      DiskOutcome(old(store.files), old(J.Faults(store.answers)), store, id, auth, held, parties, ok)
  {
    hide S.Written, S.TradeText, J.BatchOf, S.StatesOf, J.RefusedMarker;
    ghost var blank: seq<Bytes> := seq(|parties|, i => []);
    assert |blank| == |parties|;
    var prices: seq<Bytes> :| |prices| == |parties|;
    var nonce: nat := *;
    ok := store.PersistExecutedTrade(id, S.TradeText(auth), S.StatesOf(parties, prices), nonce);
    if id !in F.Evidence(old(store.files)) && J.Faults(old(store.answers)) <= 1 {
      if ok || store.MarkerFailed() { S.BatchWrites(old(store.files), store.files, id, auth, parties, prices); }
      if S.Agrees(old(store.files), held) && FlowsDiffer(held, parties) {
        AgreementAfter(old(store.files), store, id, auth, held, parties, ok);
      }
    }
  }

  /** Persists with the store of either party, once. */
  method PersistSignedTrade(seller: Node, buyer: Node, id: TxID, auth: AuthorizedTrade, nextSeller: Node,
                            nextBuyer: Node)
    returns (ok: bool)
    requires seller.Store != null && buyer.Store != null ==> seller.Store == buyer.Store
    requires seller.id != buyer.id
    modifies seller.Store, buyer.Store
    ensures StoreOf(seller, buyer) == null ==> ok
    ensures MarksGrow(old(seller.Marks()), seller.Marks(), id) && MarksGrow(old(buyer.Marks()), buyer.Marks(), id)
    ensures ok ==> MarksTake(old(seller.Marks()), seller.Marks(), id)
    ensures ok ==> MarksTake(old(buyer.Marks()), buyer.Marks(), id)
    ensures var store := StoreOf(seller, buyer);
      store != null && id !in F.Evidence(old(store.files)) && J.Faults(old(store.answers)) <= 1 ==>
        DiskOutcome(old(store.files), old(J.Faults(store.answers)), store, id, auth,
                    Parties(seller, buyer, seller.Books(), buyer.Books()),
                    Parties(seller, buyer, nextSeller.Books(), nextBuyer.Books()), ok)
  {
    hide DiskOutcome, F.Evidence;
    var first, second := S.Party(seller.id, nextSeller.Books()), S.Party(buyer.id, nextBuyer.Books());
    ghost var one, two := S.Party(seller.id, seller.Books()), S.Party(buyer.id, buyer.Books());
    if seller.Store != null && buyer.Store == seller.Store {
      assert [first, second] == [first] + [second] && [one, two] == [one] + [two];
      ok := PersistParties(seller.Store, id, auth, [first, second], [one, two]);
      return;
    }
    ok := true;
    if seller.Store != null {
      assert [first] == [first] + [] && [one] == [one] + [];
      ok := PersistParties(seller.Store, id, auth, [first], [one]);
      if !ok { return; }
    }
    if buyer.Store != null && buyer.Store != seller.Store {
      assert [second] == [] + [second] && [two] == [] + [two];
      ok := PersistParties(buyer.Store, id, auth, [second], [two]);
    }
  }

  /** Whether a trade is valid on the inventories of its two parties; aborts where combining them does. */
  method CheckCombined(seller: Node, buyer: Node, tx: TradeTx) returns (outcome: Outcome)
    requires tx.partyA == seller.id && tx.partyB == buyer.id
    ensures outcome == if CombiningAborts(seller.State(), buyer.State()) then Aborted
                       else if ValidTrade(tx, Combined(seller.State(), buyer.State())) then Done else Failed
    ensures outcome.Done? ==> seller.id != buyer.id
  {
    var combined := CombinedInventory(seller, buyer);
    if combined.None? { return Aborted; }
    ValidTradeByCells(tx, combined.value.Holdings, Combined(seller.State(), buyer.State()));
    var ok := ValidateTradeTx(tx, combined.value);
    return if ok then Done else Failed;
  }

  /** The checks and the preparation: what is left is to reserve, persist and commit. */
  method PrepareSigned(seller: Node, buyer: Node, r: Request)
    returns (outcome: Outcome, nextSeller: Node?, nextBuyer: Node?, ghost plan: Plan)
    ensures plan == PlanSigned(seller.State(), buyer.State(), seller.Marks(), buyer.Marks(), seller.Store == buyer.Store, r)
    ensures plan.Stop? ==> outcome == plan.outcome && !outcome.Done?
    ensures plan.Go? ==> outcome.Done? && nextSeller != null && nextBuyer != null && fresh(nextSeller) && fresh(nextBuyer)
    ensures plan.Go? ==> plan == Go(nextSeller.Books(), nextBuyer.Books())
    ensures plan.Go? ==> seller.id != buyer.id && (seller.Store != null && buyer.Store != null ==> seller.Store == buyer.Store)
    ensures plan.Go? ==> NotReplayed(seller.State(), buyer.State(), seller.Marks(), buyer.Marks(), AuthIdOf(r))
  {
    hide Permitted, AuthIdOf, ValidTrade, CombiningAborts, SellerSide, BuyerSide, NotReplayed;
    nextSeller, nextBuyer := null, null;
    plan := PlanSigned(seller.State(), buyer.State(), seller.Marks(), buyer.Marks(), seller.Store == buyer.Store, r);
    var ok := CheckSigned(seller, buyer, r);
    if !ok { return Failed, null, null, plan; }
    outcome := CheckCombined(seller, buyer, AuthOf(r).tx);
    if !outcome.Done? { return outcome, null, null, plan; }
    ok, nextSeller, nextBuyer := PreparedTradeState(seller, buyer, r.quote, r.sellerSig.intent.timestamp);
    outcome := if ok then Done else Failed;
  }

  method ReserveInMemoryReplay(seller: Node, buyer: Node, id: TxID)
    modifies seller`ExecutedTrades, buyer`ExecutedTrades
    ensures seller.ExecutedTrades == old(seller.ExecutedTrades) + {id}
    ensures buyer.ExecutedTrades == old(buyer.ExecutedTrades) + {id}
  {
    seller.ExecutedTrades := seller.ExecutedTrades + {id};
    buyer.ExecutedTrades := buyer.ExecutedTrades + {id};
  }

  method RollbackInMemoryReplay(seller: Node, buyer: Node, id: TxID)
    modifies seller`ExecutedTrades, buyer`ExecutedTrades
    ensures seller.ExecutedTrades == old(seller.ExecutedTrades) - {id}
    ensures buyer.ExecutedTrades == old(buyer.ExecutedTrades) - {id}
  {
    seller.ExecutedTrades := seller.ExecutedTrades - {id};
    buyer.ExecutedTrades := buyer.ExecutedTrades - {id};
  }

  /** Reserves the trade in memory, persists it, and commits the prepared books; a failed persist call
      takes the reservation back. */
  method ReservePersistCommit(seller: Node, buyer: Node, id: TxID, auth: AuthorizedTrade, nextSeller: Node,
                              nextBuyer: Node)
    returns (stored: bool)
    requires seller != buyer && {nextSeller, nextBuyer} !! {seller, buyer} && seller.id != buyer.id
    requires NotReplayed(seller.State(), buyer.State(), seller.Marks(), buyer.Marks(), id)
    requires seller.Store != null && buyer.Store != null ==> seller.Store == buyer.Store
    modifies seller, buyer, seller.Store, buyer.Store
    ensures seller.Store == old(seller.Store) && buyer.Store == old(buyer.Store)
    ensures StoreOf(seller, buyer) == null ==> stored
    ensures MarksGrow(old(seller.Marks()), seller.Marks(), id) && MarksGrow(old(buyer.Marks()), buyer.Marks(), id)
    ensures stored ==> seller.State() == Committed(old(seller.State()), old(nextSeller.Books()), id)
    ensures stored ==> buyer.State() == Committed(old(buyer.State()), old(nextBuyer.Books()), id)
    ensures !stored ==> seller.State() == old(seller.State()) && buyer.State() == old(buyer.State())
    ensures stored ==> MarksTake(old(seller.Marks()), seller.Marks(), id)
    ensures stored ==> MarksTake(old(buyer.Marks()), buyer.Marks(), id)
    ensures var store := StoreOf(seller, buyer);
      store != null && J.Faults(old(store.answers)) <= 1 ==>
        DiskOutcome(old(store.files), old(J.Faults(store.answers)), store, id, auth,
                    old(Parties(seller, buyer, seller.Books(), buyer.Books())),
                    old(Parties(seller, buyer, nextSeller.Books(), nextBuyer.Books())), stored)
  {
    hide DiskOutcome, F.Evidence, MarksTake;
    ReserveInMemoryReplay(seller, buyer, id);
    stored := PersistSignedTrade(seller, buyer, id, auth, nextSeller, nextBuyer);
    if stored {
      CommitBoth(seller, buyer, nextSeller, nextBuyer);
    } else {
      RollbackInMemoryReplay(seller, buyer, id);
      assert seller.ExecutedTrades == old(seller.ExecutedTrades) && buyer.ExecutedTrades == old(buyer.ExecutedTrades);
    }
  }

  /** With at most one I/O error the disk comes out as the plan and the persist call say, and files that agreed
      with the nodes before still do exactly if the call succeeded or what failed was not the executed marker. */
  twostate predicate DiskFollows(seller: Node, buyer: Node, id: TxID, auth: AuthorizedTrade, plan: Plan, stored: bool)
    requires plan.Go? && seller.Store == old(seller.Store) && buyer.Store == old(buyer.Store)
    reads seller, buyer, seller.Inventory, buyer.Inventory, seller.Store, buyer.Store
  {
    var store := old(StoreOf(seller, buyer));
    store != null && old(J.Faults(store.answers)) <= 1 ==>
      && DiskOutcome(old(store.files), old(J.Faults(store.answers)), store, id, auth,
                     old(Parties(seller, buyer, seller.Books(), buyer.Books())),
                     Parties(seller, buyer, plan.sellerBooks, plan.buyerBooks), stored)
      && (old(OnDisk(seller, buyer)) ==> (OnDisk(seller, buyer) <==> stored || !store.MarkerFailed()))
  }

  /** Executes a signed trade. stored says whether the persist call, if it came to one, succeeded. */
  method ExecuteSignedTrade(seller: Node, buyer: Node, r: Request)
    returns (outcome: Outcome, tx: Option<TradeTx>, stored: bool, ghost plan: Plan)
    modifies seller, buyer, seller.Store, buyer.Store
    ensures plan == PlanSigned(old(seller.State()), old(buyer.State()), old(seller.Marks()), old(buyer.Marks()),
                               old(seller.Store == buyer.Store), r)
    ensures Execution(outcome, seller.State(), buyer.State())
         == Finish(plan, old(seller.State()), old(buyer.State()), old(seller.Store != null || buyer.Store != null),
                   AuthIdOf(r), stored)
    ensures tx == if outcome.Done? then Some(AuthOf(r).tx) else None
    ensures !outcome.Done? ==> seller.State() == old(seller.State()) && buyer.State() == old(buyer.State())
    ensures seller.Store == old(seller.Store) && buyer.Store == old(buyer.Store)
    ensures plan.Stop? && seller.Store != null ==> seller.Store.files == old(seller.Store.files)
    ensures plan.Stop? && buyer.Store != null ==> buyer.Store.files == old(buyer.Store.files)
    ensures MarksGrow(old(seller.Marks()), seller.Marks(), AuthIdOf(r))
    ensures MarksGrow(old(buyer.Marks()), buyer.Marks(), AuthIdOf(r))
    ensures outcome.Done? ==> MarksTake(old(seller.Marks()), seller.Marks(), AuthIdOf(r))
    ensures outcome.Done? ==> MarksTake(old(buyer.Marks()), buyer.Marks(), AuthIdOf(r))
    ensures plan.Go? ==> DiskFollows(seller, buyer, AuthIdOf(r), AuthOf(r), plan, stored)
  {
    hide PlanSigned, AuthIdOf, AuthOf, NotReplayed, DiskAfter, F.Evidence, S.Agrees;
    var nextSeller, nextBuyer;
    outcome, nextSeller, nextBuyer, plan := PrepareSigned(seller, buyer, r);
    if !outcome.Done? { return outcome, None, true, plan; }
    PlanChangesFlow(seller.State(), buyer.State(), seller.Marks(), buyer.Marks(), seller.Store == buyer.Store, r);
    stored := ReservePersistCommit(seller, buyer, AuthIdOf(r), AuthOf(r), nextSeller, nextBuyer);
    if stored {
      return Done, Some(AuthOf(r).tx), true, plan;
    } else {
      return Failed, None, false, plan;
    }
  }

  method PrepareDirect(seller: Node, buyer: Node, q: Quote, now: int64, sellerAgrees: bool, buyerAgrees: bool)
    returns (outcome: Outcome, nextSeller: Node?, nextBuyer: Node?, ghost plan: Plan)
    ensures plan == PlanDirect(seller.State(), buyer.State(), q, now, sellerAgrees, buyerAgrees)
    ensures plan.Stop? ==> outcome == plan.outcome && !outcome.Done?
    ensures plan.Go? ==> outcome.Done? && nextSeller != null && nextBuyer != null && fresh(nextSeller) && fresh(nextBuyer)
    ensures plan.Go? ==> plan == Go(nextSeller.Books(), nextBuyer.Books()) && seller.id != buyer.id
  {
    nextSeller, nextBuyer := null, null;
    plan := PlanDirect(seller.State(), buyer.State(), q, now, sellerAgrees, buyerAgrees);
    if !q.executable { return Failed, null, null, plan; }
    if seller.id != q.seller || buyer.id != q.buyer { return Failed, null, null, plan; }
    if !AcceptsQuote(seller.State(), q, sellerAgrees) { return Failed, null, null, plan; }
    if !AcceptsQuote(buyer.State(), q, buyerAgrees) { return Failed, null, null, plan; }
    outcome := CheckCombined(seller, buyer, BuildTradeTx(q, now));
    if !outcome.Done? { return outcome, null, null, plan; }
    var ok;
    ok, nextSeller, nextBuyer := PreparedTradeState(seller, buyer, q, now);
    outcome := if ok then Done else Failed;
  }

  method CommitBoth(seller: Node, buyer: Node, nextSeller: Node, nextBuyer: Node)
    requires seller != buyer && {nextSeller, nextBuyer} !! {seller, buyer}
    modifies seller, buyer
    ensures seller.State() == old(seller.State()).(books := old(nextSeller.Books()))
    ensures buyer.State() == old(buyer.State()).(books := old(nextBuyer.Books()))
    ensures seller.Store == old(seller.Store) && buyer.Store == old(buyer.Store)
  {
    seller.CommitPreparedState(nextSeller);
    buyer.CommitPreparedState(nextBuyer);
  }

  /** Executes a quote both nodes accept on the spot. */
  method ExecuteTrade(seller: Node, buyer: Node, q: Quote, now: int64, sellerAgrees: bool, buyerAgrees: bool)
    returns (outcome: Outcome, tx: Option<TradeTx>, ghost plan: Plan)
    modifies seller, buyer
    ensures plan == PlanDirect(old(seller.State()), old(buyer.State()), q, now, sellerAgrees, buyerAgrees)
    ensures Execution(outcome, seller.State(), buyer.State()) == FinishDirect(plan, old(seller.State()), old(buyer.State()))
    ensures tx == if outcome.Done? then Some(BuildTradeTx(q, now)) else None
  {
    hide PlanDirect;
    var nextSeller, nextBuyer;
    outcome, nextSeller, nextBuyer, plan := PrepareDirect(seller, buyer, q, now, sellerAgrees, buyerAgrees);
    if !outcome.Done? { return outcome, None, plan; }
    CommitBoth(seller, buyer, nextSeller, nextBuyer);
    return Done, Some(BuildTradeTx(q, now)), plan;
  }
}
