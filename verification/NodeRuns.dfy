/** Runs of trades among any number of nodes and stores, with failing stores and fresh node objects. */
module NodeRuns {
  import opened Base
  import opened Model
  import opened Inventory
  import opened NodeStates
  import opened NodeLaws

  /** A node object and the store it uses, if any. */
  datatype Slot = Slot(state: NodeState, store: Option<nat>)

  /** All node objects, and for every store the trades it has marked as executed. */
  datatype World = World(nodes: seq<Slot>, stores: seq<set<TxID>>)

  /** One thing that happens. A persist call that fails may still leave the trade marked. Join brings in
      a node object: a peer shadow, or a fresh object for a node and store that are already there. */
  datatype Event =
    | Signed(i: nat, j: nat, r: Request, persisted: bool, marked: bool)
    | Direct(i: nat, j: nat, q: Quote, now: int64, sellerAgrees: bool, buyerAgrees: bool)
    | Join(slot: Slot)

  predicate Wired(w: World) {
    forall k :: 0 <= k < |w.nodes| ==> w.nodes[k].store.Some? ==> w.nodes[k].store.value < |w.stores|
  }

  predicate Possible(w: World, e: Event) {
    match e
    case Join(slot) => slot.state.executed == {} && (slot.store.Some? ==> slot.store.value < |w.stores|)
    case _ => e.i < |w.nodes| && e.j < |w.nodes|
  }

  function View(w: World, k: nat): StoreView
    requires Wired(w) && k < |w.nodes|
  {
    match w.nodes[k].store
    case None => None
    case Some(n) => Some(w.stores[n])
  }

  ghost function Outcomes(w: World, e: Event): Execution
    requires Wired(w) && Possible(w, e) && !e.Join?
  {
    var s, b := w.nodes[e.i], w.nodes[e.j];
    if e.Signed? then
      Execute(s.state, b.state, View(w, e.i), View(w, e.j), s.store == b.store, e.r, e.persisted)
    else ExecuteDirect(s.state, b.state, e.q, e.now, e.sellerAgrees, e.buyerAgrees)
  }

  function Update(nodes: seq<Slot>, i: nat, j: nat, s: NodeState, b: NodeState): (r: seq<Slot>)
    requires i < |nodes| && j < |nodes|
    ensures |r| == |nodes|
  {
    nodes[i := nodes[i].(state := s)][j := nodes[j].(state := b)]
  }

  /** The store a signed execution persists to. */
  function StoreOf(w: World, e: Event): Option<nat>
    requires Possible(w, e) && e.Signed?
  {
    if w.nodes[e.i].store.Some? then w.nodes[e.i].store else w.nodes[e.j].store
  }

  ghost predicate Stores(w: World, e: Event)
    requires Wired(w) && Possible(w, e) && e.Signed?
  {
    ReachesStore(w.nodes[e.i].state, w.nodes[e.j].state, View(w, e.i), View(w, e.j),
                 w.nodes[e.i].store == w.nodes[e.j].store, e.r)
  }

  function Mark(stores: seq<set<TxID>>, n: Option<nat>, id: TxID): (r: seq<set<TxID>>)
    ensures |r| == |stores|
  {
    if n.Some? && n.value < |stores| then stores[n.value := stores[n.value] + {id}] else stores
  }

  ghost function NextStores(w: World, e: Event): (r: seq<set<TxID>>)
    requires Wired(w) && Possible(w, e)
    ensures |r| == |w.stores|
  {
    if e.Signed? && Stores(w, e) && (e.persisted || e.marked) then Mark(w.stores, StoreOf(w, e), AuthIdOf(e.r))
    else w.stores
  }

  ghost function Next(w: World, e: Event): World
    requires Wired(w) && Possible(w, e)
  {
    if e.Join? then World(w.nodes + [e.slot], w.stores)
    else
      var x := Outcomes(w, e);
      World(if x.outcome.Done? then Update(w.nodes, e.i, e.j, x.seller, x.buyer) else w.nodes, NextStores(w, e))
  }

  ghost predicate IsRun(worlds: seq<World>, events: seq<Event>) {
    && |worlds| == |events| + 1
    && Wired(worlds[0])
    && forall k :: 0 <= k < |events| ==> Takes(worlds[k], events[k], worlds[k + 1])
  }

  ghost predicate Takes(w: World, e: Event, w': World) {
    Wired(w) && Wired(w') && Possible(w, e) && w' == Next(w, e)
  }

  // ---- Conservation ----

  /** What all node objects hold of a unit for themselves. */
  function Circulating(nodes: seq<Slot>, u: UnitID): int {
    if nodes == [] then 0
    else Circulating(nodes[..|nodes| - 1], u) + Balance(nodes[|nodes| - 1].state, u)
  }

  lemma {:induction false} CirculatingUpdate(nodes: seq<Slot>, k: nat, s: NodeState, u: UnitID)
    requires k < |nodes|
    ensures Circulating(nodes[k := nodes[k].(state := s)], u)
         == Circulating(nodes, u) - Balance(nodes[k].state, u) + Balance(s, u)
    decreases |nodes|
  {
    var n := |nodes| - 1;
    var after := nodes[k := nodes[k].(state := s)];
    if k == n {
      assert after[..n] == nodes[..n];
    } else {
      assert after[..n] == nodes[..n][k := nodes[k].(state := s)];
      CirculatingUpdate(nodes[..n], k, s, u);
    }
  }

  lemma DirectMeans(s: NodeState, b: NodeState, q: Quote, now: int64, sa: bool, ba: bool)
    requires ExecuteDirect(s, b, q, now, sa, ba).outcome.Done?
    ensures var e := ExecuteDirect(s, b, q, now, sa, ba);
      && s.id == q.seller && b.id == q.buyer && s.id != b.id
      && SellerSide(s.books, q, now).Some? && BuyerSide(b.books, q, now).Some?
      && e.seller == s.(books := SellerSide(s.books, q, now).value)
      && e.buyer == b.(books := BuyerSide(b.books, q, now).value)
  {}

  /** Whatever the way of executing, a trade that is done changes two different nodes and conserves what
      they hold together. */
  lemma StepConserves(w: World, e: Event, u: UnitID)
    requires Wired(w) && Possible(w, e) && !e.Join? && Outcomes(w, e).outcome.Done?
    ensures var x, s, b := Outcomes(w, e), w.nodes[e.i].state, w.nodes[e.j].state;
      && e.i != e.j
      && Balance(x.seller, u) + Balance(x.buyer, u) == Balance(s, u) + Balance(b, u)
      && (Balance(s, u) >= 0 ==> Balance(x.seller, u) >= 0) && (Balance(b, u) >= 0 ==> Balance(x.buyer, u) >= 0)
  {
    var s, b := w.nodes[e.i], w.nodes[e.j];
    if e.Signed? {
      DoneConserves(s.state, b.state, View(w, e.i), View(w, e.j), s.store == b.store, e.r, e.persisted, u);
      DoneMeans(s.state, b.state, View(w, e.i), View(w, e.j), s.store == b.store, e.r, e.persisted);
    } else {
      DirectMeans(s.state, b.state, e.q, e.now, e.sellerAgrees, e.buyerAgrees);
      SidesConserve(s.state.books, b.state.books, e.q, e.now, u);
    }
  }

  ghost predicate NonNegative(nodes: seq<Slot>) {
    forall k, u :: 0 <= k < |nodes| ==> Balance(nodes[k].state, u) >= 0
  }

  lemma TradeConserves(w: World, e: Event, u: UnitID)
    requires Wired(w) && Possible(w, e) && !e.Join?
    ensures Circulating(Next(w, e).nodes, u) == Circulating(w.nodes, u)
  {
    var x := Outcomes(w, e);
    if x.outcome.Done? {
      StepConserves(w, e, u);
      var mid := w.nodes[e.i := w.nodes[e.i].(state := x.seller)];
      CirculatingUpdate(w.nodes, e.i, x.seller, u);
      CirculatingUpdate(mid, e.j, x.buyer, u);
    }
  }

  lemma UpdateNonNegative(nodes: seq<Slot>, i: nat, j: nat, s: NodeState, b: NodeState)
    requires i < |nodes| && j < |nodes| && NonNegative(nodes)
    requires forall u :: Balance(s, u) >= 0 && Balance(b, u) >= 0
    ensures NonNegative(Update(nodes, i, j, s, b))
  {}

  lemma TradeStaysNonNegative(w: World, e: Event)
    requires Wired(w) && Possible(w, e) && !e.Join? && NonNegative(w.nodes)
    ensures NonNegative(Next(w, e).nodes)
  {
    var x := Outcomes(w, e);
    if x.outcome.Done? {
      forall u ensures Balance(x.seller, u) >= 0 && Balance(x.buyer, u) >= 0 {
        StepConserves(w, e, u);
        assert Balance(w.nodes[e.i].state, u) >= 0 && Balance(w.nodes[e.j].state, u) >= 0;
      }
      UpdateNonNegative(w.nodes, e.i, e.j, x.seller, x.buyer);
    }
  }

  /** Every run of trades among a fixed set of nodes conserves every unit and keeps every balance from
      zero to the largest 64-bit amount. */
  lemma {:induction false} RunConserves(worlds: seq<World>, events: seq<Event>, u: UnitID)
    requires IsRun(worlds, events) && forall k :: 0 <= k < |events| ==> !events[k].Join?
    requires NonNegative(worlds[0].nodes)
    ensures Circulating(worlds[|events|].nodes, u) == Circulating(worlds[0].nodes, u)
    ensures forall k, v :: 0 <= k < |worlds[|events|].nodes| ==>
      0 <= Balance(worlds[|events|].nodes[k].state, v) <= MAX_INT64
    ensures NonNegative(worlds[|events|].nodes)
    decreases |events|
  {
    if |events| > 0 {
      var n := |events| - 1;
      assert IsRun(worlds[..n + 1], events[..n]);
      RunConserves(worlds[..n + 1], events[..n], u);
      assert Takes(worlds[n], events[n], worlds[n + 1]);
      TradeConserves(worlds[n], events[n], u);
      TradeStaysNonNegative(worlds[n], events[n]);
    }
  }

  // ---- Ledgers ----

  ghost predicate LedgersAgree(nodes: seq<Slot>) {
    forall k :: 0 <= k < |nodes| ==> Ledger(nodes[k].state.books)
  }

  lemma OutcomeKeepsLedger(w: World, e: Event)
    requires Wired(w) && Possible(w, e) && !e.Join? && Outcomes(w, e).outcome.Done?
    requires Ledger(w.nodes[e.i].state.books) && Ledger(w.nodes[e.j].state.books)
    ensures Ledger(Outcomes(w, e).seller.books) && Ledger(Outcomes(w, e).buyer.books)
  {
    var s, b := w.nodes[e.i], w.nodes[e.j];
    if e.Signed? {
      DoneKeepsLedger(s.state, b.state, View(w, e.i), View(w, e.j), s.store == b.store, e.r, e.persisted);
    } else {
      DirectMeans(s.state, b.state, e.q, e.now, e.sellerAgrees, e.buyerAgrees);
      SidesKeepLedger(s.state.books, b.state.books, e.q, e.now);
    }
  }

  lemma UpdateKeepsLedgers(nodes: seq<Slot>, i: nat, j: nat, s: NodeState, b: NodeState)
    requires i < |nodes| && j < |nodes| && LedgersAgree(nodes) && Ledger(s.books) && Ledger(b.books)
    ensures LedgersAgree(Update(nodes, i, j, s, b))
  {}

  lemma StepKeepsLedgers(w: World, e: Event)
    requires Wired(w) && Possible(w, e) && LedgersAgree(w.nodes) && (e.Join? ==> Ledger(e.slot.state.books))
    ensures LedgersAgree(Next(w, e).nodes)
  {
    if !e.Join? {
      var x := Outcomes(w, e);
      if x.outcome.Done? {
        OutcomeKeepsLedger(w, e);
        UpdateKeepsLedgers(w.nodes, e.i, e.j, x.seller, x.buyer);
      }
    }
  }

  /** Where every ledger agrees with itself at the start, and that of every node that joins, all of them do in
      every reachable state. */
  lemma {:induction false} RunKeepsLedgers(worlds: seq<World>, events: seq<Event>)
    requires IsRun(worlds, events) && LedgersAgree(worlds[0].nodes)
    requires forall k :: 0 <= k < |events| && events[k].Join? ==> Ledger(events[k].slot.state.books)
    ensures LedgersAgree(worlds[|events|].nodes)
    decreases |events|
  {
    if |events| > 0 {
      var n := |events| - 1;
      assert IsRun(worlds[..n + 1], events[..n]);
      RunKeepsLedgers(worlds[..n + 1], events[..n]);
      assert Takes(worlds[n], events[n], worlds[n + 1]);
      StepKeepsLedgers(worlds[n], events[n]);
    }
  }

  /** A node object that has recorded nothing yet. */
  predicate FreshBooks(b: Books) {
    b == Books(b.holdings, map[], map[], map[], map[])
  }

  /** Among nodes that began fresh, whenever they joined, every ledger agrees with itself. */
  lemma FreshRunKeepsLedgers(worlds: seq<World>, events: seq<Event>)
    requires IsRun(worlds, events)
    requires forall k :: 0 <= k < |worlds[0].nodes| ==> FreshBooks(worlds[0].nodes[k].state.books)
    requires forall k :: 0 <= k < |events| && events[k].Join? ==> FreshBooks(events[k].slot.state.books)
    ensures LedgersAgree(worlds[|events|].nodes)
  {
    hide Ledger;
    forall k | 0 <= k < |worlds[0].nodes| ensures Ledger(worlds[0].nodes[k].state.books) {
      FreshLedger(worlds[0].nodes[k].state.books.holdings);
    }
    forall k | 0 <= k < |events| && events[k].Join? ensures Ledger(events[k].slot.state.books) {
      FreshLedger(events[k].slot.state.books.holdings);
    }
    RunKeepsLedgers(worlds, events);
  }

  lemma StepGrows(w: World, e: Event, k: nat, u: UnitID)
    requires Wired(w) && Possible(w, e) && k < |w.nodes|
    ensures k < |Next(w, e).nodes| && GrowTogether(w.nodes[k].state.books, Next(w, e).nodes[k].state.books, u)
  {
    hide GrowTogether, Execute, ExecuteDirect;
    assert GrowTogether(w.nodes[k].state.books, w.nodes[k].state.books, u) by { NothingGrows(w.nodes[k].state.books, u); }
    if !e.Join? && Outcomes(w, e).outcome.Done? { OutcomeGrows(w, e, u); }
  }

  lemma NothingGrows(b: Books, u: UnitID)
    ensures GrowTogether(b, b, u)
  {}

  lemma OutcomeGrows(w: World, e: Event, u: UnitID)
    requires Wired(w) && Possible(w, e) && !e.Join? && Outcomes(w, e).outcome.Done?
    ensures GrowTogether(w.nodes[e.i].state.books, Outcomes(w, e).seller.books, u)
    ensures GrowTogether(w.nodes[e.j].state.books, Outcomes(w, e).buyer.books, u)
  {
    hide GrowTogether, Execute;
    var s, b := w.nodes[e.i], w.nodes[e.j];
    if e.Signed? {
      DoneGrows(s.state, b.state, View(w, e.i), View(w, e.j), s.store == b.store, e.r, e.persisted, u);
    } else {
      DirectMeans(s.state, b.state, e.q, e.now, e.sellerAgrees, e.buyerAgrees);
      SidesGrow(s.state.books, b.state.books, e.q, e.now, u);
    }
  }

  lemma GrowOn(a: Books, b: Books, c: Books, u: UnitID)
    requires GrowTogether(a, b, u) && GrowTogether(b, c, u)
    ensures GrowTogether(a, c, u)
  {}

  /** From any start, reopened nodes included: over any run the trade flow of a node grows by exactly its settled
      volume and by the volumes of its history, and its payment flow by no more. */
  lemma {:induction false} RunGrowsTogether(worlds: seq<World>, events: seq<Event>, k: nat, u: UnitID)
    requires IsRun(worlds, events) && k < |worlds[0].nodes|
    ensures k < |worlds[|events|].nodes|
    ensures GrowTogether(worlds[0].nodes[k].state.books, worlds[|events|].nodes[k].state.books, u)
    decreases |events|
  {
    hide GrowTogether, Next, Possible, Wired;
    if |events| == 0 {
      NothingGrows(worlds[0].nodes[k].state.books, u);
    } else {
      var n := |events| - 1;
      assert IsRun(worlds[..n + 1], events[..n]);
      RunGrowsTogether(worlds[..n + 1], events[..n], k, u);
      assert Takes(worlds[n], events[n], worlds[n + 1]);
      StepGrows(worlds[n], events[n], k, u);
      GrowOn(worlds[0].nodes[k].state.books, worlds[n].nodes[k].state.books, worlds[n + 1].nodes[k].state.books, u);
    }
  }

  // ---- At most once ----

  /** The event executes the trade with this identifier. */
  ghost predicate Commits(w: World, e: Event, id: TxID) {
    Wired(w) && Possible(w, e) && e.Signed? && AuthIdOf(e.r) == id && Outcomes(w, e).outcome.Done?
  }

  /** Later worlds have every node object of earlier ones, with at least the trades it had executed, and
      every store with at least its marks. */
  ghost predicate Remembers(w: World, w': World) {
    && |w.nodes| <= |w'.nodes| && |w.stores| == |w'.stores|
    && (forall k :: 0 <= k < |w.nodes| ==>
          w'.nodes[k].store == w.nodes[k].store && w.nodes[k].state.executed <= w'.nodes[k].state.executed)
    && (forall n :: 0 <= n < |w.stores| ==> w.stores[n] <= w'.stores[n])
  }

  lemma OutcomeExecuted(w: World, e: Event)
    requires Wired(w) && Possible(w, e) && !e.Join? && Outcomes(w, e).outcome.Done?
    ensures w.nodes[e.i].state.executed <= Outcomes(w, e).seller.executed
    ensures w.nodes[e.j].state.executed <= Outcomes(w, e).buyer.executed
    ensures e.i != e.j
  {
    var s, b := w.nodes[e.i], w.nodes[e.j];
    if e.Signed? {
      DoneMeans(s.state, b.state, View(w, e.i), View(w, e.j), s.store == b.store, e.r, e.persisted);
    } else {
      DirectMeans(s.state, b.state, e.q, e.now, e.sellerAgrees, e.buyerAgrees);
    }
  }

  lemma UpdateRemembers(w: World, i: nat, j: nat, s: NodeState, b: NodeState, stores: seq<set<TxID>>)
    requires i < |w.nodes| && j < |w.nodes| && i != j && |stores| == |w.stores|
    requires w.nodes[i].state.executed <= s.executed && w.nodes[j].state.executed <= b.executed
    requires forall n :: 0 <= n < |w.stores| ==> w.stores[n] <= stores[n]
    ensures Remembers(w, World(Update(w.nodes, i, j, s, b), stores))
  {}

  lemma StoresGrow(w: World, e: Event)
    requires Wired(w) && Possible(w, e)
    ensures forall n :: 0 <= n < |w.stores| ==> w.stores[n] <= NextStores(w, e)[n]
  {}

  lemma SameNodesRemember(w: World, stores: seq<set<TxID>>, nodes: seq<Slot>)
    requires |stores| == |w.stores| && w.nodes <= nodes
    requires forall n :: 0 <= n < |w.stores| ==> w.stores[n] <= stores[n]
    ensures Remembers(w, World(nodes, stores))
  {}

  lemma StepRemembers(w: World, e: Event)
    requires Wired(w) && Possible(w, e)
    ensures Remembers(w, Next(w, e))
  {
    var stores := NextStores(w, e);
    StoresGrow(w, e);
    if e.Join? {
      SameNodesRemember(w, stores, w.nodes + [e.slot]);
    } else {
      var x := Outcomes(w, e);
      if x.outcome.Done? {
        OutcomeExecuted(w, e);
        UpdateRemembers(w, e.i, e.j, x.seller, x.buyer, stores);
      } else {
        SameNodesRemember(w, stores, w.nodes);
      }
    }
  }

  lemma {:induction false} RunRemembers(worlds: seq<World>, events: seq<Event>, a: nat, c: nat)
    requires IsRun(worlds, events) && a <= c <= |events|
    ensures Remembers(worlds[a], worlds[c])
    decreases c - a
  {
    if a < c {
      assert Takes(worlds[a], events[a], worlds[a + 1]);
      StepRemembers(worlds[a], events[a]);
      RunRemembers(worlds, events, a + 1, c);
    }
  }

  predicate Slots(w: World, i: nat, j: nat) {
    Wired(w) && i < |w.nodes| && j < |w.nodes|
  }

  /** Both node objects, and whatever stores they use, know the trade as executed. */
  predicate KnownTo(w: World, i: nat, j: nat, id: TxID)
    requires Slots(w, i, j)
  {
    && id in w.nodes[i].state.executed && id in w.nodes[j].state.executed
    && Marked(View(w, i), id) == w.nodes[i].store.Some? && Marked(View(w, j), id) == w.nodes[j].store.Some?
  }

  predicate UnknownTo(w: World, i: nat, j: nat, id: TxID)
    requires Slots(w, i, j)
  {
    && id !in w.nodes[i].state.executed && id !in w.nodes[j].state.executed
    && !Marked(View(w, i), id) && !Marked(View(w, j), id)
  }

  lemma CommitNeedsAbsence(w: World, e: Event, id: TxID)
    requires Commits(w, e, id)
    ensures UnknownTo(w, e.i, e.j, id)
  {
    var s, b := w.nodes[e.i], w.nodes[e.j];
    DoneMeans(s.state, b.state, View(w, e.i), View(w, e.j), s.store == b.store, e.r, e.persisted);
  }

  /** A trade that is done with a store on either side got there through a successful persist call. */
  lemma CommitPersists(s: NodeState, b: NodeState, sv: StoreView, bv: StoreView, same: bool, r: Request,
                       persisted: bool)
    requires Execute(s, b, sv, bv, same, r, persisted).outcome.Done?
    ensures sv.Some? || bv.Some? ==> persisted && ReachesStore(s, b, sv, bv, same, r)
    ensures sv.Some? && bv.Some? ==> same
  {}

  lemma MarkedStores(w: World, e: Event, id: TxID)
    requires Commits(w, e, id)
    ensures w.nodes[e.i].store.Some? ==> id in NextStores(w, e)[w.nodes[e.i].store.value]
    ensures w.nodes[e.j].store.Some? ==> id in NextStores(w, e)[w.nodes[e.j].store.value]
  {
    var s, b := w.nodes[e.i], w.nodes[e.j];
    CommitPersists(s.state, b.state, View(w, e.i), View(w, e.j), s.store == b.store, e.r, e.persisted);
  }

  lemma CommitIsKnown(w: World, e: Event, id: TxID)
    requires Commits(w, e, id) && Wired(Next(w, e))
    ensures Slots(Next(w, e), e.i, e.j) && KnownTo(Next(w, e), e.i, e.j, id)
  {
    var s, b := w.nodes[e.i], w.nodes[e.j];
    DoneMeans(s.state, b.state, View(w, e.i), View(w, e.j), s.store == b.store, e.r, e.persisted);
    MarkedStores(w, e, id);
    OutcomeExecuted(w, e);
  }

  /** No node object in common, and no store. */
  predicate Apart(w: World, n: nat, w': World, m: nat)
    requires n < |w.nodes| && m < |w'.nodes|
  {
    n != m && (w.nodes[n].store.Some? ==> w'.nodes[m].store != w.nodes[n].store)
  }

  predicate AllApart(w: World, i: nat, j: nat, w': World, k: nat, l: nat)
    requires Slots(w, i, j) && Slots(w', k, l)
  {
    Apart(w, i, w', k) && Apart(w, i, w', l) && Apart(w, j, w', k) && Apart(w, j, w', l)
  }

  lemma KnownIsNotUnknown(w: World, i: nat, j: nat, w': World, k: nat, l: nat, id: TxID)
    requires Slots(w, i, j) && Slots(w', k, l) && Remembers(w, w')
    requires KnownTo(w, i, j, id) && UnknownTo(w', k, l, id)
    ensures AllApart(w, i, j, w', k, l)
  {
    assert forall n :: 0 <= n < |w.stores| && id in w.stores[n] ==> id in w'.stores[n];
  }

  lemma CommitTrace(worlds: seq<World>, events: seq<Event>, a: nat, id: TxID)
    requires IsRun(worlds, events) && a < |events| && Commits(worlds[a], events[a], id)
    ensures Slots(worlds[a], events[a].i, events[a].j) && Slots(worlds[a + 1], events[a].i, events[a].j)
    ensures KnownTo(worlds[a + 1], events[a].i, events[a].j, id) && Remembers(worlds[a], worlds[a + 1])
  {
    assert Takes(worlds[a], events[a], worlds[a + 1]);
    CommitIsKnown(worlds[a], events[a], id);
    StepRemembers(worlds[a], events[a]);
  }

  /** Whatever comes after a commit, nodes for which the trade is still unknown share nothing with it. */
  lemma OthersApart(worlds: seq<World>, events: seq<Event>, a: nat, c: nat, k: nat, l: nat, id: TxID)
    requires IsRun(worlds, events) && a < c < |events| && Commits(worlds[a], events[a], id)
    requires Slots(worlds[c], k, l) && UnknownTo(worlds[c], k, l, id)
    ensures Slots(worlds[a], events[a].i, events[a].j)
    ensures AllApart(worlds[a], events[a].i, events[a].j, worlds[c], k, l)
  {
    CommitTrace(worlds, events, a, id);
    RunRemembers(worlds, events, a + 1, c);
    KnownIsNotUnknown(worlds[a + 1], events[a].i, events[a].j, worlds[c], k, l, id);
  }

  /** Two commits of one trade identifier share neither a node object nor a store. */
  lemma AtMostOnce(worlds: seq<World>, events: seq<Event>, a: nat, c: nat, id: TxID)
    requires IsRun(worlds, events) && a < c < |events|
    requires Commits(worlds[a], events[a], id) && Commits(worlds[c], events[c], id)
    ensures AllApart(worlds[a], events[a].i, events[a].j, worlds[c], events[c].i, events[c].j)
  {
    CommitNeedsAbsence(worlds[c], events[c], id);
    OthersApart(worlds, events, a, c, events[c].i, events[c].j, id);
  }

  /** A trade a store has marked, even in a call that failed, is never committed by a node using it. */
  lemma MarkedNeverCommits(worlds: seq<World>, events: seq<Event>, a: nat, c: nat, n: nat, id: TxID)
    requires IsRun(worlds, events) && a <= c < |events|
    requires n < |worlds[a].stores| && id in worlds[a].stores[n] && Commits(worlds[c], events[c], id)
    ensures worlds[c].nodes[events[c].i].store != Some(n) && worlds[c].nodes[events[c].j].store != Some(n)
  {
    RunRemembers(worlds, events, a, c);
    CommitNeedsAbsence(worlds[c], events[c], id);
  }
}
