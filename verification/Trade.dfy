/** Validation of a bilateral trade and its application to an inventory. */
module Trades {
  import opened Base
  import opened Model
  import opened Inventory

  // ---- Totals ----

  /** How much of a unit a list of values carries. */
  function Total(values: seq<Value>, unit: UnitID): int {
    if values == [] then 0
    else
      var last := values[|values| - 1];
      Total(values[..|values| - 1], unit) + (if last.unit == unit then last.amount else 0)
  }

  /** How much of a unit a list of values gives to one owner. */
  function OwnedTotal(values: seq<Value>, node: NodeID, unit: UnitID): int {
    if values == [] then 0
    else
      var last := values[|values| - 1];
      OwnedTotal(values[..|values| - 1], node, unit)
        + (if last.owner == node && last.unit == unit then last.amount else 0)
  }

  predicate AllPositive(values: seq<Value>) {
    forall i :: 0 <= i < |values| ==> values[i].amount > 0
  }

  predicate Carries(values: seq<Value>, unit: UnitID) {
    exists i :: 0 <= i < |values| && values[i].unit == unit
  }

  lemma TotalStep(values: seq<Value>, i: nat, unit: UnitID)
    requires i < |values|
    ensures Total(values[..i + 1], unit)
         == Total(values[..i], unit) + (if values[i].unit == unit then values[i].amount else 0)
  {
    assert values[..i + 1][..i] == values[..i];
  }

  lemma OwnedTotalStep(values: seq<Value>, i: nat, node: NodeID, unit: UnitID)
    requires i < |values|
    ensures OwnedTotal(values[..i + 1], node, unit) == OwnedTotal(values[..i], node, unit)
         + (if values[i].owner == node && values[i].unit == unit then values[i].amount else 0)
  {
    assert values[..i + 1][..i] == values[..i];
  }

  lemma {:induction false} TotalMonotone(values: seq<Value>, i: nat, unit: UnitID)
    requires i <= |values| && AllPositive(values)
    ensures 0 <= Total(values[..i], unit) <= Total(values, unit)
    decreases |values|
  {
    var n := |values|;
    if n > 0 {
      var front := values[..n - 1];
      if i < n {
        TotalMonotone(front, i, unit);
        assert values[..i] == front[..i];
      } else {
        TotalMonotone(front, n - 1, unit);
        assert front[..n - 1] == front && values[..n] == values;
      }
    } else {
      assert values[..i] == values;
    }
  }

  lemma {:induction false} OwnedTotalMonotone(values: seq<Value>, i: nat, node: NodeID, unit: UnitID)
    requires i <= |values| && AllPositive(values)
    ensures 0 <= OwnedTotal(values[..i], node, unit) <= OwnedTotal(values, node, unit)
    decreases |values|
  {
    var n := |values|;
    if n > 0 {
      var front := values[..n - 1];
      if i < n {
        OwnedTotalMonotone(front, i, node, unit);
        assert values[..i] == front[..i];
      } else {
        OwnedTotalMonotone(front, n - 1, node, unit);
        assert front[..n - 1] == front && values[..n] == values;
      }
    } else {
      assert values[..i] == values;
    }
  }

  lemma {:induction false} TotalConcat(a: seq<Value>, b: seq<Value>, unit: UnitID)
    ensures Total(a + b, unit) == Total(a, unit) + Total(b, unit)
  {
    if b == [] {
      assert a + b == a;
    } else {
      assert (a + b)[..|a + b| - 1] == a + b[..|b| - 1];
      TotalConcat(a, b[..|b| - 1], unit);
    }
  }

  /** Positive values carry a unit exactly when their total is positive. */
  lemma {:induction false} CarriedTotal(values: seq<Value>, unit: UnitID)
    requires AllPositive(values)
    ensures Total(values, unit) >= 0 && (Total(values, unit) > 0 <==> Carries(values, unit))
  {
    if values != [] {
      var n := |values|;
      var front := values[..n - 1];
      CarriedTotal(front, unit);
      if Carries(front, unit) {
        var i :| 0 <= i < |front| && front[i].unit == unit;
        assert values[i].unit == unit;
      }
      if values[n - 1].unit == unit {
        assert Carries(values, unit);
      }
      if Carries(values, unit) && values[n - 1].unit != unit {
        var i :| 0 <= i < n && values[i].unit == unit;
        assert front[i].unit == unit;
      }
    }
  }

  // ---- Validation ----

  predicate ValidSet(values: seq<Value>, owner: NodeID, requireOwned: bool) {
    forall i :: 0 <= i < |values| ==> ValidValue(values[i], owner, requireOwned)
  }

  predicate ValidValue(v: Value, owner: NodeID, requireOwned: bool) {
    && v.amount > 0
    && (if requireOwned then v.owner == owner else v.owner != ZERO_NODE_ID)
    && v.id == ValueIDFor(v)
  }

  predicate DistinctIds(values: seq<Value>) {
    forall i, j :: 0 <= i < j < |values| ==> values[i].id != values[j].id
  }

  ghost predicate Balanced(inputs: seq<Value>, outputs: seq<Value>) {
    forall u :: Total(inputs, u) == Total(outputs, u) <= MAX_INT64
  }

  ghost predicate Covered(h: Holdings, party: NodeID, inputs: seq<Value>) {
    forall u :: Carries(inputs, u) ==> Total(inputs, u) <= Cell(h, party, u)
  }

  /** What a valid trade is, without saying how it is checked. */
  ghost predicate ValidTrade(tx: TradeTx, h: Holdings) {
    && tx.partyA != ZERO_NODE_ID && tx.partyB != ZERO_NODE_ID && tx.partyA != tx.partyB
    && tx.inputsA + tx.inputsB != [] && tx.outputsA + tx.outputsB != []
    && ValidSet(tx.inputsA, tx.partyA, true) && ValidSet(tx.inputsB, tx.partyB, true)
    && ValidSet(tx.outputsA, tx.partyA, false) && ValidSet(tx.outputsB, tx.partyB, false)
    && DistinctIds(tx.inputsA + tx.inputsB + tx.outputsA + tx.outputsB)
    && Balanced(tx.inputsA + tx.inputsB, tx.outputsA + tx.outputsB)
    && tx.id == TradeTxID(tx)
    && Covered(h, tx.partyA, tx.inputsA) && Covered(h, tx.partyB, tx.inputsB)
  }

  method ValidateValueSet(values: seq<Value>, owner: NodeID, requireOwned: bool) returns (ok: bool)
    ensures ok <==> ValidSet(values, owner, requireOwned)
  {
    for i := 0 to |values|
      invariant forall k :: 0 <= k < i ==> ValidValue(values[k], owner, requireOwned)
    {
      var v := values[i];
      if v.amount <= 0 { return false; }
      if requireOwned && v.owner != owner { return false; }
      if !requireOwned && v.owner == ZERO_NODE_ID { return false; }
      if v.id != ValueIDFor(v) { return false; }
    }
    return true;
  }

  method CheckNoDuplicateValueIDs(values: seq<Value>) returns (ok: bool)
    ensures ok <==> DistinctIds(values)
  {
    var seen: set<ValueID> := {};
    for i := 0 to |values|
      invariant seen == set k | 0 <= k < i :: values[k].id
      invariant DistinctIds(values[..i])
    {
      if values[i].id in seen {
        var k :| 0 <= k < i && values[k].id == values[i].id;
        return false;
      }
      seen := seen + {values[i].id};
    }
    assert values[..|values|] == values;
    return true;
  }

  /** The totals of a list of values per unit, unless one of them overflows. */
  method UnitTotals(values: seq<Value>) returns (r: Option<map<UnitID, Amount>>)
    requires AllPositive(values)
    ensures r.Some? <==> forall u :: Total(values, u) <= MAX_INT64
    ensures r.Some? ==> forall u :: u in r.value <==> Carries(values, u)
    ensures r.Some? ==> forall u :: u in r.value ==> r.value[u] == Total(values, u)
  {
    var totals: map<UnitID, Amount> := map[];
    for i := 0 to |values|
      invariant forall u :: u in totals <==> Carries(values[..i], u)
      invariant forall u :: (if u in totals then totals[u] else 0) == Total(values[..i], u)
    {
      var v := values[i];
      var next := CheckedAdd(if v.unit in totals then totals[v.unit] else 0, v.amount);
      TotalStep(values, i, v.unit);
      if next.None? {
        TotalMonotone(values, i + 1, v.unit);
        return None;
      }
      CarriesStep(values, i);
      forall u ensures Total(values[..i + 1], u) == (if u == v.unit then next.value else Total(values[..i], u)) {
        TotalStep(values, i, u);
      }
      totals := totals[v.unit := next.value];
    }
    assert values[..|values|] == values;
    forall u ensures Total(values, u) <= MAX_INT64 {
      assert Total(values[..|values|], u) == if u in totals then totals[u] else 0;
    }
    return Some(totals);
  }

  lemma CarriesStep(values: seq<Value>, i: nat)
    requires i < |values|
    ensures forall u :: Carries(values[..i + 1], u) <==> u == values[i].unit || Carries(values[..i], u)
  {
    forall u ensures Carries(values[..i + 1], u) <==> u == values[i].unit || Carries(values[..i], u) {
      if u == values[i].unit { assert values[..i + 1][i].unit == u; }
      if Carries(values[..i], u) {
        var k :| 0 <= k < i && values[..i][k].unit == u;
        assert values[..i + 1][k].unit == u;
      }
      if Carries(values[..i + 1], u) && u != values[i].unit {
        var k :| 0 <= k < i + 1 && values[..i + 1][k].unit == u;
        assert values[..i][k].unit == u;
      }
    }
  }

  /** The totals agree on every unit once as many units are listed on both sides and all units of the
      inputs agree. */
  lemma SameUnits(inputs: seq<Value>, outputs: seq<Value>, ins: map<UnitID, Amount>, outs: map<UnitID, Amount>)
    requires AllPositive(inputs) && AllPositive(outputs)
    requires forall u :: u in ins <==> Carries(inputs, u)
    requires forall u :: u in outs <==> Carries(outputs, u)
    requires forall u :: u in ins ==> u in outs && Total(inputs, u) == Total(outputs, u)
    requires |ins| == |outs| && forall u :: Total(inputs, u) <= MAX_INT64
    ensures Balanced(inputs, outputs)
  {
    assert ins.Keys <= outs.Keys;
    SubsetOfSameSize(ins.Keys, outs.Keys);
    forall u ensures Total(inputs, u) == Total(outputs, u) <= MAX_INT64 {
      if u !in ins {
        assert u !in outs.Keys;
        CarriedTotal(inputs, u);
        CarriedTotal(outputs, u);
      }
    }
  }

  lemma DifferentUnits(inputs: seq<Value>, outputs: seq<Value>, ins: map<UnitID, Amount>, outs: map<UnitID, Amount>)
    requires AllPositive(inputs) && AllPositive(outputs)
    requires forall u :: u in ins <==> Carries(inputs, u)
    requires forall u :: u in outs <==> Carries(outputs, u)
    requires ins.Keys != outs.Keys
    ensures !Balanced(inputs, outputs)
  {
    var u :| (u in ins) != (u in outs);
    CarriedTotal(inputs, u);
    CarriedTotal(outputs, u);
    assert Total(inputs, u) != Total(outputs, u);
  }

  lemma SubsetOfSameSize(a: set<UnitID>, b: set<UnitID>)
    requires a <= b && |a| == |b|
    ensures a == b
  {
    if a != b {
      var x :| x in b && x !in a;
      SubsetSize(a, b - {x});
    }
  }

  method CheckTradeConservation(inputs: seq<Value>, outputs: seq<Value>) returns (ok: bool)
    requires AllPositive(inputs) && AllPositive(outputs)
    ensures ok <==> Balanced(inputs, outputs)
  {
    var ins := UnitTotals(inputs);
    if ins.None? { return false; }
    var outs := UnitTotals(outputs);
    if outs.None? { return false; }
    if |ins.value| != |outs.value| {
      DifferentUnits(inputs, outputs, ins.value, outs.value);
      return false;
    }
    var unchecked := ins.value.Keys;
    while unchecked != {}
      invariant unchecked <= ins.value.Keys
      invariant forall u :: u in ins.value && u !in unchecked ==> u in outs.value && ins.value[u] == outs.value[u]
      decreases |unchecked|
    {
      var u :| u in unchecked;
      CarriedTotal(inputs, u);
      CarriedTotal(outputs, u);
      if ins.value[u] != (if u in outs.value then outs.value[u] else 0) {
        assert Total(inputs, u) != Total(outputs, u);
        return false;
      }
      unchecked := unchecked - {u};
    }
    SameUnits(inputs, outputs, ins.value, outs.value);
    return true;
  }

  lemma CoveredFits(h: Holdings, party: NodeID, inputs: seq<Value>)
    requires AllPositive(inputs) && Covered(h, party, inputs)
    ensures forall u :: Total(inputs, u) <= MAX_INT64
  {
    forall u ensures Total(inputs, u) <= MAX_INT64 { CarriedTotal(inputs, u); }
  }

  method CheckTradeInventoryCoverage(inv: InventoryState, party: NodeID, inputs: seq<Value>) returns (ok: bool)
    requires AllPositive(inputs)
    ensures ok <==> Covered(inv.Holdings, party, inputs)
  {
    var needed := UnitTotals(inputs);
    if needed.None? {
      if Covered(inv.Holdings, party, inputs) { CoveredFits(inv.Holdings, party, inputs); }
      return false;
    }
    var unchecked := needed.value.Keys;
    while unchecked != {}
      invariant unchecked <= needed.value.Keys
      invariant forall u :: u in needed.value && u !in unchecked ==> Total(inputs, u) <= inv.Get(party, u)
      decreases |unchecked|
    {
      var u :| u in unchecked;
      if inv.Get(party, u) < needed.value[u] { return false; }
      unchecked := unchecked - {u};
    }
    return true;
  }

  lemma ValidSetPositive(values: seq<Value>, owner: NodeID, requireOwned: bool)
    requires ValidSet(values, owner, requireOwned)
    ensures AllPositive(values)
  {}

  method ValidateTradeTx(tx: TradeTx, inv: InventoryState) returns (ok: bool)
    ensures ok <==> ValidTrade(tx, inv.Holdings)
  {
    if tx.partyA == ZERO_NODE_ID || tx.partyB == ZERO_NODE_ID { return false; }
    if tx.partyA == tx.partyB { return false; }
    if |tx.inputsA| + |tx.inputsB| == 0 { return false; }
    if |tx.outputsA| + |tx.outputsB| == 0 { return false; }
    ok := ValidateValueSet(tx.inputsA, tx.partyA, true);
    if !ok { return; }
    ok := ValidateValueSet(tx.inputsB, tx.partyB, true);
    if !ok { return; }
    ok := ValidateValueSet(tx.outputsA, tx.partyA, false);
    if !ok { return; }
    ok := ValidateValueSet(tx.outputsB, tx.partyB, false);
    if !ok { return; }
    ok := CheckNoDuplicateValueIDs(tx.inputsA + tx.inputsB + tx.outputsA + tx.outputsB);
    if !ok { return; }
    ValidSetPositive(tx.inputsA, tx.partyA, true);
    ValidSetPositive(tx.inputsB, tx.partyB, true);
    ValidSetPositive(tx.outputsA, tx.partyA, false);
    ValidSetPositive(tx.outputsB, tx.partyB, false);
    ok := CheckTradeConservation(tx.inputsA + tx.inputsB, tx.outputsA + tx.outputsB);
    if !ok { return; }
    if tx.id != TradeTxID(tx) { return false; }
    ok := CheckTradeInventoryCoverage(inv, tx.partyA, tx.inputsA);
    if !ok { return; }
    ok := CheckTradeInventoryCoverage(inv, tx.partyB, tx.inputsB);
  }

  // ---- Application ----

  /** What a cell holds after the trade: what it held, less the inputs its owner gave, plus the outputs
      addressed to it. */
  function Final(h: Holdings, tx: TradeTx, node: NodeID, unit: UnitID): int {
    Cell(h, node, unit)
      - (if node == tx.partyA then Total(tx.inputsA, unit) else 0)
      - (if node == tx.partyB then Total(tx.inputsB, unit) else 0)
      + OwnedTotal(tx.outputsA, node, unit) + OwnedTotal(tx.outputsB, node, unit)
  }

  ghost predicate FinalFits(h: Holdings, tx: TradeTx) {
    forall node, unit :: Final(h, tx, node, unit) <= MAX_INT64
  }

  /** h is h0 after the values were taken from party. */
  ghost predicate Taken(h0: Holdings, h: Holdings, party: NodeID, values: seq<Value>) {
    && (forall n, u :: Cell(h, n, u) == Cell(h0, n, u) - (if n == party then Total(values, u) else 0))
    && (forall u :: Supply(h, u) == Supply(h0, u) - Total(values, u))
  }

  /** h is h0 after the values were given to their owners. */
  ghost predicate Given(h0: Holdings, h: Holdings, values: seq<Value>) {
    && (forall n, u :: Cell(h, n, u) == Cell(h0, n, u) + OwnedTotal(values, n, u))
    && (forall u :: Supply(h, u) == Supply(h0, u) + Total(values, u))
  }

  /** Every holding fits once the values are added. */
  ghost predicate Fits(h: Holdings, values: seq<Value>) {
    forall n, u :: Cell(h, n, u) + OwnedTotal(values, n, u) <= MAX_INT64
  }

  lemma TakenNone(h: Holdings, party: NodeID)
    ensures Taken(h, h, party, [])
  {
    var none: seq<Value> := [];
    forall u ensures Total(none, u) == 0 {}
  }

  lemma TakenStep(h0: Holdings, h: Holdings, party: NodeID, values: seq<Value>, i: nat)
    requires i < |values| && Taken(h0, h, party, values[..i])
    requires Cell(h, party, values[i].unit) >= values[i].amount > 0
    ensures Taken(h0, Put(h, party, values[i].unit, Cell(h, party, values[i].unit) - values[i].amount), party,
                  values[..i + 1])
  {
    var v := values[i];
    var after := Put(h, party, v.unit, Cell(h, party, v.unit) - v.amount);
    forall n, u ensures Cell(after, n, u) == Cell(h0, n, u) - (if n == party then Total(values[..i + 1], u) else 0) {
      CellAfterPut(h, party, v.unit, Cell(h, party, v.unit) - v.amount, n, u);
      TotalStep(values, i, u);
    }
    forall u ensures Supply(after, u) == Supply(h0, u) - Total(values[..i + 1], u) {
      TakenSupplyStep(h0, h, party, values, i, u);
    }
  }

  lemma TakenSupplyStep(h0: Holdings, h: Holdings, party: NodeID, values: seq<Value>, i: nat, u: UnitID)
    requires i < |values| && Supply(h, u) == Supply(h0, u) - Total(values[..i], u)
    requires Cell(h, party, values[i].unit) >= values[i].amount > 0
    ensures Supply(Put(h, party, values[i].unit, Cell(h, party, values[i].unit) - values[i].amount), u)
         == Supply(h0, u) - Total(values[..i + 1], u)
  {
    TotalStep(values, i, u);
    SupplyAfterPut(h, party, values[i].unit, Cell(h, party, values[i].unit) - values[i].amount, u);
  }

  lemma GivenStep(h0: Holdings, h: Holdings, values: seq<Value>, i: nat)
    requires i < |values| && Given(h0, h, values[..i]) && values[i].amount > 0
    requires Cell(h, values[i].owner, values[i].unit) + values[i].amount <= MAX_INT64
    ensures Given(h0, Put(h, values[i].owner, values[i].unit, Cell(h, values[i].owner, values[i].unit) + values[i].amount),
                  values[..i + 1])
  {
    var v := values[i];
    var after := Put(h, v.owner, v.unit, Cell(h, v.owner, v.unit) + v.amount);
    forall n, u ensures Cell(after, n, u) == Cell(h0, n, u) + OwnedTotal(values[..i + 1], n, u) {
      CellAfterPut(h, v.owner, v.unit, Cell(h, v.owner, v.unit) + v.amount, n, u);
      OwnedTotalStep(values, i, n, u);
    }
    forall u ensures Supply(after, u) == Supply(h0, u) + Total(values[..i + 1], u) { GivenSupplyStep(h0, h, values, i, u); }
  }

  lemma GivenSupplyStep(h0: Holdings, h: Holdings, values: seq<Value>, i: nat, u: UnitID)
    requires i < |values| && values[i].amount > 0 && Supply(h, u) == Supply(h0, u) + Total(values[..i], u)
    requires Cell(h, values[i].owner, values[i].unit) + values[i].amount <= MAX_INT64
    ensures Supply(Put(h, values[i].owner, values[i].unit, Cell(h, values[i].owner, values[i].unit) + values[i].amount), u)
         == Supply(h0, u) + Total(values[..i + 1], u)
  {
    TotalStep(values, i, u);
    SupplyAfterPut(h, values[i].owner, values[i].unit, Cell(h, values[i].owner, values[i].unit) + values[i].amount, u);
  }

  lemma NextIsCovered(h0: Holdings, h: Holdings, party: NodeID, values: seq<Value>, i: nat)
    requires i < |values| && AllPositive(values) && Covered(h0, party, values) && Taken(h0, h, party, values[..i])
    ensures Cell(h, party, values[i].unit) >= values[i].amount
  {
    assert Carries(values, values[i].unit);
    TotalStep(values, i, values[i].unit);
    TotalMonotone(values, i + 1, values[i].unit);
  }

  lemma NextDoesNotFit(h0: Holdings, h: Holdings, values: seq<Value>, i: nat)
    requires i < |values| && AllPositive(values) && Given(h0, h, values[..i])
    requires Cell(h, values[i].owner, values[i].unit) + values[i].amount > MAX_INT64
    ensures !Fits(h0, values)
  {
    var v := values[i];
    OwnedTotalStep(values, i, v.owner, v.unit);
    OwnedTotalMonotone(values, i + 1, v.owner, v.unit);
    assert Cell(h0, v.owner, v.unit) + OwnedTotal(values, v.owner, v.unit) > MAX_INT64;
  }

  lemma GivenFits(h0: Holdings, h: Holdings, values: seq<Value>)
    requires Given(h0, h, values)
    ensures Fits(h0, values)
  {
    forall n, u ensures Cell(h0, n, u) + OwnedTotal(values, n, u) <= MAX_INT64 {
      assert Cell(h, n, u) <= MAX_INT64;
    }
  }

  /** Takes the values from one party's holdings. Covered values are always there to take. */
  method TakeAll(inv: InventoryState, party: NodeID, values: seq<Value>) returns (ok: bool)
    requires AllPositive(values) && Covered(inv.Holdings, party, values)
    modifies inv
    ensures ok && Taken(old(inv.Holdings), inv.Holdings, party, values)
  {
    TakenNone(inv.Holdings, party);
    assert values[..0] == [];
    for i := 0 to |values|
      invariant Taken(old(inv.Holdings), inv.Holdings, party, values[..i])
    {
      NextIsCovered(old(inv.Holdings), inv.Holdings, party, values, i);
      TakenStep(old(inv.Holdings), inv.Holdings, party, values, i);
      ok := inv.Sub(party, values[i].unit, values[i].amount);
      if !ok { return; }
    }
    assert values[..|values|] == values;
    return true;
  }

  /** Adds the values to their owners' holdings, failing exactly when a holding would not fit. */
  method GiveAll(inv: InventoryState, values: seq<Value>) returns (ok: bool)
    requires AllPositive(values)
    modifies inv
    ensures ok <==> Fits(old(inv.Holdings), values)
    ensures ok ==> Given(old(inv.Holdings), inv.Holdings, values)
  {
    assert values[..0] == [];
    for i := 0 to |values|
      invariant Given(old(inv.Holdings), inv.Holdings, values[..i])
    {
      ghost var before := inv.Holdings;
      ok := inv.AddChecked(values[i].owner, values[i].unit, values[i].amount);
      if !ok {
        NextDoesNotFit(old(inv.Holdings), before, values, i);
        return;
      }
      GivenStep(old(inv.Holdings), before, values, i);
    }
    assert values[..|values|] == values;
    GivenFits(old(inv.Holdings), inv.Holdings, values);
    return true;
  }

  lemma StillCovered(h: Holdings, h1: Holdings, tx: TradeTx)
    requires ValidTrade(tx, h) && Taken(h, h1, tx.partyA, tx.inputsA)
    ensures Covered(h1, tx.partyB, tx.inputsB)
  {}

  /** What the four stages of a trade come to. */
  lemma StagesNet(h: Holdings, h1: Holdings, h2: Holdings, tx: TradeTx)
    requires Taken(h, h1, tx.partyA, tx.inputsA) && Taken(h1, h2, tx.partyB, tx.inputsB)
    ensures forall n, u :: Final(h, tx, n, u)
                        == Cell(h2, n, u) + OwnedTotal(tx.outputsA, n, u) + OwnedTotal(tx.outputsB, n, u)
  {}

  lemma OutputsFit(h: Holdings, h2: Holdings, h3: Holdings, tx: TradeTx)
    requires forall n, u :: Final(h, tx, n, u)
                         == Cell(h2, n, u) + OwnedTotal(tx.outputsA, n, u) + OwnedTotal(tx.outputsB, n, u)
    requires Given(h2, h3, tx.outputsA)
    ensures Fits(h3, tx.outputsB) <==> FinalFits(h, tx)
  {
    if Fits(h3, tx.outputsB) {
      forall n, u ensures Final(h, tx, n, u) <= MAX_INT64 {
        assert Cell(h3, n, u) + OwnedTotal(tx.outputsB, n, u) <= MAX_INT64;
      }
    }
    if FinalFits(h, tx) {
      forall n, u ensures Cell(h3, n, u) + OwnedTotal(tx.outputsB, n, u) <= MAX_INT64 {
        assert Final(h, tx, n, u) <= MAX_INT64;
      }
    }
  }

  lemma FirstOutputsFit(h: Holdings, h2: Holdings, tx: TradeTx)
    requires AllPositive(tx.outputsB) && FinalFits(h, tx)
    requires forall n, u :: Final(h, tx, n, u)
                         == Cell(h2, n, u) + OwnedTotal(tx.outputsA, n, u) + OwnedTotal(tx.outputsB, n, u)
    ensures Fits(h2, tx.outputsA)
  {
    forall n, u ensures Cell(h2, n, u) + OwnedTotal(tx.outputsA, n, u) <= MAX_INT64 {
      OwnedTotalMonotone(tx.outputsB, 0, n, u);
      assert Final(h, tx, n, u) <= MAX_INT64;
    }
  }

  lemma SupplyConserved(h: Holdings, h1: Holdings, h2: Holdings, h3: Holdings, h4: Holdings, tx: TradeTx)
    requires Balanced(tx.inputsA + tx.inputsB, tx.outputsA + tx.outputsB)
    requires Taken(h, h1, tx.partyA, tx.inputsA) && Taken(h1, h2, tx.partyB, tx.inputsB)
    requires Given(h2, h3, tx.outputsA) && Given(h3, h4, tx.outputsB)
    ensures forall u :: Supply(h4, u) == Supply(h, u)
  {
    forall u ensures Supply(h4, u) == Supply(h, u) {
      TotalConcat(tx.inputsA, tx.inputsB, u);
      TotalConcat(tx.outputsA, tx.outputsB, u);
      assert Total(tx.inputsA + tx.inputsB, u) == Total(tx.outputsA + tx.outputsB, u);
    }
  }

  /** Applies a valid trade to a copy of the inventory. It fails exactly when the trade is invalid or a
      holding would not fit in 64 bits; otherwise every cell is its net result and every unit's supply
      is what it was. */
  method ApplyTradeTx(inv: InventoryState, tx: TradeTx) returns (r: Option<InventoryState>)
    ensures r.Some? <==> ValidTrade(tx, inv.Holdings) && FinalFits(inv.Holdings, tx)
    ensures r.Some? ==> fresh(r.value)
    ensures r.Some? ==> forall n, u :: Cell(r.value.Holdings, n, u) == Final(inv.Holdings, tx, n, u)
    ensures r.Some? ==> forall u :: Supply(r.value.Holdings, u) == Supply(inv.Holdings, u)
  {
    var ok := ValidateTradeTx(tx, inv);
    if !ok { return None; }
    TradeSetsPositive(tx, inv.Holdings);
    var next := inv.Copy();
    ghost var h := inv.Holdings;
    ok := TakeAll(next, tx.partyA, tx.inputsA);
    if !ok { return None; }
    ghost var h1 := next.Holdings;
    StillCovered(h, h1, tx);
    ok := TakeAll(next, tx.partyB, tx.inputsB);
    if !ok { return None; }
    ghost var h2 := next.Holdings;
    StagesNet(h, h1, h2, tx);
    ok := GiveAll(next, tx.outputsA);
    if !ok {
      if FinalFits(h, tx) { FirstOutputsFit(h, h2, tx); }
      return None;
    }
    ghost var h3 := next.Holdings;
    OutputsFit(h, h2, h3, tx);
    ok := GiveAll(next, tx.outputsB);
    if !ok { return None; }
    SupplyConserved(h, h1, h2, h3, next.Holdings, tx);
    return Some(next);
  }

  lemma TradeSetsPositive(tx: TradeTx, h: Holdings)
    requires ValidTrade(tx, h)
    ensures AllPositive(tx.inputsA) && AllPositive(tx.inputsB) && AllPositive(tx.outputsA) && AllPositive(tx.outputsB)
  {}

  /** A valid trade leaves no cell negative that was not. */
  lemma FinalNonNegative(h: Holdings, tx: TradeTx, node: NodeID, unit: UnitID)
    requires ValidTrade(tx, h) && Cell(h, node, unit) >= 0
    ensures Final(h, tx, node, unit) >= 0
  {
    TradeSetsPositive(tx, h);
    CarriedTotal(tx.inputsA, unit);
    CarriedTotal(tx.inputsB, unit);
    OwnedTotalMonotone(tx.outputsA, 0, node, unit);
    OwnedTotalMonotone(tx.outputsB, 0, node, unit);
  }
}
