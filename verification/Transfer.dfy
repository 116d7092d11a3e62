/** Transfers: the constructor, the validator, and what each of the validator's checks means. */
module Transfers {
  import opened Base
  import opened Model
  import opened Inventory
  import opened Trades

  // ---- Inputs ----

  predicate Genuine(v: Value) {
    v.id == ValueIDFor(v)
  }

  predicate AllGenuine(values: seq<Value>) {
    forall i :: 0 <= i < |values| ==> Genuine(values[i])
  }

  predicate Distinct(ids: seq<ValueID>) {
    forall i, j :: 0 <= i < j < |ids| ==> ids[i] != ids[j]
  }

  /** ins lists the given values in the order of ids, each value once. */
  predicate Arranged(ins: seq<Value>, ids: seq<ValueID>, values: seq<Value>) {
    && AllGenuine(values) && DistinctIds(values) && Distinct(ids) && |ids| == |values|
    && |ins| == |ids| && (forall i :: 0 <= i < |ins| ==> ins[i].id == ids[i] && ins[i] in values)
  }

  ghost predicate Arrangeable(ids: seq<ValueID>, values: seq<Value>) {
    exists ins :: Arranged(ins, ids, values)
  }

  lemma NotArrangeable(ids: seq<ValueID>, values: seq<Value>)
    requires !AllGenuine(values) || !DistinctIds(values) || !Distinct(ids) || |ids| != |values|
    ensures !Arrangeable(ids, values)
  {}

  lemma SameIdSameValue(values: seq<Value>, a: Value, b: Value)
    requires DistinctIds(values) && a in values && b in values && a.id == b.id
    ensures a == b
  {
    var i :| 0 <= i < |values| && values[i] == a;
    var j :| 0 <= j < |values| && values[j] == b;
  }

  lemma ArrangedUnique(a: seq<Value>, b: seq<Value>, ids: seq<ValueID>, values: seq<Value>)
    requires Arranged(a, ids, values) && Arranged(b, ids, values)
    ensures a == b
  {
    forall i | 0 <= i < |ids| ensures a[i] == b[i] {
      SameIdSameValue(values, a[i], b[i]);
    }
  }

  /** The order in which values are supplied does not matter. */
  lemma ArrangedPermutation(ins: seq<Value>, ids: seq<ValueID>, values: seq<Value>, other: seq<Value>)
    requires Arranged(ins, ids, values) && multiset(values) == multiset(other)
    ensures Arranged(ins, ids, other)
  {
    assert |values| == |multiset(values)| == |multiset(other)| == |other|;
    forall i | 0 <= i < |other| ensures Genuine(other[i]) {
      assert other[i] in multiset(values);
    }
    forall i, j | 0 <= i < j < |other| ensures other[i].id != other[j].id {
      if other[i].id == other[j].id {
        assert other[i] in multiset(values) && other[j] in multiset(values);
        SameIdSameValue(values, other[i], other[j]);
        TwiceInMultiset(other, i, j);
        DistinctOnce(values, other[i]);
      }
    }
    forall i | 0 <= i < |ins| ensures ins[i] in other {
      assert ins[i] in multiset(values);
    }
  }

  lemma TwiceInMultiset(values: seq<Value>, i: nat, j: nat)
    requires i < j < |values| && values[i] == values[j]
    ensures multiset(values)[values[i]] >= 2
  {
    assert values == values[..j] + [values[j]] + values[j + 1..];
    assert values[..j][i] == values[j];
    assert values[j] in multiset(values[..j]);
  }

  lemma {:induction false} DistinctOnce(values: seq<Value>, v: Value)
    requires DistinctIds(values)
    ensures multiset(values)[v] <= 1
  {
    if values != [] {
      var front, last := values[..|values| - 1], values[|values| - 1];
      assert values == front + [last];
      DistinctOnce(front, v);
      assert forall i :: 0 <= i < |front| ==> front[i] == values[i] && front[i].id != last.id;
      assert last !in multiset(front);
    }
  }

  lemma NotArranged(ids: seq<ValueID>, values: seq<Value>, i: nat)
    requires i < |ids| && forall v :: v in values ==> v.id != ids[i]
    ensures !Arrangeable(ids, values)
  {
    forall ins: seq<Value> ensures !Arranged(ins, ids, values) {
      assert |ins| == |ids| ==> ins[i] !in values || ins[i].id != ids[i];
    }
  }

  predicate HasId(values: seq<Value>, i: nat, id: ValueID)
    requires i <= |values|
  {
    exists k :: 0 <= k < i && values[k].id == id
  }

  /** byId holds exactly the first i values, by identifier, and no two of them share one. */
  ghost predicate Indexed(byId: map<ValueID, Value>, values: seq<Value>, i: nat)
    requires i <= |values|
  {
    && |byId| == i
    && (forall k :: 0 <= k < i ==> values[k].id in byId && byId[values[k].id] == values[k])
    && (forall id :: id in byId ==> HasId(values, i, id))
    && (forall k, l :: 0 <= k < l < i ==> values[k].id != values[l].id)
  }

  lemma IndexedStep(byId: map<ValueID, Value>, values: seq<Value>, i: nat)
    requires i < |values| && Indexed(byId, values, i) && values[i].id !in byId
    ensures Indexed(byId[values[i].id := values[i]], values, i + 1)
  {
    var after := byId[values[i].id := values[i]];
    assert |after| == i + 1;
    forall id | id in after ensures HasId(values, i + 1, id) {
      HasIdStep(values, i, id);
    }
    forall k | 0 <= k < i + 1 ensures values[k].id in after && after[values[k].id] == values[k] {
      assert k < i ==> values[k].id in byId;
    }
    forall k, l | 0 <= k < l < i + 1 ensures values[k].id != values[l].id {
      assert values[k].id in byId;
    }
  }

  lemma HasIdStep(values: seq<Value>, i: nat, id: ValueID)
    requires i < |values|
    ensures HasId(values, i + 1, id) <==> values[i].id == id || HasId(values, i, id)
  {
    if values[i].id == id { assert HasId(values, i + 1, id); }
    if HasId(values, i, id) {
      var k :| 0 <= k < i && values[k].id == id;
      assert HasId(values, i + 1, id);
    }
  }

  lemma IndexedClash(byId: map<ValueID, Value>, values: seq<Value>, i: nat)
    requires i < |values| && Indexed(byId, values, i) && values[i].id in byId
    ensures !DistinctIds(values)
  {
    assert HasId(values, i, values[i].id);
    var k :| 0 <= k < i && values[k].id == values[i].id;
  }

  /** The values by identifier, if each has the identifier of its contents and no two share one. */
  method IndexById(values: seq<Value>) returns (r: Option<map<ValueID, Value>>)
    ensures r.Some? <==> AllGenuine(values) && DistinctIds(values)
    ensures r.Some? ==> Indexed(r.value, values, |values|)
  {
    var byId: map<ValueID, Value> := map[];
    for i := 0 to |values|
      invariant forall k :: 0 <= k < i ==> Genuine(values[k])
      invariant Indexed(byId, values, i)
    {
      if values[i].id != ValueIDFor(values[i]) {
        assert !Genuine(values[i]);
        return None;
      }
      if values[i].id in byId {
        IndexedClash(byId, values, i);
        return None;
      }
      IndexedStep(byId, values, i);
      byId := byId[values[i].id := values[i]];
    }
    return Some(byId);
  }

  /** ins arranges the first i identifiers, none of them twice. */
  ghost predicate ArrangedUpTo(ins: seq<Value>, seen: set<ValueID>, ids: seq<ValueID>, values: seq<Value>, i: nat)
    requires i <= |ids|
  {
    && |ins| == |seen| == i
    && (forall k :: 0 <= k < i ==> ids[k] in seen && ins[k].id == ids[k] && ins[k] in values)
    && (forall id :: id in seen ==> id in ids[..i])
    && (forall k, l :: 0 <= k < l < i ==> ids[k] != ids[l])
  }

  lemma ArrangedStep(ins: seq<Value>, seen: set<ValueID>, ids: seq<ValueID>, values: seq<Value>, i: nat, v: Value)
    requires i < |ids| && ArrangedUpTo(ins, seen, ids, values, i) && ids[i] !in seen && v in values && v.id == ids[i]
    ensures ArrangedUpTo(ins + [v], seen + {ids[i]}, ids, values, i + 1)
  {
    assert ids[..i + 1] == ids[..i] + [ids[i]];
  }

  lemma RepeatedId(ins: seq<Value>, seen: set<ValueID>, ids: seq<ValueID>, values: seq<Value>, i: nat)
    requires i < |ids| && ArrangedUpTo(ins, seen, ids, values, i) && ids[i] in seen
    ensures !Arrangeable(ids, values)
  {
    var k :| 0 <= k < i && ids[..i][k] == ids[i];
    assert ids[k] == ids[i];
    NotArrangeable(ids, values);
  }

  method CanonicalInputsForTransfer(ids: seq<ValueID>, values: seq<Value>) returns (r: Option<seq<Value>>)
    ensures r.Some? <==> Arrangeable(ids, values)
    ensures r.Some? ==> Arranged(r.value, ids, values)
  {
    var index := IndexById(values);
    if index.None? {
      NotArrangeable(ids, values);
      return None;
    }
    var byId := index.value;
    var seen: set<ValueID> := {};
    var ins: seq<Value> := [];
    for i := 0 to |ids|
      invariant ArrangedUpTo(ins, seen, ids, values, i)
    {
      if ids[i] in seen {
        RepeatedId(ins, seen, ids, values, i);
        return None;
      }
      if ids[i] !in byId {
        UnknownId(byId, ids, values, i);
        return None;
      }
      FoundId(byId, values, ids[i]);
      ArrangedStep(ins, seen, ids, values, i, byId[ids[i]]);
      seen := seen + {ids[i]};
      ins := ins + [byId[ids[i]]];
    }
    if |seen| != |byId| {
      NotArrangeable(ids, values);
      return None;
    }
    AllArranged(ins, seen, ids, values);
    return Some(ins);
  }

  lemma AllArranged(ins: seq<Value>, seen: set<ValueID>, ids: seq<ValueID>, values: seq<Value>)
    requires AllGenuine(values) && DistinctIds(values)
    requires |ids| == |values| && ArrangedUpTo(ins, seen, ids, values, |ids|)
    ensures Arranged(ins, ids, values) && Arrangeable(ids, values)
  {}

  lemma UnknownId(byId: map<ValueID, Value>, ids: seq<ValueID>, values: seq<Value>, i: nat)
    requires i < |ids| && Indexed(byId, values, |values|) && ids[i] !in byId
    ensures !Arrangeable(ids, values)
  {
    assert forall k :: 0 <= k < |values| ==> values[k].id != ids[i];
    NotArranged(ids, values, i);
  }

  lemma FoundId(byId: map<ValueID, Value>, values: seq<Value>, id: ValueID)
    requires Indexed(byId, values, |values|) && id in byId
    ensures byId[id] in values && byId[id].id == id
  {
    assert HasId(values, |values|, id);
    var k :| 0 <= k < |values| && values[k].id == id;
    assert values[k] == byId[id];
  }

  // ---- Depth ----

  /** d is one more than the greatest input depth. */
  predicate IsNextDepth(ins: seq<Value>, d: int) {
    && 1 <= d < TWO_32
    && (forall i :: 0 <= i < |ins| ==> ins[i].depth < d)
    && (d == 1 || exists i :: 0 <= i < |ins| && ins[i].depth == d - 1)
  }

  method NextTransferDepth(ins: seq<Value>) returns (r: Option<uint32>)
    ensures r.Some? ==> IsNextDepth(ins, r.value)
    ensures r.None? ==> forall d :: !IsNextDepth(ins, d)
  {
    var maxDepth: uint32 := 0;
    for i := 0 to |ins|
      invariant forall k :: 0 <= k < i ==> ins[k].depth <= maxDepth
      invariant maxDepth == 0 || exists k :: 0 <= k < i && ins[k].depth == maxDepth
    {
      if ins[i].depth > maxDepth { maxDepth := ins[i].depth; }
    }
    if maxDepth == TWO_32 - 1 {
      var k :| 0 <= k < |ins| && ins[k].depth == maxDepth;
      return None;
    }
    return Some(maxDepth + 1);
  }

  lemma NextDepthUnique(ins: seq<Value>, a: int, b: int)
    requires IsNextDepth(ins, a) && IsNextDepth(ins, b)
    ensures a == b
  {}

  // ---- Conservation ----

  predicate OneIssuer(ins: seq<Value>) {
    forall i, j :: 0 <= i < |ins| && 0 <= j < |ins| && ins[i].unit == ins[j].unit ==> ins[i].issuer == ins[j].issuer
  }

  predicate HasKey(ins: seq<Value>, unit: UnitID, issuer: NodeID) {
    exists i :: 0 <= i < |ins| && ins[i].unit == unit && ins[i].issuer == issuer
  }

  predicate KeysKnown(ins: seq<Value>, outs: seq<Value>) {
    forall j :: 0 <= j < |outs| ==> HasKey(ins, outs[j].unit, outs[j].issuer)
  }

  /** Amounts are positive, every unit has one issuer, and outputs carry exactly what inputs do. */
  ghost predicate Conserves(ins: seq<Value>, outs: seq<Value>) {
    && AllPositive(ins) && OneIssuer(ins) && AllPositive(outs) && KeysKnown(ins, outs) && Balanced(ins, outs)
  }

  datatype Balance = Balance(amount: Amount, issuer: NodeID)

  /** balances says what is left of each unit of ins after given has been paid out. */
  ghost predicate Remaining(balances: map<UnitID, Balance>, ins: seq<Value>, given: seq<Value>) {
    && (forall u :: u in balances <==> Carries(ins, u))
    && (forall u :: u in balances ==> balances[u].amount == Total(ins, u) - Total(given, u))
    && (forall i :: 0 <= i < |ins| ==> ins[i].unit in balances && balances[ins[i].unit].issuer == ins[i].issuer)
  }

  lemma RemainingAfterInput(balances: map<UnitID, Balance>, ins: seq<Value>, i: nat, next: Balance)
    requires i < |ins| && Remaining(balances, ins[..i], [])
    requires ins[i].unit in balances ==> balances[ins[i].unit].issuer == ins[i].issuer
    requires next.issuer == ins[i].issuer
    requires next.amount == (if ins[i].unit in balances then balances[ins[i].unit].amount else 0) + ins[i].amount
    ensures Remaining(balances[ins[i].unit := next], ins[..i + 1], [])
  {
    var after := balances[ins[i].unit := next];
    CarriesStep(ins, i);
    forall u | u in after ensures after[u].amount == Total(ins[..i + 1], u) - Total([], u) {
      TotalStep(ins, i, u);
      if u !in balances { NotCarried(ins[..i], u); }
    }
  }

  lemma {:induction false} NotCarried(values: seq<Value>, u: UnitID)
    requires !Carries(values, u)
    ensures Total(values, u) == 0
    decreases |values|
  {
    if values != [] {
      var front := values[..|values| - 1];
      assert forall i :: 0 <= i < |front| ==> front[i] == values[i];
      NotCarried(front, u);
    }
  }

  lemma RemainingAfterOutput(balances: map<UnitID, Balance>, ins: seq<Value>, outs: seq<Value>, j: nat, next: Balance)
    requires j < |outs| && Remaining(balances, ins, outs[..j]) && outs[j].unit in balances
    requires next == Balance(next.amount, balances[outs[j].unit].issuer)
    requires next.amount == balances[outs[j].unit].amount - outs[j].amount
    ensures Remaining(balances[outs[j].unit := next], ins, outs[..j + 1])
  {
    var after := balances[outs[j].unit := next];
    forall u | u in after ensures after[u].amount == Total(ins, u) - Total(outs[..j + 1], u) {
      TotalStep(outs, j, u);
    }
  }

  lemma OverdrawnOutput(ins: seq<Value>, outs: seq<Value>, j: nat)
    requires j < |outs| && Total(outs[..j], outs[j].unit) + outs[j].amount > Total(ins, outs[j].unit)
    ensures !Conserves(ins, outs)
  {
    if AllPositive(outs) {
      TotalStep(outs, j, outs[j].unit);
      TotalMonotone(outs, j + 1, outs[j].unit);
      assert Total(outs, outs[j].unit) > Total(ins, outs[j].unit);
    }
  }

  lemma CannotPay(balances: map<UnitID, Balance>, ins: seq<Value>, outs: seq<Value>, j: nat)
    requires j < |outs| && Remaining(balances, ins, outs[..j])
    requires outs[j].unit in balances && balances[outs[j].unit].amount < outs[j].amount
    ensures !Conserves(ins, outs)
  {
    OverdrawnOutput(ins, outs, j);
  }

  lemma OverflowingInput(ins: seq<Value>, outs: seq<Value>, i: nat)
    requires i < |ins| && Total(ins[..i], ins[i].unit) + ins[i].amount > MAX_INT64
    ensures !Conserves(ins, outs)
  {
    if AllPositive(ins) {
      TotalStep(ins, i, ins[i].unit);
      TotalMonotone(ins, i + 1, ins[i].unit);
      assert Total(ins, ins[i].unit) > MAX_INT64;
    }
  }

  /** The balances before any output: what the inputs carry. */
  method InputBalances(ins: seq<Value>, ghost outs: seq<Value>) returns (r: Option<map<UnitID, Balance>>)
    ensures r.Some? ==> AllPositive(ins) && OneIssuer(ins) && Remaining(r.value, ins, [])
    ensures r.Some? ==> forall u :: u in r.value ==> r.value[u].amount >= 0
    ensures r.None? ==> !Conserves(ins, outs)
  {
    var balances: map<UnitID, Balance> := map[];
    for i := 0 to |ins|
      invariant AllPositive(ins[..i]) && Remaining(balances, ins[..i], [])
      invariant forall u :: u in balances ==> balances[u].amount >= 0
    {
      var v := ins[i];
      if v.amount <= 0 { return None; }
      if v.unit in balances && balances[v.unit].issuer != v.issuer {
        IssuersDiffer(balances, ins, i);
        return None;
      }
      var next := CheckedAdd(if v.unit in balances then balances[v.unit].amount else 0, v.amount);
      if v.unit !in balances { NotCarried(ins[..i], v.unit); }
      if next.None? {
        OverflowingInput(ins, outs, i);
        return None;
      }
      RemainingAfterInput(balances, ins, i, Balance(next.value, v.issuer));
      balances := balances[v.unit := Balance(next.value, v.issuer)];
    }
    assert ins[..|ins|] == ins;
    return Some(balances);
  }

  lemma IssuersDiffer(balances: map<UnitID, Balance>, ins: seq<Value>, i: nat)
    requires i < |ins| && Remaining(balances, ins[..i], [])
    requires ins[i].unit in balances && balances[ins[i].unit].issuer != ins[i].issuer
    ensures !OneIssuer(ins)
  {
    var k :| 0 <= k < i && ins[..i][k].unit == ins[i].unit;
    assert ins[k].issuer == balances[ins[i].unit].issuer;
  }

  lemma UnknownKey(balances: map<UnitID, Balance>, ins: seq<Value>, given: seq<Value>, v: Value)
    requires Remaining(balances, ins, given)
    ensures HasKey(ins, v.unit, v.issuer) <==> v.unit in balances && balances[v.unit].issuer == v.issuer
  {
    if HasKey(ins, v.unit, v.issuer) {
      var i :| 0 <= i < |ins| && ins[i].unit == v.unit && ins[i].issuer == v.issuer;
    }
    if v.unit in balances && balances[v.unit].issuer == v.issuer {
      var i :| 0 <= i < |ins| && ins[i].unit == v.unit;
      assert HasKey(ins, v.unit, v.issuer);
    }
  }

  /** Pays the outputs out of the balances. */
  method PayOutputs(ins: seq<Value>, outs: seq<Value>, start: map<UnitID, Balance>)
    returns (r: Option<map<UnitID, Balance>>)
    requires Remaining(start, ins, []) && forall u :: u in start ==> start[u].amount >= 0
    ensures r.Some? ==> AllPositive(outs) && KeysKnown(ins, outs) && Remaining(r.value, ins, outs)
    ensures r.None? ==> !Conserves(ins, outs)
  {
    hide Remaining, HasKey, Balanced, OneIssuer;
    var balances := start;
    assert outs[..0] == [];
    for j := 0 to |outs|
      invariant AllPositive(outs[..j]) && KeysKnown(ins, outs[..j]) && Remaining(balances, ins, outs[..j])
      invariant forall u :: u in balances ==> balances[u].amount >= 0
    {
      var v := outs[j];
      if v.amount <= 0 { return None; }
      UnknownKey(balances, ins, outs[..j], v);
      if v.unit !in balances { return None; }
      if balances[v.unit].issuer != v.issuer { return None; }
      if balances[v.unit].amount < v.amount {
        CannotPay(balances, ins, outs, j);
        return None;
      }
      var next := Balance(balances[v.unit].amount - v.amount, v.issuer);
      RemainingAfterOutput(balances, ins, outs, j, next);
      balances := balances[v.unit := next];
    }
    assert outs[..|outs|] == outs;
    return Some(balances);
  }

  method CheckConservation(ins: seq<Value>, outs: seq<Value>) returns (ok: bool)
    ensures ok <==> Conserves(ins, outs)
  {
    var start := InputBalances(ins, outs);
    if start.None? { return false; }
    var left := PayOutputs(ins, outs, start.value);
    if left.None? { return false; }
    var balances := left.value;
    var unchecked := balances.Keys;
    while unchecked != {}
      invariant unchecked <= balances.Keys
      invariant forall u :: u in balances && u !in unchecked ==> balances[u].amount == 0
      decreases |unchecked|
    {
      var u :| u in unchecked;
      if balances[u].amount != 0 { return false; }
      unchecked := unchecked - {u};
    }
    AllPaidOut(balances, ins, outs, start.value);
    return true;
  }

  lemma KnownCarried(ins: seq<Value>, outs: seq<Value>, u: UnitID)
    requires KeysKnown(ins, outs)
    ensures Carries(outs, u) ==> Carries(ins, u)
  {
    if Carries(outs, u) {
      var j :| 0 <= j < |outs| && outs[j].unit == u;
      assert HasKey(ins, outs[j].unit, outs[j].issuer);
    }
  }

  lemma AllPaidOut(balances: map<UnitID, Balance>, ins: seq<Value>, outs: seq<Value>, start: map<UnitID, Balance>)
    requires AllPositive(ins) && AllPositive(outs) && KeysKnown(ins, outs)
    requires Remaining(start, ins, []) && Remaining(balances, ins, outs)
    requires forall u :: u in balances ==> balances[u].amount == 0
    ensures Balanced(ins, outs)
  {
    forall u ensures Total(ins, u) == Total(outs, u) <= MAX_INT64 {
      if u in balances {
        assert start[u].amount == Total(ins, u) - Total([], u);
      } else {
        NotCarried(ins, u);
        KnownCarried(ins, outs, u);
        NotCarried(outs, u);
      }
    }
  }

  // ---- Expiry ----

  predicate SameKey(a: Value, b: Value) {
    a.unit == b.unit && a.issuer == b.issuer
  }

  /** An input that expires limits an output of the same unit and issuer. */
  predicate Within(input: Value, output: Value) {
    SameKey(input, output) && input.expiryUnix != 0 ==>
      output.expiryUnix != 0 && output.expiryUnix <= input.expiryUnix
  }

  /** No output removes or extends the expiry of an input of its unit and issuer. */
  predicate KeepsExpiry(ins: seq<Value>, outs: seq<Value>) {
    forall i, j :: 0 <= i < |ins| && 0 <= j < |outs| ==> Within(ins[i], outs[j])
  }

  type Key = (UnitID, NodeID)

  function KeyOf(v: Value): Key {
    (v.unit, v.issuer)
  }

  /** least holds, per unit and issuer, the earliest expiry among the inputs that have one. */
  ghost predicate Earliest(least: map<Key, int64>, ins: seq<Value>) {
    && (forall i :: 0 <= i < |ins| && ins[i].expiryUnix != 0 ==>
          KeyOf(ins[i]) in least && least[KeyOf(ins[i])] <= ins[i].expiryUnix)
    && (forall key :: key in least ==> least[key] != 0 && Attained(ins, key, least[key]))
  }

  predicate Attained(ins: seq<Value>, key: Key, expiry: int64) {
    exists i :: 0 <= i < |ins| && KeyOf(ins[i]) == key && ins[i].expiryUnix == expiry
  }

  lemma AttainedLonger(ins: seq<Value>, i: nat, key: Key, expiry: int64)
    requires i < |ins|
    ensures Attained(ins[..i], key, expiry) ==> Attained(ins[..i + 1], key, expiry)
    ensures KeyOf(ins[i]) == key && ins[i].expiryUnix == expiry ==> Attained(ins[..i + 1], key, expiry)
  {
    if Attained(ins[..i], key, expiry) {
      var k :| 0 <= k < i && KeyOf(ins[..i][k]) == key && ins[..i][k].expiryUnix == expiry;
      assert ins[..i + 1][k] == ins[..i][k];
    }
    if KeyOf(ins[i]) == key && ins[i].expiryUnix == expiry {
      assert ins[..i + 1][i] == ins[i];
    }
  }

  lemma EarliestStep(least: map<Key, int64>, next: map<Key, int64>, ins: seq<Value>, i: nat)
    requires i < |ins| && Earliest(least, ins[..i])
    requires var v := ins[i];
      next == if v.expiryUnix != 0 && (KeyOf(v) !in least || v.expiryUnix < least[KeyOf(v)])
              then least[KeyOf(v) := v.expiryUnix] else least
    ensures Earliest(next, ins[..i + 1])
  {
    assert forall k :: 0 <= k < i ==> ins[..i + 1][k] == ins[..i][k];
    forall key | key in next ensures next[key] != 0 && Attained(ins[..i + 1], key, next[key]) {
      AttainedLonger(ins, i, key, next[key]);
    }
  }

  /** The loop both the checker and the normaliser run over the inputs. */
  method EarliestExpiries(ins: seq<Value>) returns (least: map<Key, int64>)
    ensures Earliest(least, ins)
  {
    least := map[];
    for i := 0 to |ins|
      invariant Earliest(least, ins[..i])
    {
      var v := ins[i];
      ghost var before := least;
      if v.expiryUnix != 0 {
        if KeyOf(v) !in least || v.expiryUnix < least[KeyOf(v)] {
          least := least[KeyOf(v) := v.expiryUnix];
        }
      }
      EarliestStep(before, least, ins, i);
    }
    assert ins[..|ins|] == ins;
  }

  /** An output is within every input of its key exactly when it is within the earliest of them. */
  lemma WithinEarliest(least: map<Key, int64>, ins: seq<Value>, out: Value)
    requires Earliest(least, ins)
    ensures (forall i :: 0 <= i < |ins| ==> Within(ins[i], out))
       <==> (KeyOf(out) in least ==> out.expiryUnix != 0 && out.expiryUnix <= least[KeyOf(out)])
  {
    var key := KeyOf(out);
    if key in least {
      assert Attained(ins, key, least[key]);
      var i :| 0 <= i < |ins| && KeyOf(ins[i]) == key && ins[i].expiryUnix == least[key];
      assert Within(ins[i], out) ==> out.expiryUnix != 0 && out.expiryUnix <= least[key];
    }
  }

  method CheckExpiryPropagation(ins: seq<Value>, outs: seq<Value>) returns (ok: bool)
    ensures ok <==> KeysKnown(ins, outs) && KeepsExpiry(ins, outs)
  {
    var least := EarliestExpiries(ins);
    var seen := set i | 0 <= i < |ins| :: KeyOf(ins[i]);
    for j := 0 to |outs|
      invariant forall k :: 0 <= k < j ==> HasKey(ins, outs[k].unit, outs[k].issuer)
      invariant forall i, k :: 0 <= i < |ins| && 0 <= k < j ==> Within(ins[i], outs[k])
    {
      var key := KeyOf(outs[j]);
      WithinEarliest(least, ins, outs[j]);
      if key !in seen { return false; }
      if key in least {
        if outs[j].expiryUnix == 0 { return false; }
        if outs[j].expiryUnix > least[key] { return false; }
      }
    }
    return true;
  }

  /** The normalised output: tightened to the earliest input expiry if it is not already within it. */
  predicate Normalised(ins: seq<Value>, out: Value, result: Value) {
    && result == out.(expiryUnix := result.expiryUnix)
    && (forall i :: 0 <= i < |ins| ==> Within(ins[i], result))
    && ((forall i :: 0 <= i < |ins| ==> Within(ins[i], out)) ==> result == out)
    && (result != out ==> Attained(ins, KeyOf(out), result.expiryUnix))
  }

  method NormalizeTransferOutputExpiries(ins: seq<Value>, outs: seq<Value>) returns (result: seq<Value>)
    ensures |result| == |outs| && forall j :: 0 <= j < |outs| ==> Normalised(ins, outs[j], result[j])
  {
    var least := EarliestExpiries(ins);
    result := outs;
    for j := 0 to |outs|
      invariant |result| == |outs|
      invariant forall k :: 0 <= k < j ==> Normalised(ins, outs[k], result[k])
      invariant forall k :: j <= k < |outs| ==> result[k] == outs[k]
    {
      var key := KeyOf(outs[j]);
      if key in least && (outs[j].expiryUnix == 0 || outs[j].expiryUnix > least[key]) {
        result := result[j := outs[j].(expiryUnix := least[key])];
      }
      WithinEarliest(least, ins, outs[j]);
      WithinEarliest(least, ins, result[j]);
    }
  }

  // ---- The validator ----

  predicate OwnedBy(ins: seq<Value>, author: NodeID) {
    forall i :: 0 <= i < |ins| ==> ins[i].owner == author
  }

  predicate ValidOutput(v: Value, depth: int) {
    v.amount > 0 && v.owner != ZERO_NODE_ID && v.depth == depth && Genuine(v)
  }

  predicate ValidOutputs(outs: seq<Value>, depth: int) {
    forall j :: 0 <= j < |outs| ==> ValidOutput(outs[j], depth)
  }

  predicate Authentic(tx: TransferTx) {
    tx.id == TransferTxID(tx) && Verify(tx.author, TransferPreimage(tx), tx.signature)
  }

  /** A transfer that is valid for its inputs, listed in its own order. */
  ghost predicate ValidFor(tx: TransferTx, ins: seq<Value>) {
    && OwnedBy(ins, tx.author)
    && (exists d :: IsNextDepth(ins, d) && ValidOutputs(tx.outputs, d))
    && Conserves(ins, tx.outputs) && KeepsExpiry(ins, tx.outputs)
    && Authentic(tx)
  }

  ghost predicate ValidTransfer(tx: TransferTx, values: seq<Value>) {
    && tx.inputs != [] && tx.outputs != []
    && exists ins :: Arranged(ins, tx.inputs, values) && ValidFor(tx, ins)
  }

  method CheckOutputs(outs: seq<Value>, depth: uint32) returns (ok: bool)
    ensures ok <==> ValidOutputs(outs, depth)
  {
    for j := 0 to |outs|
      invariant forall k :: 0 <= k < j ==> ValidOutput(outs[k], depth)
    {
      var v := outs[j];
      if v.amount <= 0 { return false; }
      if v.owner == ZERO_NODE_ID { return false; }
      if v.depth != depth { return false; }
      if v.id != ValueIDFor(v) { return false; }
    }
    return true;
  }

  method CheckOwners(ins: seq<Value>, author: NodeID) returns (ok: bool)
    ensures ok <==> OwnedBy(ins, author)
  {
    for i := 0 to |ins|
      invariant forall k :: 0 <= k < i ==> ins[k].owner == author
    {
      if ins[i].owner != author { return false; }
    }
    return true;
  }

  method ValidateInputs(tx: TransferTx, ins: seq<Value>) returns (ok: bool)
    ensures ok <==> ValidFor(tx, ins)
  {
    ok := CheckOwners(ins, tx.author);
    if !ok { return; }
    var depth := NextTransferDepth(ins);
    if depth.None? { return false; }
    ok := CheckOutputs(tx.outputs, depth.value);
    if !ok {
      WrongDepth(tx, ins, depth.value);
      return;
    }
    ok := CheckConservation(ins, tx.outputs);
    if !ok { return; }
    ok := CheckExpiryPropagation(ins, tx.outputs);
    if !ok { return; }
    if tx.id != TransferTxID(tx) { return false; }
    ok := Verify(tx.author, TransferPreimage(tx), tx.signature);
  }

  lemma WrongDepth(tx: TransferTx, ins: seq<Value>, d: uint32)
    requires IsNextDepth(ins, d) && !ValidOutputs(tx.outputs, d)
    ensures !ValidFor(tx, ins)
  {
    forall e | IsNextDepth(ins, e) ensures !ValidOutputs(tx.outputs, e) {
      NextDepthUnique(ins, d, e);
    }
  }

  method ValidateTransferTx(tx: TransferTx, values: seq<Value>) returns (ok: bool)
    ensures ok <==> ValidTransfer(tx, values)
  {
    if |tx.inputs| == 0 || |tx.outputs| == 0 { return false; }
    if |tx.inputs| != |values| { return false; }
    var ins := CanonicalInputsForTransfer(tx.inputs, values);
    if ins.None? { return false; }
    ok := ValidateInputs(tx, ins.value);
    forall other | Arranged(other, tx.inputs, values) ensures other == ins.value {
      ArrangedUnique(other, ins.value, tx.inputs, values);
    }
  }
}
