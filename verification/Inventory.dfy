/** Holdings per owner and unit, with the checked 64-bit arithmetic every update goes through. */
module Inventory {
  import opened Base
  import opened Model

  type Holdings = map<NodeID, map<UnitID, Amount>>

  function CheckedAdd(a: Amount, b: Amount): (r: Option<Amount>)
    ensures r.Some? <==> -TWO_63 <= a + b <= MAX_INT64
    ensures r.Some? ==> r.value == a + b
  {
    if (b > 0 && a > MAX_INT64 - b) || (b < 0 && a < -TWO_63 - b) then None else Some(a + b)
  }

  /** A missing owner or unit holds nothing. */
  function Cell(h: Holdings, node: NodeID, unit: UnitID): Amount {
    if node in h && unit in h[node] then h[node][unit] else 0
  }

  function Put(h: Holdings, node: NodeID, unit: UnitID, amount: Amount): Holdings {
    h[node := (if node in h then h[node] else map[])[unit := amount]]
  }

  lemma CellAfterPut(h: Holdings, node: NodeID, unit: UnitID, amount: Amount, n: NodeID, u: UnitID)
    ensures Cell(Put(h, node, unit, amount), n, u) == if n == node && u == unit then amount else Cell(h, n, u)
  {}

  /** What all owners together hold of a unit. */
  ghost function Supply(h: Holdings, unit: UnitID): int {
    if h == map[] then 0
    else
      var node :| node in h;
      Cell(h, node, unit) + Supply(h - {node}, unit)
  }

  lemma {:induction false} SupplyWithout(h: Holdings, node: NodeID, unit: UnitID)
    requires node in h
    ensures Supply(h, unit) == Cell(h, node, unit) + Supply(h - {node}, unit)
  {
    var first :| first in h && Supply(h, unit) == Cell(h, first, unit) + Supply(h - {first}, unit);
    if first != node {
      SupplyWithout(h - {first}, node, unit);
      SupplyWithout(h - {node}, first, unit);
      assert h - {node} - {first} == h - {first} - {node};
      assert Cell(h - {first}, node, unit) == Cell(h, node, unit);
      assert Cell(h - {node}, first, unit) == Cell(h, first, unit);
    }
  }

  /** Writing one cell changes the supply of its unit by the difference and no other supply. */
  lemma SupplyAfterPut(h: Holdings, node: NodeID, unit: UnitID, amount: Amount, u: UnitID)
    ensures Supply(Put(h, node, unit, amount), u)
         == Supply(h, u) + (if u == unit then amount - Cell(h, node, unit) else 0)
  {
    var after := Put(h, node, unit, amount);
    SupplyWithout(after, node, u);
    assert after - {node} == h - {node};
    assert Cell(after, node, u) == if u == unit then amount else Cell(h, node, u);
    if node in h {
      SupplyWithout(h, node, u);
    } else {
      assert h - {node} == h;
    }
  }

  class InventoryState {
    var Holdings: Holdings

    constructor ()
      ensures Holdings == map[]
    {
      Holdings := map[];
    }

    function Get(node: NodeID, unit: UnitID): Amount
      reads this
    {
      Cell(Holdings, node, unit)
    }

    /** Fails on an amount that is not positive and on overflow, changing nothing. */
    method AddChecked(node: NodeID, unit: UnitID, amount: Amount) returns (ok: bool)
      modifies this
      ensures ok <==> amount > 0 && old(Get(node, unit)) + amount <= MAX_INT64
      ensures ok ==> Holdings == Put(old(Holdings), node, unit, old(Get(node, unit)) + amount)
      ensures !ok ==> Holdings == old(Holdings)
    {
      if amount <= 0 { return false; }
      var before := Get(node, unit);
      if node !in Holdings { Holdings := Holdings[node := map[]]; }
      var next := CheckedAdd(before, amount);
      if next.None? { return false; }
      var units: map<UnitID, Amount> := Holdings[node][unit := next.value];
      Holdings := Holdings[node := units];
      return true;
    }

    /** Fails on an amount that is not positive or not covered, changing nothing. A holding that is
        spent completely stays behind as a zero. */
    method Sub(node: NodeID, unit: UnitID, amount: Amount) returns (ok: bool)
      modifies this
      ensures ok <==> amount > 0 && old(Get(node, unit)) >= amount
      ensures ok ==> Holdings == Put(old(Holdings), node, unit, old(Get(node, unit)) - amount)
      ensures !ok ==> Holdings == old(Holdings)
    {
      if amount <= 0 { return false; }
      var current := Get(node, unit);
      if node !in Holdings { return false; }
      if current < amount { return false; }
      var next: Amount := current - amount;
      var units: map<UnitID, Amount> := Holdings[node][unit := next];
      Holdings := Holdings[node := units];
      return true;
    }

    /** A copy that shares nothing with the original. */
    method Copy() returns (out: InventoryState)
      ensures fresh(out) && out.Holdings == Holdings
    {
      out := new InventoryState();
      var nodes := Holdings.Keys;
      while nodes != {}
        invariant nodes <= Holdings.Keys
        invariant fresh(out) && out.Holdings == Holdings - nodes
        decreases |nodes|
      {
        var node :| node in nodes;
        var units := CopyUnits(Holdings[node]);
        nodes := nodes - {node};
        out.Holdings := out.Holdings[node := units];
        assert out.Holdings == Holdings - nodes;
      }
    }
  }

  method CopyUnits(holding: map<UnitID, Amount>) returns (copied: map<UnitID, Amount>)
    ensures copied == holding
  {
    copied := map[];
    var units := holding.Keys;
    while units != {}
      invariant units <= holding.Keys && copied == holding - units
      decreases |units|
    {
      var unit :| unit in units;
      units := units - {unit};
      copied := copied[unit := holding[unit]];
      assert copied == holding - units;
    }
  }
}
