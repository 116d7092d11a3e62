/** The transfer constructor, proved to satisfy the validator however the input values are listed. */
module NewTransfers {
  import opened Base
  import opened Model
  import opened Inventory
  import opened Trades
  import opened Transfers

  predicate OwnersPresent(outs: seq<Value>) {
    forall j :: 0 <= j < |outs| ==> outs[j].owner != ZERO_NODE_ID
  }

  /** What the constructor asks of its arguments. */
  ghost predicate Constructible(key: NodeID, inputs: seq<Value>, outputs: seq<Value>) {
    && inputs != [] && outputs != []
    && AllGenuine(inputs) && DistinctIds(inputs) && OwnedBy(inputs, key)
    && (exists d :: IsNextDepth(inputs, d))
    && OwnersPresent(outputs) && Conserves(inputs, outputs)
  }

  /** Two outputs that differ at most in identifier, depth and expiry. */
  predicate SameTerms(a: Value, b: Value) {
    a == b.(id := a.id, depth := a.depth, expiryUnix := a.expiryUnix)
  }

  predicate AllSameTerms(a: seq<Value>, b: seq<Value>) {
    |a| == |b| && forall j :: 0 <= j < |a| ==> SameTerms(a[j], b[j])
  }

  lemma {:induction false} SameTotals(a: seq<Value>, b: seq<Value>, u: UnitID)
    requires AllSameTerms(a, b)
    ensures Total(a, u) == Total(b, u)
    decreases |a|
  {
    if a != [] {
      var n := |a| - 1;
      assert SameTerms(a[n], b[n]);
      SameTotals(a[..n], b[..n], u);
    }
  }

  /** Conservation looks at units, issuers and amounts only. */
  lemma SameConservation(ins: seq<Value>, a: seq<Value>, b: seq<Value>)
    requires AllSameTerms(a, b)
    ensures Conserves(ins, a) <==> Conserves(ins, b)
  {
    forall u ensures Total(a, u) == Total(b, u) { SameTotals(a, b, u); }
    forall j | 0 <= j < |a|
      ensures a[j].amount == b[j].amount && a[j].unit == b[j].unit && a[j].issuer == b[j].issuer {
      assert SameTerms(a[j], b[j]);
    }
  }

  /** An output with its depth and its identifier filled in. */
  function Finish(v: Value, depth: uint32): Value {
    v.(depth := depth, id := ValueIDFor(v.(depth := depth)))
  }

  lemma FinishedIsGenuine(v: Value, depth: uint32)
    ensures Genuine(Finish(v, depth))
  {
    assert ValueFields(Finish(v, depth)) == ValueFields(v.(depth := depth));
  }

  /** Fills in depth and identifier of every output, in place, unless one has no owner. */
  method FinishOutputs(outs: seq<Value>, depth: uint32) returns (r: Option<seq<Value>>)
    ensures r.Some? <==> OwnersPresent(outs)
    ensures r.Some? ==> |r.value| == |outs| && forall j :: 0 <= j < |outs| ==> r.value[j] == Finish(outs[j], depth)
  {
    var result := outs;
    for j := 0 to |outs|
      invariant |result| == |outs|
      invariant forall k :: 0 <= k < j ==> outs[k].owner != ZERO_NODE_ID && result[k] == Finish(outs[k], depth)
      invariant forall k :: j <= k < |outs| ==> result[k] == outs[k]
    {
      if result[j].owner == ZERO_NODE_ID { return None; }
      result := result[j := Finish(result[j], depth)];
    }
    return Some(result);
  }

  function Ids(values: seq<Value>): (r: seq<ValueID>)
    ensures |r| == |values|
  {
    seq(|values|, i requires 0 <= i < |values| => values[i].id)
  }

  lemma OwnOrder(ins: seq<Value>, inputs: seq<Value>)
    requires Arranged(ins, Ids(inputs), inputs)
    ensures ins == inputs
  {
    forall i | 0 <= i < |inputs| ensures ins[i] == inputs[i] {
      assert ins[i].id == Ids(inputs)[i] == inputs[i].id;
      SameIdSameValue(inputs, ins[i], inputs[i]);
    }
  }

  lemma OwnOrderArranged(inputs: seq<Value>)
    requires AllGenuine(inputs) && DistinctIds(inputs)
    ensures Arranged(inputs, Ids(inputs), inputs)
  {}

  /** The outputs the constructor builds pass every check the validator makes of them. */
  lemma FinishedOutputsValid(ins: seq<Value>, outputs: seq<Value>, normal: seq<Value>, done: seq<Value>, depth: uint32)
    requires |normal| == |outputs| && forall j :: 0 <= j < |outputs| ==> Normalised(ins, outputs[j], normal[j])
    requires |done| == |normal| && OwnersPresent(normal)
    requires forall j :: 0 <= j < |normal| ==> done[j] == Finish(normal[j], depth)
    ensures AllSameTerms(done, outputs) && KeepsExpiry(ins, done)
    ensures Conserves(ins, done) ==> ValidOutputs(done, depth)
  {
    forall j | 0 <= j < |done| ensures SameTerms(done[j], outputs[j]) {
      assert Normalised(ins, outputs[j], normal[j]);
    }
    forall j | 0 <= j < |done| ensures done[j].owner != ZERO_NODE_ID && done[j].depth == depth && Genuine(done[j]) {
      FinishedIsGenuine(normal[j], depth);
    }
    forall i, j | 0 <= i < |ins| && 0 <= j < |done| ensures Within(ins[i], done[j]) {
      assert Normalised(ins, outputs[j], normal[j]);
      assert Within(ins[i], normal[j]);
    }
  }

  lemma NormalOwners(ins: seq<Value>, outputs: seq<Value>, normal: seq<Value>)
    requires |normal| == |outputs| && forall j :: 0 <= j < |outputs| ==> Normalised(ins, outputs[j], normal[j])
    ensures OwnersPresent(normal) <==> OwnersPresent(outputs)
  {
    forall j | 0 <= j < |outputs| ensures normal[j].owner == outputs[j].owner {
      assert Normalised(ins, outputs[j], normal[j]);
    }
  }

  /** Identifier and signature are outside the preimage, so filling them in leaves it alone. */
  function Signed(key: NodeID, draft: TransferTx): TransferTx {
    draft.(id := TransferTxID(draft), signature := Sign(key, TransferPreimage(draft)))
  }

  lemma SignedIsAuthentic(key: NodeID, draft: TransferTx)
    requires draft.author == key
    ensures Authentic(Signed(key, draft))
  {
    assert TransferFields(Signed(key, draft)) == TransferFields(draft);
  }

  lemma AcceptedInAnyOrder(tx: TransferTx, inputs: seq<Value>)
    requires tx.inputs == Ids(inputs) && inputs != [] && tx.outputs != []
    requires AllGenuine(inputs) && DistinctIds(inputs) && ValidFor(tx, inputs)
    ensures forall listing :: multiset(listing) == multiset(inputs) ==> ValidTransfer(tx, listing)
  {
    OwnOrderArranged(inputs);
    forall listing | multiset(listing) == multiset(inputs) ensures ValidTransfer(tx, listing) {
      ArrangedPermutation(inputs, tx.inputs, inputs, listing);
    }
  }

  /** An input whose expiry bounds that of an output of the same unit and issuer. */
  predicate Bounds(input: Value, asked: Value) {
    input.unit == asked.unit && input.issuer == asked.issuer && input.expiryUnix != 0
  }

  /** The expiry an output gets: the one asked for if no input of its key ends before it, else the earliest
      expiry among those inputs. */
  ghost predicate ExpirySettled(inputs: seq<Value>, asked: Value, expiry: int64) {
    if forall input :: input in inputs && Bounds(input, asked) ==> 0 != asked.expiryUnix <= input.expiryUnix
    then expiry == asked.expiryUnix
    else
      && (exists input :: input in inputs && Bounds(input, asked) && input.expiryUnix == expiry)
      && (forall input :: input in inputs && Bounds(input, asked) ==> expiry <= input.expiryUnix)
  }

  lemma NormalisedSettles(ins: seq<Value>, out: Value, result: Value)
    requires Normalised(ins, out, result)
    ensures ExpirySettled(ins, out, result.expiryUnix)
  {
    var asked := forall input :: input in ins && Bounds(input, out) ==> 0 != out.expiryUnix <= input.expiryUnix;
    if asked {
      forall i | 0 <= i < |ins| ensures Within(ins[i], out) { assert ins[i] in ins; }
    } else {
      var input :| input in ins && Bounds(input, out) && !(0 != out.expiryUnix <= input.expiryUnix);
      var k :| 0 <= k < |ins| && ins[k] == input;
      assert Within(ins[k], result) && !Within(ins[k], out);
      assert Attained(ins, KeyOf(out), result.expiryUnix);
      var i :| 0 <= i < |ins| && KeyOf(ins[i]) == KeyOf(out) && ins[i].expiryUnix == result.expiryUnix;
      assert ins[i] in ins && Bounds(ins[i], out);
      forall other | other in ins && Bounds(other, out) ensures result.expiryUnix <= other.expiryUnix {
        var m :| 0 <= m < |ins| && ins[m] == other;
        assert Within(ins[m], result);
      }
    }
  }

  lemma DepthOverInputs(inputs: seq<Value>, depth: uint32)
    requires inputs != [] && IsNextDepth(inputs, depth)
    ensures forall input :: input in inputs ==> input.depth < depth
    ensures exists input :: input in inputs && depth == input.depth + 1
  {
    var i :| 0 <= i < |inputs| && depth == inputs[i].depth + 1;
    assert inputs[i] in inputs;
  }

  /** Every output has its expiry settled and is one deeper than the deepest input. */
  ghost predicate AllSettled(inputs: seq<Value>, outputs: seq<Value>, results: seq<Value>) {
    |results| == |outputs| && forall j :: 0 <= j < |outputs| ==>
      && ExpirySettled(inputs, outputs[j], results[j].expiryUnix)
      && (forall input :: input in inputs ==> input.depth < results[j].depth)
      && (exists input :: input in inputs && results[j].depth == input.depth + 1)
  }

  lemma OutputsSettled(inputs: seq<Value>, outputs: seq<Value>, normal: seq<Value>, done: seq<Value>, depth: uint32)
    requires |normal| == |outputs| && forall j :: 0 <= j < |outputs| ==> Normalised(inputs, outputs[j], normal[j])
    requires |done| == |normal| && forall j :: 0 <= j < |normal| ==> done[j] == Finish(normal[j], depth)
    requires inputs != [] && IsNextDepth(inputs, depth)
    ensures AllSettled(inputs, outputs, done)
  {
    hide Normalised, ExpirySettled, IsNextDepth;
    DepthOverInputs(inputs, depth);
    forall j | 0 <= j < |outputs|
      ensures ExpirySettled(inputs, outputs[j], done[j].expiryUnix) && done[j].depth == depth
    {
      NormalisedSettles(inputs, outputs[j], normal[j]);
    }
  }

  /** Builds and signs a transfer. It succeeds exactly on constructible arguments, keeps the order of
      the inputs and the terms of the outputs, settles their expiry and depth, and the validator accepts
      what it returns with the input values in any order. */
  method NewTransferTx(key: NodeID, inputs: seq<Value>, outputs: seq<Value>) returns (r: Option<TransferTx>)
    ensures r.Some? <==> Constructible(key, inputs, outputs)
    ensures r.Some? ==> r.value.author == key && r.value.inputs == Ids(inputs) && AllSameTerms(r.value.outputs, outputs)
    ensures r.Some? ==> AllSettled(inputs, outputs, r.value.outputs)
    ensures r.Some? ==> forall listing :: multiset(listing) == multiset(inputs) ==> ValidTransfer(r.value, listing)
  {
    hide AllSettled, Normalised;
    if |inputs| == 0 || |outputs| == 0 { return None; }
    var canonical := CanonicalInputsForTransfer(Ids(inputs), inputs);
    if canonical.None? {
      if AllGenuine(inputs) && DistinctIds(inputs) { OwnOrderArranged(inputs); }
      return None;
    }
    var ins := canonical.value;
    OwnOrder(ins, inputs);
    var owned := CheckOwners(ins, key);
    if !owned { return None; }
    var depth := NextTransferDepth(ins);
    if depth.None? { return None; }
    var normal := NormalizeTransferOutputExpiries(ins, outputs);
    NormalOwners(ins, outputs, normal);
    var finished := FinishOutputs(normal, depth.value);
    if finished.None? { return None; }
    var done := finished.value;
    FinishedOutputsValid(ins, outputs, normal, done, depth.value);
    SameConservation(ins, done, outputs);
    var conserved := CheckConservation(ins, done);
    if !conserved { return None; }
    var draft := TransferTx(ZERO_TX_ID, Ids(ins), done, key, NoSig);
    var tx := Signed(key, draft);
    SignedIsAuthentic(key, draft);
    assert ValidFor(tx, inputs);
    AcceptedInAnyOrder(tx, inputs);
    OutputsSettled(inputs, outputs, normal, done, depth.value);
    return Some(tx);
  }
}
