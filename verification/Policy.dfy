/** A node's acceptance policy for transfers, and what holds along any chain of transfers. */
module Policies {
  import opened Base
  import opened Model
  import opened Trades
  import opened Transfers

  /** Trust scores are compared, never computed with, so real numbers stand for them. */
  datatype Policy = Policy(trustedIssuers: map<NodeID, real>, minScore: real, maxDepth: uint32)

  datatype Evaluation = Accept(score: real) | Reject(score: real)

  predicate Expired(v: Value, now: int64) {
    v.expiryUnix != 0 && v.expiryUnix <= now
  }

  /** A value the policy will touch: not expired and not too deep. */
  predicate Usable(p: Policy, now: int64, v: Value) {
    !Expired(v, now) && v.depth <= p.maxDepth
  }

  predicate Trusted(p: Policy, v: Value) {
    v.issuer in p.trustedIssuers
  }

  predicate AllUsable(p: Policy, now: int64, values: seq<Value>) {
    forall i :: 0 <= i < |values| ==> Usable(p, now, values[i])
  }

  predicate AllTrusted(p: Policy, values: seq<Value>) {
    forall i :: 0 <= i < |values| ==> Trusted(p, values[i])
  }

  predicate TrustedEnough(p: Policy, values: seq<Value>) {
    AllTrusted(p, values) && forall i :: 0 <= i < |values| ==> p.trustedIssuers[values[i].issuer] >= p.minScore
  }

  ghost predicate Accepted(p: Policy, now: int64, tx: TransferTx, inputs: seq<Value>) {
    && ValidTransfer(tx, inputs)
    && AllUsable(p, now, inputs) && TrustedEnough(p, inputs) && AllUsable(p, now, tx.outputs)
  }

  /** score is the lowest trust among the issuers of the inputs. */
  predicate LowestTrust(p: Policy, inputs: seq<Value>, score: real) {
    && (forall i :: 0 <= i < |inputs| ==> Trusted(p, inputs[i]) && score <= p.trustedIssuers[inputs[i].issuer])
    && (exists i :: 0 <= i < |inputs| && score == p.trustedIssuers[inputs[i].issuer])
  }

  lemma ValidHasInputs(tx: TransferTx, inputs: seq<Value>)
    requires ValidTransfer(tx, inputs)
    ensures inputs != []
  {
    var ins :| Arranged(ins, tx.inputs, inputs);
  }

  /** The lowest trust among the inputs, if all are usable and from trusted issuers. */
  method JudgeInputs(p: Policy, now: int64, inputs: seq<Value>) returns (r: Option<real>)
    requires inputs != []
    ensures r.Some? <==> AllUsable(p, now, inputs) && AllTrusted(p, inputs)
    ensures r.Some? ==> LowestTrust(p, inputs, r.value)
  {
    var score := 0.0;
    for i := 0 to |inputs|
      invariant AllUsable(p, now, inputs[..i])
      invariant i > 0 ==> LowestTrust(p, inputs[..i], score)
    {
      if Expired(inputs[i], now) { return None; }
      if inputs[i].depth > p.maxDepth { return None; }
      if inputs[i].issuer !in p.trustedIssuers {
        assert !Trusted(p, inputs[i]);
        return None;
      }
      var trust := p.trustedIssuers[inputs[i].issuer];
      ghost var before := score;
      if i == 0 || trust < score { score := trust; }
      LowestTrustStep(p, inputs, i, before, score);
    }
    assert inputs[..|inputs|] == inputs;
    return Some(score);
  }

  method CheckUsable(p: Policy, now: int64, values: seq<Value>) returns (ok: bool)
    ensures ok <==> AllUsable(p, now, values)
  {
    for j := 0 to |values|
      invariant forall k :: 0 <= k < j ==> Usable(p, now, values[k])
    {
      if Expired(values[j], now) { return false; }
      if values[j].depth > p.maxDepth { return false; }
    }
    return true;
  }

  lemma LowestDecides(p: Policy, inputs: seq<Value>, score: real)
    requires LowestTrust(p, inputs, score)
    ensures TrustedEnough(p, inputs) <==> score >= p.minScore
  {}

  method EvaluateTransfer(p: Policy, now: int64, tx: TransferTx, inputs: seq<Value>) returns (r: Evaluation)
    ensures r.Accept? <==> Accepted(p, now, tx, inputs)
    ensures r.Accept? ==> LowestTrust(p, inputs, r.score)
    ensures r.Reject? ==>
      if ValidTransfer(tx, inputs) && AllUsable(p, now, inputs) && AllTrusted(p, inputs) && AllUsable(p, now, tx.outputs)
      then LowestTrust(p, inputs, r.score) && r.score < p.minScore else r.score == 0.0
  {
    var ok := ValidateTransferTx(tx, inputs);
    if !ok { return Reject(0.0); }
    ValidHasInputs(tx, inputs);
    var score := JudgeInputs(p, now, inputs);
    if score.None? { return Reject(0.0); }
    LowestDecides(p, inputs, score.value);
    ok := CheckUsable(p, now, tx.outputs);
    if !ok { return Reject(0.0); }
    if score.value < p.minScore { return Reject(score.value); }
    return Accept(score.value);
  }

  lemma LowestTrustStep(p: Policy, inputs: seq<Value>, i: nat, before: real, score: real)
    requires i < |inputs| && Trusted(p, inputs[i]) && (i > 0 ==> LowestTrust(p, inputs[..i], before))
    requires var trust := p.trustedIssuers[inputs[i].issuer]; score == if i == 0 || trust < before then trust else before
    ensures LowestTrust(p, inputs[..i + 1], score)
  {
    assert forall k :: 0 <= k < i ==> inputs[..i + 1][k] == inputs[..i][k];
    if score == p.trustedIssuers[inputs[i].issuer] {
      assert inputs[..i + 1][i] == inputs[i];
    } else {
      var k :| 0 <= k < i && score == p.trustedIssuers[inputs[..i][k].issuer];
      assert inputs[..i + 1][k] == inputs[..i][k];
    }
  }

  // ---- Chains ----

  /** A transfer together with the input it spends and the output it makes of it. */
  datatype Hop = Hop(tx: TransferTx, inputs: seq<Value>, spent: Value, made: Value)

  ghost predicate ValidHop(hop: Hop) {
    ValidTransfer(hop.tx, hop.inputs) && hop.spent in hop.inputs && hop.made in hop.tx.outputs
  }

  /** Each hop spends what the one before it made. */
  ghost predicate IsChain(hops: seq<Hop>) {
    && (forall k :: 0 <= k < |hops| ==> ValidHop(hops[k]))
    && (forall k :: 0 < k < |hops| ==> hops[k].spent == hops[k - 1].made)
  }

  lemma {:induction false} SetOfDistinct(values: seq<Value>)
    requires DistinctIds(values)
    ensures |set v | v in values| == |values|
  {
    if values == [] {
      assert (set v | v in values) == {};
    } else {
      var front, last := values[..|values| - 1], values[|values| - 1];
      SetOfDistinct(front);
      assert forall i :: 0 <= i < |front| ==> front[i] == values[i] && front[i].id != last.id;
      assert values == front + [last];
      assert (set v | v in values) == (set v | v in front) + {last};
    }
  }

  /** An arrangement of the inputs leaves none of them out. */
  lemma ArrangedCovers(ins: seq<Value>, ids: seq<ValueID>, values: seq<Value>, v: Value)
    requires Arranged(ins, ids, values) && v in values
    ensures v in ins
  {
    var s, t := set x | x in ins, set x | x in values;
    assert DistinctIds(ins);
    SetOfDistinct(ins);
    SetOfDistinct(values);
    assert s <= t;
    if v !in s {
      assert s <= t - {v};
      SubsetSize(s, t - {v});
    }
  }

  lemma ValidForFacts(tx: TransferTx, ins: seq<Value>, i: nat, j: nat)
    requires ValidFor(tx, ins) && i < |ins| && j < |tx.outputs|
    ensures tx.outputs[j].depth > ins[i].depth && Within(ins[i], tx.outputs[j])
  {
    var d :| IsNextDepth(ins, d) && ValidOutputs(tx.outputs, d);
    assert ValidOutput(tx.outputs[j], d);
  }

  lemma HopFacts(hop: Hop)
    requires ValidHop(hop)
    ensures hop.made.depth > hop.spent.depth
    ensures Within(hop.spent, hop.made)
  {
    var ins :| Arranged(ins, hop.tx.inputs, hop.inputs) && ValidFor(hop.tx, ins);
    ArrangedCovers(ins, hop.tx.inputs, hop.inputs, hop.spent);
    var i :| 0 <= i < |ins| && ins[i] == hop.spent;
    var j :| 0 <= j < |hop.tx.outputs| && hop.tx.outputs[j] == hop.made;
    ValidForFacts(hop.tx, ins, i, j);
  }

  /** What the links of a chain look like, without the transfers behind them. */
  ghost predicate Linked(hops: seq<Hop>) {
    && (forall k :: 0 <= k < |hops| ==> hops[k].made.depth > hops[k].spent.depth && Within(hops[k].spent, hops[k].made))
    && (forall k :: 0 < k < |hops| ==> hops[k].spent == hops[k - 1].made)
  }

  lemma ChainLinked(hops: seq<Hop>)
    requires IsChain(hops)
    ensures Linked(hops)
  {
    forall k | 0 <= k < |hops|
      ensures hops[k].made.depth > hops[k].spent.depth && Within(hops[k].spent, hops[k].made) {
      assert ValidHop(hops[k]);
      HopFacts(hops[k]);
    }
  }

  lemma {:induction false} LinkedDepth(hops: seq<Hop>)
    requires hops != [] && Linked(hops)
    ensures hops[|hops| - 1].made.depth >= hops[0].spent.depth + |hops|
    decreases |hops|
  {
    var n := |hops| - 1;
    if n > 0 { LinkedDepth(hops[..n]); }
  }

  /** Every hop deepens the value by at least one. */
  lemma ChainDepth(hops: seq<Hop>)
    requires hops != [] && IsChain(hops)
    ensures hops[|hops| - 1].made.depth >= hops[0].spent.depth + |hops|
  {
    ChainLinked(hops);
    LinkedDepth(hops);
  }

  ghost predicate KeepsKey(hops: seq<Hop>) {
    forall k :: 0 <= k < |hops| ==> SameKey(hops[k].spent, hops[k].made)
  }

  lemma {:induction false} LinkedExpiry(hops: seq<Hop>)
    requires hops != [] && Linked(hops) && KeepsKey(hops)
    ensures Within(hops[0].spent, hops[|hops| - 1].made) && SameKey(hops[0].spent, hops[|hops| - 1].made)
    decreases |hops|
  {
    var n := |hops| - 1;
    assert SameKey(hops[n].spent, hops[n].made);
    if n > 0 { LinkedExpiry(hops[..n]); }
  }

  /** Along a chain within one unit and issuer an expiry is never removed and never extended. */
  lemma ChainExpiry(hops: seq<Hop>)
    requires hops != [] && IsChain(hops) && KeepsKey(hops)
    ensures hops[0].spent.expiryUnix != 0 ==>
      0 != hops[|hops| - 1].made.expiryUnix <= hops[0].spent.expiryUnix
  {
    ChainLinked(hops);
    LinkedExpiry(hops);
  }

  /** What has expired stays expired, whatever is made of it. */
  lemma ExpiredForever(hops: seq<Hop>, now: int64)
    requires hops != [] && IsChain(hops) && KeepsKey(hops) && Expired(hops[0].spent, now)
    ensures Expired(hops[|hops| - 1].made, now)
  {
    ChainExpiry(hops);
  }

  ghost predicate AcceptedChain(p: Policy, times: seq<int64>, hops: seq<Hop>) {
    && IsChain(hops) && |times| == |hops|
    && forall k :: 0 <= k < |hops| ==> Accepted(p, times[k], hops[k].tx, hops[k].inputs)
  }

  lemma MadeIsUsable(p: Policy, now: int64, hop: Hop)
    requires Accepted(p, now, hop.tx, hop.inputs) && hop.made in hop.tx.outputs
    ensures Usable(p, now, hop.made)
  {}

  /** A policy accepts no chain longer than its depth limit. */
  lemma AcceptedChainBounded(p: Policy, times: seq<int64>, hops: seq<Hop>)
    requires AcceptedChain(p, times, hops)
    ensures |hops| <= p.maxDepth
  {
    if hops != [] {
      var n := |hops| - 1;
      ChainDepth(hops);
      assert ValidHop(hops[n]);
      MadeIsUsable(p, times[n], hops[n]);
    }
  }

  /** Nor one whose last hop comes at or after the expiry of the value it started from. */
  lemma AcceptedChainInTime(p: Policy, times: seq<int64>, hops: seq<Hop>)
    requires hops != [] && AcceptedChain(p, times, hops) && KeepsKey(hops)
    ensures hops[0].spent.expiryUnix != 0 ==> times[|hops| - 1] < hops[0].spent.expiryUnix
  {
    var n := |hops| - 1;
    ChainExpiry(hops);
    assert ValidHop(hops[n]);
    MadeIsUsable(p, times[n], hops[n]);
  }
}
