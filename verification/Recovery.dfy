/** Recovery at start-up, and why repeating or interrupting it makes no difference. */
module Recovery {
  import opened Base
  import opened Files

  /** A manifest target that reads back as what the transaction should have written there. */
  predicate TargetValid(fs: FS, id: TxID, t: Path) {
    && t in fs
    && match t
       case TradeFile(n) => n == id && fs[t].TradeDoc? && fs[t].authID == id
       case Inventory(n) => fs[t].StateDoc? && fs[t].node == n && fs[t].unitsParse
       case Flow(n) => fs[t].StateDoc? && fs[t].node == n && fs[t].unitsParse
       case Prices(n) => fs[t].StateDoc? && fs[t].node == n && fs[t].unitsParse
       case _ => false
  }

  predicate Verified(fs: FS, id: TxID, manifest: Content)
    requires manifest.ManifestDoc?
  {
    && manifest.id == id
    && manifest.targets != []
    && (forall t :: t in manifest.targets ==> TargetValid(fs, id, t))
    && TradeFile(id) in manifest.targets
  }

  /** The file operations recovery performs. */
  datatype Op = WriteMarker(id: TxID) | Drop(path: Path)

  function Apply(fs: FS, op: Op): FS {
    match op
    case WriteMarker(id) => fs[Executed(id) := Record]
    case Drop(p) => fs - {p}
  }

  function ApplyAll(fs: FS, ops: seq<Op>): FS
    decreases |ops|
  {
    if ops == [] then fs else ApplyAll(Apply(fs, ops[0]), ops[1..])
  }

  function DropArtifacts(id: TxID): seq<Op> {
    [Drop(Committed(id)), Drop(Reservation(id)), Drop(Manifest(id))]
  }

  /** What recovery does for one transaction id; None is the error that stops the store from opening. */
  function Plan(fs: FS, id: TxID): Option<seq<Op>> {
    if Executed(id) in fs then Some(DropArtifacts(id))
    else
      var hasManifest := Manifest(id) in fs;
      if hasManifest && !fs[Manifest(id)].ManifestDoc? then None
      else if Committed(id) in fs || (hasManifest && fs[Manifest(id)].phase.Committing?) then
        if !hasManifest || !Verified(fs, id, fs[Manifest(id)]) then None
        else Some([WriteMarker(id)] + DropArtifacts(id))
      else if hasManifest && !fs[Manifest(id)].phase.Preparing? then None
      else Some([])
  }

  function RecoverOne(fs: FS, id: TxID): Option<FS> {
    match Plan(fs, id)
    case None => None
    case Some(ops) => Some(ApplyAll(fs, ops))
  }

  /** The disk and whether the store opened, after recovery has worked through `entries`. */
  function Recover(fs: FS, entries: seq<TxID>): (FS, bool)
    decreases |entries|
  {
    if entries == [] then (fs, true)
    else
      match RecoverOne(fs, entries[0])
      case None => (fs, false)
      case Some(next) => Recover(next, entries[1..])
  }

  /** The directory listing: `ids` are all transaction ids in file name order, and each of the four file
      names that carries an id contributes an entry if it exists. */
  function Listing(fs: FS, ids: seq<TxID>): seq<TxID>
    decreases |ids|
  {
    if ids == [] then []
    else seq(Names(fs, ids[0]), _ => ids[0]) + Listing(fs, ids[1..])
  }

  function Names(fs: FS, id: TxID): nat {
    (if Committed(id) in fs then 1 else 0) + (if Reservation(id) in fs then 1 else 0)
    + (if TradeFile(id) in fs then 1 else 0) + (if Manifest(id) in fs then 1 else 0)
  }

  // ---- One id ----

  predicate SameArtifacts(f: FS, g: FS, id: TxID) {
    && (Executed(id) in f <==> Executed(id) in g)
    && (Committed(id) in f <==> Committed(id) in g)
    && (Reservation(id) in f <==> Reservation(id) in g)
    && (Manifest(id) in f <==> Manifest(id) in g)
    && (Manifest(id) in f ==> f[Manifest(id)] == g[Manifest(id)])
  }

  lemma PlanIsLocal(f: FS, g: FS, id: TxID)
    requires SameArtifacts(f, g, id) && Targets(f) == Targets(g)
    ensures Plan(f, id) == Plan(g, id)
  {
    forall t: Path | IsTarget(t)
      ensures TargetValid(f, id, t) <==> TargetValid(g, id, t)
    {
      assert t in f <==> t in Targets(f);
      assert t in g <==> t in Targets(g);
      assert t in f ==> f[t] == Targets(f)[t] && g[t] == Targets(g)[t];
    }
    if Manifest(id) in f && f[Manifest(id)].ManifestDoc? {
      var m := f[Manifest(id)];
      forall t | t in m.targets ensures TargetValid(f, id, t) <==> TargetValid(g, id, t) {}
    }
  }

  /** An operation belongs to an id when it touches only that id's artifacts. */
  predicate OpOf(op: Op, id: TxID) {
    match op
    case WriteMarker(t) => t == id
    case Drop(p) => p == Committed(id) || p == Reservation(id) || p == Manifest(id)
  }

  lemma {:induction false} OpsOfId(fs: FS, ops: seq<Op>, id: TxID)
    requires forall k :: 0 <= k < |ops| ==> OpOf(ops[k], id)
    ensures Targets(ApplyAll(fs, ops)) == Targets(fs)
    ensures forall other :: other != id ==> SameArtifacts(fs, ApplyAll(fs, ops), other)
    ensures Executed(id) in fs ==> Executed(id) in ApplyAll(fs, ops)
    decreases |ops|
  {
    if ops != [] {
      assert Targets(Apply(fs, ops[0])) == Targets(fs);
      OpsOfId(Apply(fs, ops[0]), ops[1..], id);
      forall other | other != id ensures SameArtifacts(fs, ApplyAll(fs, ops), other) {
        var next := Apply(fs, ops[0]);
        assert SameArtifacts(fs, next, other) && SameArtifacts(next, ApplyAll(next, ops[1..]), other);
      }
    }
  }

  lemma PlanIsOfId(fs: FS, id: TxID, k: nat)
    requires Plan(fs, id).Some? && k <= |Plan(fs, id).value|
    ensures forall j :: 0 <= j < k ==> OpOf(Plan(fs, id).value[j], id)
  {
  }

  /** Recovery would change nothing for this id. */
  predicate Stable(fs: FS, id: TxID) {
    RecoverOne(fs, id) == Some(fs)
  }

  /** Interrupting the work on one id and starting over gives the result of doing it at once, and doing
      it again changes nothing. */
  lemma RestartOne(fs: FS, id: TxID, k: nat)
    requires Plan(fs, id).Some? && k <= |Plan(fs, id).value|
    ensures RecoverOne(ApplyAll(fs, Plan(fs, id).value[..k]), id) == RecoverOne(fs, id)
    ensures Stable(RecoverOne(fs, id).value, id)
  {
    var ops := Plan(fs, id).value;
    if Executed(id) in fs {
      ThreeDrops(fs, id, k);
    } else if |ops| == 4 {
      MarkAndDrop(fs, id, k);
    } else {
      assert ops[..k] == [];
    }
  }

  lemma ThreeDrops(fs: FS, id: TxID, k: nat)
    requires Executed(id) in fs && k <= 3
    ensures var part := ApplyAll(fs, DropArtifacts(id)[..k]);
            && Executed(id) in part
            && ApplyAll(part, DropArtifacts(id)) == ApplyAll(fs, DropArtifacts(id))
    ensures Stable(ApplyAll(fs, DropArtifacts(id)), id)
  {
    var c, r, m := Drop(Committed(id)), Drop(Reservation(id)), Drop(Manifest(id));
    var all := fs - {Committed(id), Reservation(id), Manifest(id)};
    DropThree(fs, id);
    DropThree(all, id);
    assert all - {Committed(id), Reservation(id), Manifest(id)} == all;
    if k == 0 { assert DropArtifacts(id)[..0] == []; }
    else if k == 1 {
      assert DropArtifacts(id)[..1] == [c];
      DropThree(fs - {Committed(id)}, id);
      assert fs - {Committed(id)} - {Committed(id), Reservation(id), Manifest(id)} == all;
    } else if k == 2 {
      assert DropArtifacts(id)[..2] == [c, r];
      var part := fs - {Committed(id)} - {Reservation(id)};
      assert ApplyAll(fs, [c, r]) == ApplyAll(fs - {Committed(id)}, [r]) == part;
      DropThree(part, id);
      assert part - {Committed(id), Reservation(id), Manifest(id)} == all;
    } else {
      assert DropArtifacts(id)[..3] == DropArtifacts(id);
    }
  }

  lemma DropThree(fs: FS, id: TxID)
    ensures ApplyAll(fs, DropArtifacts(id)) == fs - {Committed(id), Reservation(id), Manifest(id)}
  {
    var c, r, m := Drop(Committed(id)), Drop(Reservation(id)), Drop(Manifest(id));
    var f1 := fs - {Committed(id)};
    var f2 := f1 - {Reservation(id)};
    assert [c, r, m][1..] == [r, m];
    assert [r, m][1..] == [m];
    assert ApplyAll(f2, [m]) == f2 - {Manifest(id)};
    assert ApplyAll(f1, [r, m]) == ApplyAll(f2, [m]);
    assert ApplyAll(fs, [c, r, m]) == ApplyAll(f1, [r, m]);
  }

  lemma MarkAndDrop(fs: FS, id: TxID, k: nat)
    requires k <= 4
    requires Plan(fs, id) == Some([WriteMarker(id)] + DropArtifacts(id))
    ensures RecoverOne(ApplyAll(fs, Plan(fs, id).value[..k]), id) == RecoverOne(fs, id)
    ensures Stable(RecoverOne(fs, id).value, id)
  {
    var ops := Plan(fs, id).value;
    var marked := fs[Executed(id) := Record];
    assert ops[1..] == DropArtifacts(id);
    assert ApplyAll(fs, ops) == ApplyAll(marked, DropArtifacts(id));
    if k == 0 {
      assert ops[..0] == [];
      ThreeDrops(marked, id, 0);
    } else {
      assert ops[..k][0] == WriteMarker(id) && ops[..k][1..] == DropArtifacts(id)[..k - 1];
      assert ApplyAll(fs, ops[..k]) == ApplyAll(marked, DropArtifacts(id)[..k - 1]);
      ThreeDrops(marked, id, k - 1);
    }
  }

  /** Work on any id, complete or interrupted, leaves a stable id stable. */
  lemma StableKeeps(fs: FS, id: TxID, other: TxID, k: nat)
    requires Stable(fs, id)
    requires Plan(fs, other).Some? && k <= |Plan(fs, other).value|
    ensures Stable(ApplyAll(fs, Plan(fs, other).value[..k]), id)
  {
    var ops := Plan(fs, other).value;
    PlanIsOfId(fs, other, k);
    OpsOfId(fs, ops[..k], other);
    var g := ApplyAll(fs, ops[..k]);
    if id == other {
      RestartOne(fs, id, k);
      StableOps(fs, id, k);
    } else {
      PlanIsLocal(fs, g, id);
      StablePlan(fs, id);
      StableWhenIdle(g, id);
    }
  }

  /** A stable id has nothing left to drop. */
  predicate Idle(fs: FS, id: TxID) {
    if Executed(id) in fs then Committed(id) !in fs && Reservation(id) !in fs && Manifest(id) !in fs
    else Plan(fs, id) == Some([])
  }

  lemma StablePlan(fs: FS, id: TxID)
    requires Stable(fs, id)
    ensures Idle(fs, id)
  {
    var ops := Plan(fs, id).value;
    if Executed(id) in fs {
      DropThree(fs, id);
      assert fs == fs - {Committed(id), Reservation(id), Manifest(id)};
    } else if |ops| == 4 {
      assert ops[1..] == DropArtifacts(id);
      DropThree(fs[Executed(id) := Record], id);
    }
  }

  lemma StableWhenIdle(fs: FS, id: TxID)
    requires Idle(fs, id)
    ensures Stable(fs, id)
  {
    if Executed(id) in fs {
      DropThree(fs, id);
      assert fs == fs - {Committed(id), Reservation(id), Manifest(id)};
    }
  }

  lemma StableOps(fs: FS, id: TxID, k: nat)
    requires Stable(fs, id) && k <= |Plan(fs, id).value|
    ensures ApplyAll(fs, Plan(fs, id).value[..k]) == fs
  {
    StablePlan(fs, id);
    if Executed(id) in fs {
      var c, r, m := Drop(Committed(id)), Drop(Reservation(id)), Drop(Manifest(id));
      assert fs - {Committed(id)} == fs && fs - {Reservation(id)} == fs && fs - {Manifest(id)} == fs;
      assert DropArtifacts(id)[..k] == [c, r, m][..k];
      NoOps(fs, [c, r, m][..k]);
    } else {
      assert Plan(fs, id).value[..k] == [];
    }
  }

  lemma {:induction false} NoOps(fs: FS, ops: seq<Op>)
    requires forall j :: 0 <= j < |ops| ==> Apply(fs, ops[j]) == fs
    ensures ApplyAll(fs, ops) == fs
    decreases |ops|
  {
    if ops != [] { NoOps(fs, ops[1..]); }
  }

  // ---- All ids ----

  /** The disk when recovery has finished the first j ids and stops after k operations on the next. */
  function Interrupted(fs: FS, ids: seq<TxID>, j: nat, k: nat): Option<FS>
    requires j < |ids|
    decreases |ids|
  {
    match Plan(fs, ids[0])
    case None => None
    case Some(ops) =>
      if j > 0 then Interrupted(ApplyAll(fs, ops), ids[1..], j - 1, k)
      else if k <= |ops| then Some(ApplyAll(fs, ops[..k]))
      else None
  }

  lemma {:induction false} InterruptedKeepsStable(fs: FS, ids: seq<TxID>, j: nat, k: nat, id: TxID)
    requires j < |ids| && Interrupted(fs, ids, j, k).Some?
    requires Stable(fs, id)
    ensures Stable(Interrupted(fs, ids, j, k).value, id)
    decreases |ids|
  {
    var ops := Plan(fs, ids[0]).value;
    if j == 0 {
      StableKeeps(fs, id, ids[0], k);
    } else {
      StableKeeps(fs, id, ids[0], |ops|);
      assert ops[..|ops|] == ops;
      InterruptedKeepsStable(ApplyAll(fs, ops), ids[1..], j - 1, k, id);
    }
  }

  /** Crashing anywhere inside recovery and recovering again gives the disk and the outcome of one
      uninterrupted recovery. */
  lemma {:induction false} RecoveryRestarts(fs: FS, ids: seq<TxID>, j: nat, k: nat)
    requires j < |ids| && Interrupted(fs, ids, j, k).Some?
    ensures Recover(Interrupted(fs, ids, j, k).value, ids) == Recover(fs, ids)
    decreases |ids|
  {
    var ops := Plan(fs, ids[0]).value;
    if j == 0 {
      RestartOne(fs, ids[0], k);
    } else {
      var g := ApplyAll(fs, ops);
      RestartOne(fs, ids[0], 0);
      InterruptedKeepsStable(g, ids[1..], j - 1, k, ids[0]);
      RecoveryRestarts(g, ids[1..], j - 1, k);
    }
  }

  lemma {:induction false} RecoverKeepsStable(fs: FS, ids: seq<TxID>, id: TxID)
    requires Stable(fs, id)
    ensures Stable(Recover(fs, ids).0, id)
    decreases |ids|
  {
    if ids != [] && Plan(fs, ids[0]).Some? {
      var ops := Plan(fs, ids[0]).value;
      StableKeeps(fs, id, ids[0], |ops|);
      assert ops[..|ops|] == ops;
      RecoverKeepsStable(ApplyAll(fs, ops), ids[1..], id);
    }
  }

  /** Recovery is idempotent, whether it succeeds or not. */
  lemma {:induction false} RecoveryIdempotent(fs: FS, ids: seq<TxID>)
    ensures Recover(Recover(fs, ids).0, ids) == Recover(fs, ids)
    decreases |ids|
  {
    if ids != [] && Plan(fs, ids[0]).Some? {
      var next := RecoverOne(fs, ids[0]).value;
      RestartOne(fs, ids[0], 0);
      RecoverKeepsStable(next, ids[1..], ids[0]);
      RecoveryIdempotent(next, ids[1..]);
    }
  }

  // ---- The directory listing ----

  predicate Distinct(ids: seq<TxID>) {
    forall i, j :: 0 <= i < j < |ids| ==> ids[i] != ids[j]
  }

  lemma {:induction false} RecoverRepeats(fs: FS, id: TxID, n: nat, rest: seq<TxID>)
    requires Stable(fs, id)
    ensures Recover(fs, seq(n, _ => id) + rest) == Recover(fs, rest)
  {
    var entries := seq(n, _ => id) + rest;
    if n == 0 {
      assert entries == rest;
    } else {
      assert entries[1..] == seq(n - 1, _ => id) + rest;
      RecoverRepeats(fs, id, n - 1, rest);
    }
  }

  lemma UnlistedIsStable(fs: FS, id: TxID)
    requires Names(fs, id) == 0
    ensures Stable(fs, id)
  {
    StableWhenIdle(fs, id);
  }

  /** Working through the listing taken at the start, with its repeated and missing ids, amounts to
      recovering every id once. */
  lemma {:induction false} ListingCoversIds(start: FS, fs: FS, ids: seq<TxID>)
    requires Distinct(ids)
    requires Targets(fs) == Targets(start)
    requires forall id :: id in ids ==> SameArtifacts(start, fs, id)
    ensures Recover(fs, Listing(start, ids)) == Recover(fs, ids)
    decreases |ids|
  {
    if ids != [] {
      var id, n, rest := ids[0], Names(start, ids[0]), Listing(start, ids[1..]);
      SameNames(start, fs, id);
      if Plan(fs, id).None? {
        if n == 0 { UnlistedIsStable(fs, id); }
        assert Listing(start, ids)[0] == id;
      } else {
        var next := RecoverOne(fs, id).value;
        RestartOne(fs, id, 0);
        NextSame(start, fs, ids);
        if n == 0 {
          UnlistedIsStable(fs, id);
          assert Listing(start, ids) == rest;
        } else {
          assert Listing(start, ids)[1..] == seq(n - 1, _ => id) + rest;
          RecoverRepeats(next, id, n - 1, rest);
        }
        ListingCoversIds(start, next, ids[1..]);
      }
    }
  }

  /** A crash while working through the listing leaves the disk as a crash while working through the
      ids would. */
  lemma {:induction false} ListingInterrupted(start: FS, fs: FS, ids: seq<TxID>, j: nat, k: nat)
    returns (i: nat, m: nat)
    requires Distinct(ids)
    requires Targets(fs) == Targets(start)
    requires forall id :: id in ids ==> SameArtifacts(start, fs, id)
    requires j < |Listing(start, ids)| && Interrupted(fs, Listing(start, ids), j, k).Some?
    ensures i < |ids| && Interrupted(fs, ids, i, m) == Interrupted(fs, Listing(start, ids), j, k)
    decreases |ids|
  {
    var id, n, rest := ids[0], Names(start, ids[0]), Listing(start, ids[1..]);
    SameNames(start, fs, id);
    if n == 0 {
      UnlistedIsStable(fs, id);
      assert Listing(start, ids) == rest;
      i, m := ListingInterrupted(start, fs, ids[1..], j, k);
      i := i + 1;
    } else {
      var ops := Plan(fs, id).value;
      if j == 0 {
        i, m := 0, k;
      } else {
        InterruptedListed(fs, id, n, rest, j, k);
        if j < n {
          assert ops[..|ops|] == ops;
          i, m := 0, |ops|;
        } else {
          NextSame(start, fs, ids);
          i, m := ListingInterrupted(start, ApplyAll(fs, ops), ids[1..], j - n, k);
          i := i + 1;
        }
      }
    }
  }

  /** Past the first entry of an id, its other entries contribute nothing. */
  lemma InterruptedListed(fs: FS, id: TxID, n: nat, rest: seq<TxID>, j: nat, k: nat)
    requires 0 < j < n + |rest| && n > 0 && Plan(fs, id).Some?
    requires Interrupted(fs, seq(n, _ => id) + rest, j, k).Some?
    ensures Interrupted(fs, seq(n, _ => id) + rest, j, k) ==
            if j < n then RecoverOne(fs, id) else Interrupted(RecoverOne(fs, id).value, rest, j - n, k)
  {
    var entries, tail := seq(n, _ => id) + rest, seq(n - 1, _ => id) + rest;
    var next := RecoverOne(fs, id).value;
    RestartOne(fs, id, 0);
    assert entries[0] == id && entries[1..] == tail;
    if j < n {
      InterruptedRepeats(next, id, n - 1, rest, j - 1, k);
    } else {
      InterruptedPastRepeats(next, id, n - 1, rest, j - 1, k);
    }
  }

  lemma SameNames(start: FS, fs: FS, id: TxID)
    requires Targets(fs) == Targets(start) && SameArtifacts(start, fs, id)
    ensures Names(fs, id) == Names(start, id)
  {
    assert TradeFile(id) in fs <==> TradeFile(id) in Targets(fs);
    assert TradeFile(id) in start <==> TradeFile(id) in Targets(start);
  }

  lemma NextSame(start: FS, fs: FS, ids: seq<TxID>)
    requires Distinct(ids) && ids != [] && Plan(fs, ids[0]).Some?
    requires Targets(fs) == Targets(start)
    requires forall id :: id in ids ==> SameArtifacts(start, fs, id)
    ensures var next := ApplyAll(fs, Plan(fs, ids[0]).value);
            && Targets(next) == Targets(start)
            && forall id :: id in ids[1..] ==> SameArtifacts(start, next, id)
  {
    var ops := Plan(fs, ids[0]).value;
    var next := ApplyAll(fs, ops);
    PlanIsOfId(fs, ids[0], |ops|);
    OpsOfId(fs, ops, ids[0]);
    forall other | other in ids[1..] ensures SameArtifacts(start, next, other) {
      assert SameArtifacts(start, fs, other) && SameArtifacts(fs, next, other);
    }
  }

  lemma {:induction false} InterruptedRepeats(fs: FS, id: TxID, n: nat, rest: seq<TxID>, j: nat, k: nat)
    requires Stable(fs, id) && j < n
    requires Interrupted(fs, seq(n, _ => id) + rest, j, k).Some?
    ensures Interrupted(fs, seq(n, _ => id) + rest, j, k) == Some(fs)
    decreases n
  {
    var entries := seq(n, _ => id) + rest;
    assert entries[0] == id && entries[1..] == seq(n - 1, _ => id) + rest;
    if j > 0 {
      InterruptedRepeats(fs, id, n - 1, rest, j - 1, k);
    } else {
      StableOps(fs, id, k);
    }
  }

  lemma {:induction false} InterruptedPastRepeats(fs: FS, id: TxID, n: nat, rest: seq<TxID>, j: nat, k: nat)
    requires Stable(fs, id) && n <= j < n + |rest|
    ensures Interrupted(fs, seq(n, _ => id) + rest, j, k) == Interrupted(fs, rest, j - n, k)
    decreases n
  {
    var entries := seq(n, _ => id) + rest;
    if n == 0 {
      assert entries == rest;
    } else {
      assert entries[0] == id && entries[1..] == seq(n - 1, _ => id) + rest;
      InterruptedPastRepeats(fs, id, n - 1, rest, j - 1, k);
    }
  }
}
