/** What recovery decides about every disk, field by field of the files it reads. */
module RecoveryVerdicts {
  import opened Base
  import opened Files
  import opened Recovery

  /** The trade got as far as its commit record or its committed manifest. */
  predicate Committing(fs: FS, id: TxID) {
    Committed(id) in fs || (Manifest(id) in fs && fs[Manifest(id)].ManifestDoc? && fs[Manifest(id)].phase.Committing?)
  }

  /** The disk with the trade marked and its other artifacts gone. */
  function Marked(fs: FS, id: TxID): FS {
    fs[Executed(id) := Record] - {Committed(id), Reservation(id), Manifest(id)}
  }

  /** A trade that is committing but not marked is marked by recovery exactly if its manifest parses, names the
      trade and lists its trade file, and every listed target exists, is the trade's own file with the trade's
      identifier, or a state file that names its own node, and parses. Otherwise recovery reports an error. */
  lemma CommittingVerdict(fs: FS, id: TxID)
    requires Executed(id) !in fs && Committing(fs, id)
    ensures RecoverOne(fs, id).Some? <==>
      && Manifest(id) in fs && fs[Manifest(id)].ManifestDoc?
      && fs[Manifest(id)].id == id && TradeFile(id) in fs[Manifest(id)].targets
      && forall t :: t in fs[Manifest(id)].targets ==>
           && t in fs
           && ((t == TradeFile(id) && fs[t].TradeDoc? && fs[t].authID == id)
               || ((t.Inventory? || t.Flow? || t.Prices?) && fs[t].StateDoc? && fs[t].node == t.node && fs[t].unitsParse))
    ensures RecoverOne(fs, id).Some? ==> RecoverOne(fs, id) == Some(Marked(fs, id))
  {
    if RecoverOne(fs, id).Some? {
      var ops := Plan(fs, id).value;
      assert ops[0] == WriteMarker(id) && ops[1..] == DropArtifacts(id);
      DropThree(fs[Executed(id) := Record], id);
    }
  }

  /** A trade that is marked loses its other artifacts; one that is not committing is left alone, unless its
      manifest does not parse or says anything but preparing, which is an error. */
  lemma OtherVerdicts(fs: FS, id: TxID)
    ensures Executed(id) in fs ==>
      RecoverOne(fs, id) == Some(fs - {Committed(id), Reservation(id), Manifest(id)})
    ensures Executed(id) !in fs && !Committing(fs, id) ==>
      RecoverOne(fs, id) ==
        if Manifest(id) in fs && !(fs[Manifest(id)].ManifestDoc? && fs[Manifest(id)].phase.Preparing?) then None
        else Some(fs)
  {
    DropThree(fs, id);
  }

  /** Recovery opens the store exactly if no trade on its own would stop it, in whatever order and however often
      the trades come up. */
  lemma {:induction false} OpensExactlyWhen(fs: FS, ids: seq<TxID>)
    ensures Recover(fs, ids).1 <==> forall id :: id in ids ==> RecoverOne(fs, id).Some?
    decreases |ids|
  {
    hide Plan;
    if ids != [] && Plan(fs, ids[0]).Some? {
      var x, g := ids[0], ApplyAll(fs, Plan(fs, ids[0]).value);
      OpensExactlyWhen(g, ids[1..]);
      forall id ensures RecoverOne(g, id).Some? <==> RecoverOne(fs, id).Some? {
        SamePlans(fs, x, id);
      }
      forall id | id in ids ensures id == x || id in ids[1..] {}
      assert forall id :: id in ids[1..] ==> id in ids;
    } else if ids != [] {
      assert ids[0] in ids && RecoverOne(fs, ids[0]).None?;
    }
  }

  lemma SamePlans(fs: FS, x: TxID, id: TxID)
    requires Plan(fs, x).Some?
    ensures Plan(ApplyAll(fs, Plan(fs, x).value), id).Some? <==> Plan(fs, id).Some?
  {
    var ops := Plan(fs, x).value;
    PlanIsOfId(fs, x, |ops|);
    OpsOfId(fs, ops, x);
    if id == x {
      RestartOne(fs, x, |ops|);
      assert ops[..|ops|] == ops;
    } else {
      PlanIsLocal(fs, ApplyAll(fs, ops), id);
    }
  }

  /** One bad target in the manifest of one committing trade keeps the store from opening. */
  lemma BadTargetCloses(fs: FS, ids: seq<TxID>, id: TxID, t: Path)
    requires id in ids && Executed(id) !in fs && Committing(fs, id)
    requires Manifest(id) in fs && fs[Manifest(id)].ManifestDoc? && t in fs[Manifest(id)].targets
    requires
      || t !in fs || fs[t].Corrupt?
      || (t.TradeFile? && (t.id != id || !fs[t].TradeDoc? || fs[t].authID != id))
      || ((t.Inventory? || t.Flow? || t.Prices?) && (!fs[t].StateDoc? || fs[t].node != t.node || !fs[t].unitsParse))
    ensures !Recover(fs, ids).1
  {
    CommittingVerdict(fs, id);
    OpensExactlyWhen(fs, ids);
  }
}
