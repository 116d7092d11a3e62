/** What a call that meets no I/O error leaves on the disk, down to the last file. */
module CleanRuns {
  import opened Base
  import opened Files
  import opened Persist
  import opened PersistSafety
  import opened PersistRuns
  import opened LateCalls
  import I = Interleaving

  /** Nothing on the disk has the names the call will draw, or is left of an earlier manifest write. */
  ghost predicate NamesFree(fs: FS, id: TxID, nonce: nat) {
    && ManifestTmp(id) !in fs
    && forall i: nat :: Tmp(nonce, i) !in fs && Backup(nonce, i) !in fs
  }

  predicate Committing(pc: Pc) {
    AtRecord(pc) || AtTail(pc) || pc.Done?
  }

  /** The backup of slot i may be there. */
  predicate MayBackUp(c: Call, i: nat) {
    i < |c.staged| &&
      match c.pc
      case AsideDrop(j) => c.staged[i].backup || i == j
      case Cleanup(j) => c.staged[i].backup && i >= j
      case DropCommitted => false
      case DropManifest(_) => false
      case Release(_) => false
      case Done(_) => false
      case _ => c.staged[i].backup
  }

  /** On the forward path, temporary files belong to slots not installed yet, backups to slots moved aside and not
      yet cleaned up, and once the committed manifest is there every slot is installed. */
  ghost predicate Tidy(fs: FS, c: Call) {
    && (forall i: nat :: Tmp(c.nonce, i) in fs ==> i < |c.staged| && !c.staged[i].installed)
    && (forall i: nat :: Backup(c.nonce, i) in fs ==> MayBackUp(c, i))
    && (Committing(c.pc) ==> forall j :: 0 <= j < |c.staged| ==> c.staged[j].installed)
    && (ManifestTmp(c.id) in fs ==> c.pc.ManRename?)
    && (I.Won(c.pc) ==> Executed(c.id) in fs && fs[Executed(c.id)] == Record)
  }

  lemma EarlyTidy(base: FS, fs: FS, c: Call)
    requires Inv(base, fs, c) && !Failing(c.pc) && Tidy(fs, c)
    ensures AtReserve(c.pc) ==>
      var r := ReserveStep(fs, c, Good); !Failing(r.call.pc) ==> Tidy(r.fs, r.call)
    ensures c.pc.Stage? ==> var r := StageStep(fs, c, Good); Tidy(r.fs, r.call)
  {
    hide Frame, TargetsAt;
  }

  lemma ManifestTidy(base: FS, fs: FS, c: Call)
    requires Inv(base, fs, c) && AtManifest(c.pc) && Tidy(fs, c)
    ensures var r := ManifestStep(fs, c, Good); Tidy(r.fs, r.call)
  {
    hide Frame;
    if c.pc == ManRename(Phase.Committing) { assert Forward(fs, c, |c.staged|); }
  }

  lemma InstallTidy(base: FS, fs: FS, c: Call)
    requires Inv(base, fs, c) && AtInstall(c.pc) && Tidy(fs, c)
    ensures var r := InstallStep(fs, c, Good); Failing(r.call.pc) || Tidy(r.fs, r.call)
  {
    hide Frame, TargetsAt, Artifacts;
    if c.pc.i < |c.batch| { DocTargets(c.id, c.batch, c.pc.i); }
  }

  lemma LateTidy(base: FS, fs: FS, c: Call)
    requires Inv(base, fs, c) && !Failing(c.pc) && Tidy(fs, c)
    ensures AtRecord(c.pc) ==> var r := RecordStep(fs, c, Good); Failing(r.call.pc) || Tidy(r.fs, r.call)
    ensures AtTail(c.pc) ==> var r := TailStep(fs, c, Good); Tidy(r.fs, r.call)
  {
    hide Frame, TargetsAt;
  }

  lemma StepTidy(base: FS, fs: FS, c: Call)
    requires Inv(base, fs, c) && !Failing(c.pc) && !c.pc.Done? && Tidy(fs, c)
    ensures var r := Step(fs, c, Good); Tidy(r.fs, r.call)
  {
    hide Tidy, Inv, ReserveStep, ManifestStep, StageStep, InstallStep, RecordStep, TailStep;
    assert SlotInRange(c) by { InvInRange(base, fs, c); }
    GoodStep(base, fs, c);
    if AtReserve(c.pc) || c.pc.Stage? { EarlyTidy(base, fs, c); }
    else if AtManifest(c.pc) { ManifestTidy(base, fs, c); }
    else if AtInstall(c.pc) { InstallTidy(base, fs, c); }
    else { LateTidy(base, fs, c); }
  }

  lemma InvInRange(base: FS, fs: FS, c: Call)
    requires Inv(base, fs, c)
    ensures SlotInRange(c)
  {}

  lemma {:induction false} RunTidy(run: seq<Config>, ios: seq<IO>, base: FS, id: TxID, batch: seq<Doc>, nonce: nat,
                                   k: nat)
    requires IsRun(run, ios) && NoFault(ios) && StartsClean(run, base, id, batch, nonce) && NamesFree(base, id, nonce)
    requires k < |run|
    ensures Tidy(run[k].fs, run[k].call) && Inv(base, run[k].fs, run[k].call) && !Failing(run[k].call.pc)
    ensures run[k].call.id == id && run[k].call.batch == batch && run[k].call.nonce == nonce
  {
    hide Step, Tidy, Inv, NamesFree, Failing;
    RunKeeps(run, ios, base, id, batch, nonce, k);
    if k == 0 {
      BeginsTidy(base, id, batch, nonce);
    } else {
      RunTidy(run, ios, base, id, batch, nonce, k - 1);
      assert ios[k - 1] == Good;
      StepTidy(base, run[k - 1].fs, run[k - 1].call);
      InvInRange(base, run[k - 1].fs, run[k - 1].call);
    }
  }

  lemma BeginsTidy(base: FS, id: TxID, batch: seq<Doc>, nonce: nat)
    requires NamesFree(base, id, nonce) && !HasExecuted(base, id)
    ensures Tidy(base, Begin(id, batch, nonce))
  {}

  /** A call that starts without evidence and with unused names and meets no I/O error leaves exactly the batch
      and the executed marker: no backup, no temporary file, no other artifact, and every other file is as it
      was. */
  lemma CleanRunLeaves(run: seq<Config>, ios: seq<IO>, base: FS, id: TxID, batch: seq<Doc>, nonce: nat)
    requires IsRun(run, ios) && NoFault(ios) && StartsClean(run, base, id, batch, nonce) && NamesFree(base, id, nonce)
    requires run[|ios|].call.pc.Done?
    ensures run[|ios|].fs == Put(base, batch)[Executed(id) := Record]
  {
    hide Step, NamesFree;
    RunTidy(run, ios, base, id, batch, nonce, |ios|);
    ReturnContract(run, ios, base, id, batch, nonce);
    SuccessLeaves(run, ios, base, id, batch, nonce);
    var fs, c := run[|ios|].fs, run[|ios|].call;
    var expected := Put(base, batch)[Executed(id) := Record];
    forall p ensures (p in fs <==> p in expected) && (p in fs ==> fs[p] == expected[p]) {
      SamePath(base, fs, c, p);
    }
  }

  /** Path by path. */
  lemma SamePath(base: FS, fs: FS, c: Call, p: Path)
    requires Inv(base, fs, c) && Tidy(fs, c) && c.pc == Done(true) && !HasExecuted(base, c.id)
    requires NamesFree(base, c.id, c.nonce) && Targets(fs) == Put(Targets(base), c.batch)
    requires Committed(c.id) !in fs && Manifest(c.id) !in fs && Reservation(c.id) !in fs
    ensures var expected := Put(base, c.batch)[Executed(c.id) := Record];
      (p in fs <==> p in expected) && (p in fs ==> fs[p] == expected[p])
  {
    hide Inv;
    assert ValidBatch(c.id, c.batch) && Frame(base, fs, c) by { InvParts(base, fs, c); }
    PutAt(base, c.batch, p);
    if IsTarget(p) {
      forall i | 0 <= i < |c.batch| ensures IsTarget(c.batch[i].path) { DocTargets(c.id, c.batch, i); }
      PutTargets(base, c.batch);
      assert p in fs <==> p in Targets(fs);
      assert p in Put(base, c.batch) <==> p in Targets(Put(base, c.batch));
    } else {
      forall i | 0 <= i < |c.batch| ensures c.batch[i].path != p { DocTargets(c.id, c.batch, i); }
    }
  }

  lemma InvParts(base: FS, fs: FS, c: Call)
    requires Inv(base, fs, c)
    ensures ValidBatch(c.id, c.batch) && Frame(base, fs, c)
  {}

  lemma {:induction false} PutTargets(fs: FS, docs: seq<Doc>)
    requires forall i :: 0 <= i < |docs| ==> IsTarget(docs[i].path)
    ensures Targets(Put(fs, docs)) == Put(Targets(fs), docs)
  {
    if docs != [] {
      var n := |docs| - 1;
      PutTargets(fs, docs[..n]);
      TargetsOfWrite(Put(fs, docs[..n]), docs[n].path, docs[n].content);
    }
  }
}
