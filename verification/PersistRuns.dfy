/** Whole runs of one call: what it returns, what it leaves, and the replay evidence on the way. */
module PersistRuns {
  import opened Base
  import opened Files
  import opened Persist
  import opened PersistSafety

  /** A run: configuration k + 1 follows from configuration k by one operation answered with ios[k]. */
  ghost predicate IsRun(run: seq<Config>, ios: seq<IO>) {
    && |run| == |ios| + 1
    && (forall k :: 0 <= k < |run| ==> SlotInRange(run[k].call))
    && (forall k :: 0 <= k < |ios| ==>
          !run[k].call.pc.Done? && run[k + 1] == Step(run[k].fs, run[k].call, ios[k]))
  }

  predicate OneFault(ios: seq<IO>) {
    forall j, k :: 0 <= j < k < |ios| ==> ios[j].Good? || ios[k].Good?
  }

  predicate NoFault(ios: seq<IO>) {
    forall k :: 0 <= k < |ios| ==> ios[k].Good?
  }

  ghost predicate StartsClean(run: seq<Config>, base: FS, id: TxID, batch: seq<Doc>, nonce: nat) {
    && |run| > 0
    && ValidBatch(id, batch)
    && !HasExecuted(base, id)
    && run[0] == Config(base, Begin(id, batch, nonce))
  }

  predicate Failing(pc: Pc) {
    Undoing(pc) || pc == Done(false)
  }

  lemma GoodReserve(base: FS, fs: FS, c: Call)
    requires Inv(base, fs, c) && AtReserve(c.pc) && !Failing(c.pc)
    ensures !Failing(ReserveStep(fs, c, Good).call.pc)
  {
  }

  lemma GoodInstall(base: FS, fs: FS, c: Call)
    requires Inv(base, fs, c) && AtInstall(c.pc)
    ensures !Failing(InstallStep(fs, c, Good).call.pc)
  {
    if c.pc.Install? {
      assert Tmp(c.nonce, c.pc.i) in fs;
    } else if c.pc.AsideMove? {
      assert c.batch[c.pc.i].path in Targets(fs);
    }
  }

  lemma GoodOther(base: FS, fs: FS, c: Call)
    requires Inv(base, fs, c) && !Failing(c.pc)
    ensures AtManifest(c.pc) ==> !Failing(ManifestStep(fs, c, Good).call.pc)
    ensures AtRecord(c.pc) ==> !Failing(RecordStep(fs, c, Good).call.pc)
    ensures c.pc.Stage? ==> !Failing(StageStep(fs, c, Good).call.pc)
    ensures AtTail(c.pc) ==> !Failing(TailStep(fs, c, Good).call.pc)
  {
    hide Frame, TargetsAt;
  }

  /** Operations that succeed never lead a call off its forward path. */
  lemma GoodStep(base: FS, fs: FS, c: Call)
    requires Inv(base, fs, c) && !c.pc.Done? && !Failing(c.pc)
    ensures !Failing(Step(fs, c, Good).call.pc)
  {
    hide Frame, TargetsAt, Artifacts;
    hide ReserveStep, ManifestStep, StageStep, InstallStep, RecordStep, RollbackStep, TailStep;
    if AtReserve(c.pc) { GoodReserve(base, fs, c); }
    else if AtInstall(c.pc) { GoodInstall(base, fs, c); }
    else { GoodOther(base, fs, c); }
  }

  /** Every configuration of a run with at most one fault satisfies the invariant, and the call is
      undoing only after the fault. */
  lemma {:induction false} RunKeeps(run: seq<Config>, ios: seq<IO>, base: FS, id: TxID, batch: seq<Doc>, nonce: nat,
                                    k: nat)
    requires IsRun(run, ios) && OneFault(ios) && StartsClean(run, base, id, batch, nonce)
    requires k < |run|
    ensures Inv(base, run[k].fs, run[k].call)
    ensures run[k].call.id == id && run[k].call.batch == batch
    ensures Failing(run[k].call.pc) ==> exists j :: 0 <= j < k && !ios[j].Good?
  {
    if k == 0 {
      InvBegin(base, id, batch, nonce);
    } else {
      RunKeeps(run, ios, base, id, batch, nonce, k - 1);
      var c := run[k - 1];
      StepKeeps(base, c.fs, c.call, ios[k - 1]);
      if ios[k - 1].Good? && !Failing(c.call.pc) {
        GoodStep(base, c.fs, c.call);
      }
    }
  }

  /** Return contract. A lone call that starts with no artifact for its id and suffers at most one I/O
      error ends with the new targets exactly when the trade counts as executed, and with the old ones
      otherwise; success is reported only in the first case, and without errors always. */
  lemma ReturnContract(run: seq<Config>, ios: seq<IO>, base: FS, id: TxID, batch: seq<Doc>, nonce: nat)
    requires IsRun(run, ios) && OneFault(ios) && StartsClean(run, base, id, batch, nonce)
    requires run[|run| - 1].call.pc.Done?
    ensures var last := run[|run| - 1];
            && Targets(last.fs) == (if HasExecuted(last.fs, id) then Put(Targets(base), batch) else Targets(base))
            && (last.call.pc.ok ==> HasExecuted(last.fs, id))
            && (NoFault(ios) ==> last.call.pc.ok)
  {
    RunKeeps(run, ios, base, id, batch, nonce, |run| - 1);
  }

  /** Replay evidence. At every moment of such a run, targets that differ from the old ones are
      accompanied by evidence that the trade executed. */
  lemma EvidenceOfChange(run: seq<Config>, ios: seq<IO>, base: FS, id: TxID, batch: seq<Doc>, nonce: nat, k: nat)
    requires IsRun(run, ios) && OneFault(ios) && StartsClean(run, base, id, batch, nonce)
    requires k < |run| && Targets(run[k].fs) != Targets(base)
    ensures HasExecuted(run[k].fs, id)
  {
    RunKeeps(run, ios, base, id, batch, nonce, k);
    EvidenceAt(base, run[k].fs, run[k].call);
  }

  lemma EvidenceAt(base: FS, fs: FS, c: Call)
    requires Inv(base, fs, c) && Targets(fs) != Targets(base)
    ensures HasExecuted(fs, c.id)
  {
  }
}
