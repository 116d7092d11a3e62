/** What a call leaves behind and when: replay evidence from the first installed target on, the marks of
    other trades, and the one fault that leaves new targets behind a failure. */
module PersistEvidence {
  import opened Base
  import opened Files
  import opened Persist
  import opened PersistSafety
  import opened PersistRuns
  import I = Interleaving

  // ---- Evidence from the first installed target on ----

  /** Some target of the call has been installed. */
  predicate Installed(c: Call) {
    exists j :: 0 <= j < |c.staged| && c.staged[j].installed
  }

  /** The call has failed, nothing of it is on disk, and no commit record tells of it. */
  predicate Gone(fs: FS, c: Call) {
    (c.pc == DropManifest(false) || c.pc == Release(false) || c.pc == Done(false)) && Committed(c.id) !in fs
  }

  lemma InstallKeepsInstalled(fs: FS, c: Call, io: IO)
    requires SlotInRange(c) && AtInstall(c.pc) && Installed(c)
    ensures Installed(InstallStep(fs, c, io).call)
  {
    var j :| 0 <= j < |c.staged| && c.staged[j].installed;
    assert InstallStep(fs, c, io).call.staged[j].installed;
  }

  /** The slots remember what was installed, also through a rollback. */
  lemma StepKeepsInstalled(fs: FS, c: Call, io: IO)
    requires SlotInRange(c) && !c.pc.Done? && Installed(c)
    ensures Installed(Step(fs, c, io).call)
  {
    if AtInstall(c.pc) {
      InstallKeepsInstalled(fs, c, io);
    } else {
      var j :| 0 <= j < |c.staged| && c.staged[j].installed;
      assert Step(fs, c, io).call.staged[j].installed;
    }
  }

  lemma GoneEarly(fs: FS, c: Call, io: IO)
    requires SlotInRange(c)
    ensures AtReserve(c.pc) ==> ReserveStep(fs, c, io).call.staged == c.staged == []
    ensures AtManifest(c.pc) ==>
      var r := ManifestStep(fs, c, io); Gone(r.fs, r.call) ==> r.call.staged == c.staged == []
    ensures c.pc.Stage? ==> var r := StageStep(fs, c, io); !Gone(r.fs, r.call)
    ensures AtInstall(c.pc) ==> var r := InstallStep(fs, c, io); !Gone(r.fs, r.call)
  {}

  lemma GoneLate(fs: FS, c: Call, io: IO)
    requires SlotInRange(c) && Artifacts(fs, c)
    ensures AtRecord(c.pc) ==> var r := RecordStep(fs, c, io); !Gone(r.fs, r.call)
    ensures AtTail(c.pc) ==>
      var r := TailStep(fs, c, io); Gone(r.fs, r.call) ==> r.call.staged == c.staged && Gone(fs, c)
  {}

  lemma GoneFrom(base: FS, fs: FS, c: Call, io: IO)
    requires Inv(base, fs, c) && !c.pc.Done?
    ensures var r := Step(fs, c, io);
      Gone(r.fs, r.call) ==> AtRollback(c.pc) || (r.call.staged == c.staged && (Gone(fs, c) || c.staged == []))
  {
    hide Frame, TargetsAt, Artifacts, Gone;
    hide ReserveStep, ManifestStep, StageStep, InstallStep, RecordStep, RollbackStep, TailStep;
    GoneEarly(fs, c, io);
    GoneLate(fs, c, io);
  }

  /** A call with an installed target comes to be gone only by rolling back. */
  lemma GoneByRollback(base: FS, fs: FS, c: Call, io: IO)
    requires Inv(base, fs, c) && !c.pc.Done?
    ensures var r := Step(fs, c, io);
      Gone(r.fs, r.call) && Installed(r.call) ==> AtRollback(c.pc) || (Gone(fs, c) && Installed(c))
  {
    hide Step, Inv, Gone;
    GoneFrom(base, fs, c, io);
  }

  lemma {:induction false} GoneAfterRollback(run: seq<Config>, ios: seq<IO>, base: FS, id: TxID, batch: seq<Doc>,
                                             nonce: nat, k: nat)
    requires IsRun(run, ios) && OneFault(ios) && StartsClean(run, base, id, batch, nonce) && k < |run|
    requires Installed(run[k].call) && Gone(run[k].fs, run[k].call)
    ensures exists m :: 0 <= m < k && AtRollback(run[m].call.pc)
  {
    hide Step, Inv, Installed;
    if k > 0 {
      RunKeeps(run, ios, base, id, batch, nonce, k - 1);
      assert run[k] == Step(run[k - 1].fs, run[k - 1].call, ios[k - 1]);
      GoneByRollback(base, run[k - 1].fs, run[k - 1].call, ios[k - 1]);
      if !AtRollback(run[k - 1].call.pc) { GoneAfterRollback(run, ios, base, id, batch, nonce, k - 1); }
    }
  }

  lemma {:induction false} StaysInstalled(run: seq<Config>, ios: seq<IO>, j: nat, k: nat)
    requires IsRun(run, ios) && j <= k < |run| && Installed(run[j].call)
    ensures Installed(run[k].call)
  {
    hide Step, Installed;
    if j < k {
      StaysInstalled(run, ios, j, k - 1);
      StepKeepsInstalled(run[k - 1].fs, run[k - 1].call, ios[k - 1]);
    }
  }

  /** From the moment a target is installed there is replay evidence at every later moment of the run, until
      the call has rolled back, put every target back and returned. */
  lemma EvidenceDuringRun(run: seq<Config>, ios: seq<IO>, base: FS, id: TxID, batch: seq<Doc>, nonce: nat, j: nat,
                          k: nat)
    requires IsRun(run, ios) && OneFault(ios) && StartsClean(run, base, id, batch, nonce)
    requires j <= k < |run| && Installed(run[j].call)
    ensures HasExecuted(run[k].fs, id) || (
      run[k].call.pc == Done(false) && Targets(run[k].fs) == Targets(base)
      && exists m :: 0 <= m < k && AtRollback(run[m].call.pc))
  {
    hide Step, Inv, Installed;
    RunKeeps(run, ios, base, id, batch, nonce, k);
    StaysInstalled(run, ios, j, k);
    EvidenceOrGone(base, run[k].fs, run[k].call);
    if !HasExecuted(run[k].fs, id) { GoneAfterRollback(run, ios, base, id, batch, nonce, k); }
  }

  lemma EvidenceOrGone(base: FS, fs: FS, c: Call)
    requires Inv(base, fs, c) && Installed(c)
    ensures HasExecuted(fs, c.id) || (c.pc == Done(false) && Gone(fs, c) && Targets(fs) == Targets(base))
  {}

  // ---- The fault that leaves new targets behind a failure ----

  /** While the executed marker was not refused (told is false) a failed call leaves no commit record; once
      it was, the commit record stays. */
  predicate Told(fs: FS, c: Call, told: bool) {
    match c.pc
    case MarkUndo => told
    case DropManifest(ok) => if ok then !told else told == (Committed(c.id) in fs)
    case Release(ok) => if ok then !told else told == (Committed(c.id) in fs)
    case Done(ok) => if ok then !told else told == (Committed(c.id) in fs)
    case _ => !told
  }

  /** Creating the executed marker fails. */
  predicate RefusesMarker(c: Call, io: IO) {
    c.pc.Mark? && !io.Good?
  }

  lemma EarlyTells(fs: FS, c: Call, io: IO)
    requires SlotInRange(c) && Artifacts(fs, c)
    ensures AtReserve(c.pc) ==> var r := ReserveStep(fs, c, io); Told(r.fs, r.call, false)
    ensures AtManifest(c.pc) ==> var r := ManifestStep(fs, c, io); Told(r.fs, r.call, false)
    ensures c.pc.Stage? ==> var r := StageStep(fs, c, io); Told(r.fs, r.call, false)
    ensures AtInstall(c.pc) ==> var r := InstallStep(fs, c, io); Told(r.fs, r.call, false)
  {}

  lemma LateTells(fs: FS, c: Call, io: IO, told: bool)
    requires SlotInRange(c) && ValidBatch(c.id, c.batch) && Artifacts(fs, c) && Told(fs, c, told)
    requires Undoing(c.pc) ==> io.Good?
    ensures AtRecord(c.pc) ==> var r := RecordStep(fs, c, io); Told(r.fs, r.call, told || RefusesMarker(c, io))
    ensures AtRollback(c.pc) ==> var r := RollbackStep(fs, c, io); Told(r.fs, r.call, told)
    ensures AtTail(c.pc) ==> var r := TailStep(fs, c, io); Told(r.fs, r.call, told)
  {
    if AtRollback(c.pc) && c.pc.i < |c.batch| { DocTargets(c.id, c.batch, c.pc.i); }
  }

  lemma StepTells(base: FS, fs: FS, c: Call, io: IO, told: bool)
    requires Inv(base, fs, c) && !c.pc.Done? && Told(fs, c, told)
    requires Undoing(c.pc) ==> io.Good?
    ensures var r := Step(fs, c, io); Told(r.fs, r.call, told || RefusesMarker(c, io))
  {
    hide Frame, TargetsAt, Artifacts;
    hide ReserveStep, ManifestStep, StageStep, InstallStep, RecordStep, RollbackStep, TailStep;
    EarlyTells(fs, c, io);
    LateTells(fs, c, io, told);
  }

  /** The executed marker was refused within the first k operations. */
  ghost predicate MarkerRefused(run: seq<Config>, ios: seq<IO>, k: nat)
    requires k <= |ios| < |run|
  {
    exists m :: 0 <= m < k && RefusesMarker(run[m].call, ios[m])
  }

  lemma {:induction false} RunTells(run: seq<Config>, ios: seq<IO>, base: FS, id: TxID, batch: seq<Doc>, nonce: nat,
                                    k: nat)
    requires IsRun(run, ios) && OneFault(ios) && StartsClean(run, base, id, batch, nonce) && k <= |ios|
    ensures Told(run[k].fs, run[k].call, MarkerRefused(run, ios, k))
  {
    hide Step, Inv, Told, RefusesMarker;
    if k == 0 {
      assert Told(base, Begin(id, batch, nonce), false) by { BeginTells(base, id, batch, nonce); }
      assert !MarkerRefused(run, ios, 0);
    } else {
      RunTells(run, ios, base, id, batch, nonce, k - 1);
      RunKeeps(run, ios, base, id, batch, nonce, k - 1);
      RunKeeps(run, ios, base, id, batch, nonce, k);
      UndoingIsGood(run, ios, base, id, batch, nonce, k - 1);
      StepTells(base, run[k - 1].fs, run[k - 1].call, ios[k - 1], MarkerRefused(run, ios, k - 1));
      assert MarkerRefused(run, ios, k) <==>
        MarkerRefused(run, ios, k - 1) || RefusesMarker(run[k - 1].call, ios[k - 1]);
    }
  }

  lemma BeginTells(base: FS, id: TxID, batch: seq<Doc>, nonce: nat)
    ensures Told(base, Begin(id, batch, nonce), false)
  {}

  /** The one fault is spent by the time a call is undoing. */
  lemma UndoingIsGood(run: seq<Config>, ios: seq<IO>, base: FS, id: TxID, batch: seq<Doc>, nonce: nat, k: nat)
    requires IsRun(run, ios) && OneFault(ios) && StartsClean(run, base, id, batch, nonce) && k < |ios|
    ensures Undoing(run[k].call.pc) ==> ios[k].Good?
  {
    hide Step, Inv;
    RunKeeps(run, ios, base, id, batch, nonce, k);
  }

  /** A failed call with at most one I/O error leaves the new targets, and replay evidence, exactly when what
      failed was the executed marker. */
  lemma FailureMeans(run: seq<Config>, ios: seq<IO>, base: FS, id: TxID, batch: seq<Doc>, nonce: nat)
    requires IsRun(run, ios) && OneFault(ios) && StartsClean(run, base, id, batch, nonce)
    requires run[|ios|].call.pc == Done(false)
    ensures HasExecuted(run[|ios|].fs, id) <==> MarkerRefused(run, ios, |ios|)
    ensures Targets(run[|ios|].fs)
         == if MarkerRefused(run, ios, |ios|) then Put(Targets(base), batch) else Targets(base)
  {
    hide Step, MarkerRefused;
    RunTells(run, ios, base, id, batch, nonce, |ios|);
    RunKeeps(run, ios, base, id, batch, nonce, |ios|);
  }

  // ---- Other trades, whatever fails ----

  /** Whatever the answers, a call keeps to its own files, and once it has won its marker is there. */
  lemma {:induction false} RunStaysHome(run: seq<Config>, ios: seq<IO>, base: FS, id: TxID, batch: seq<Doc>, nonce: nat,
                                        k: nat)
    requires IsRun(run, ios) && ValidBatch(id, batch) && run[0] == Config(base, Begin(id, batch, nonce)) && k < |run|
    ensures run[k].call.id == id && run[k].call.batch == batch && run[k].call.nonce == nonce
    ensures Frame(base, run[k].fs, run[k].call)
    ensures I.Won(run[k].call.pc) ==> Executed(id) in run[k].fs
  {
    hide Step, Frame, I.Won;
    if k == 0 {
      assert Frame(base, base, Begin(id, batch, nonce)) && !I.Won(Check) by { BeginsHome(base, id, batch, nonce); }
    } else {
      RunStaysHome(run, ios, base, id, batch, nonce, k - 1);
      StepFrame(base, run[k - 1].fs, run[k - 1].call, ios[k - 1]);
      StepWins(run[k - 1].fs, run[k - 1].call, ios[k - 1]);
    }
  }

  lemma BeginsHome(base: FS, id: TxID, batch: seq<Doc>, nonce: nat)
    ensures Frame(base, base, Begin(id, batch, nonce)) && !I.Won(Check)
  {}

  lemma StepWins(fs: FS, c: Call, io: IO)
    requires SlotInRange(c) && !c.pc.Done? && ValidBatch(c.id, c.batch)
    requires I.Won(c.pc) ==> Executed(c.id) in fs
    ensures var r := Step(fs, c, io); I.Won(r.call.pc) ==> Executed(c.id) in r.fs
  {
    hide Step;
    if I.InSection(c.pc) { I.InsideStep(fs, c, io); } else { I.OutsideStep(fs, c, io); }
  }

  /** A call leaves the evidence of every other trade as it was, and one that succeeds leaves evidence of its
      own, whatever fails on the way. */
  lemma OthersEvidence(run: seq<Config>, ios: seq<IO>, base: FS, id: TxID, batch: seq<Doc>, nonce: nat)
    requires IsRun(run, ios) && ValidBatch(id, batch) && run[0] == Config(base, Begin(id, batch, nonce))
    ensures forall other :: other != id ==> (HasExecuted(run[|ios|].fs, other) <==> HasExecuted(base, other))
    ensures run[|ios|].call.pc == Done(true) ==> HasExecuted(run[|ios|].fs, id)
  {
    hide Step;
    RunStaysHome(run, ios, base, id, batch, nonce, |ios|);
    var c := run[|ios|].call;
    forall other | other != id ensures HasExecuted(run[|ios|].fs, other) <==> HasExecuted(base, other) {
      assert !Owned(c, Executed(other)) && !Owned(c, Committed(other));
      assert !Owned(c, Reservation(other)) && !Owned(c, Manifest(other));
    }
  }
}
