/** Every operation of a call keeps its invariant, with at most one I/O error. */
module PersistSafety {
  import opened Base
  import opened Files
  import opened Persist

  lemma DocTargets(id: TxID, batch: seq<Doc>, i: nat)
    requires ValidBatch(id, batch) && i < |batch|
    ensures IsTarget(batch[i].path)
  {
    assert ValidDoc(id, batch[i]);
  }

  // ---- A call writes only paths it owns ----

  predicate Untouched(fs: FS, next: FS, p: Path) {
    (p in next <==> p in fs) && (p in next ==> next[p] == fs[p])
  }

  lemma InstallForeign(fs: FS, c: Call, io: IO, p: Path)
    requires ValidBatch(c.id, c.batch) && SlotInRange(c) && AtInstall(c.pc) && !Owned(c, p)
    ensures Untouched(fs, InstallStep(fs, c, io).fs, p)
  {
    if c.pc.i < |c.batch| { DocTargets(c.id, c.batch, c.pc.i); }
  }

  lemma RollbackForeign(fs: FS, c: Call, io: IO, p: Path)
    requires ValidBatch(c.id, c.batch) && SlotInRange(c) && AtRollback(c.pc) && !Owned(c, p)
    ensures Untouched(fs, RollbackStep(fs, c, io).fs, p)
  {
    if c.pc.i < |c.batch| { DocTargets(c.id, c.batch, c.pc.i); }
  }

  lemma OtherForeign(fs: FS, c: Call, io: IO, p: Path)
    requires SlotInRange(c) && !Owned(c, p)
    ensures AtReserve(c.pc) ==> Untouched(fs, ReserveStep(fs, c, io).fs, p)
    ensures AtManifest(c.pc) ==> Untouched(fs, ManifestStep(fs, c, io).fs, p)
    ensures c.pc.Stage? ==> Untouched(fs, StageStep(fs, c, io).fs, p)
  {
  }

  lemma LateForeign(fs: FS, c: Call, io: IO, p: Path)
    requires SlotInRange(c) && !Owned(c, p)
    ensures AtRecord(c.pc) ==> Untouched(fs, RecordStep(fs, c, io).fs, p)
    ensures AtTail(c.pc) ==> Untouched(fs, TailStep(fs, c, io).fs, p)
  {
  }

  lemma StepForeign(fs: FS, c: Call, io: IO, p: Path)
    requires ValidBatch(c.id, c.batch) && SlotInRange(c) && !c.pc.Done? && !Owned(c, p)
    ensures Untouched(fs, Step(fs, c, io).fs, p)
  {
    if AtInstall(c.pc) { InstallForeign(fs, c, io, p); }
    else if AtRollback(c.pc) { RollbackForeign(fs, c, io, p); }
    else {
      OtherForeign(fs, c, io, p);
      LateForeign(fs, c, io, p);
    }
  }

  lemma StepFrame(base: FS, fs: FS, c: Call, io: IO)
    requires ValidBatch(c.id, c.batch) && SlotInRange(c) && !c.pc.Done?
    requires Frame(base, fs, c)
    ensures var r := Step(fs, c, io); Frame(base, r.fs, r.call)
  {
    var r := Step(fs, c, io);
    forall p | !Owned(c, p) ensures Untouched(fs, r.fs, p) {
      StepForeign(fs, c, io, p);
    }
    FrameTransitive(base, fs, r.fs, c, r.call);
  }

  lemma FrameTransitive(base: FS, fs: FS, fs': FS, c: Call, c': Call)
    requires c'.id == c.id && c'.nonce == c.nonce
    requires Frame(base, fs, c)
    requires forall p :: !Owned(c, p) ==> Untouched(fs, fs', p)
    ensures Frame(base, fs', c')
  {
    forall p | !Owned(c', p) ensures (p in fs' <==> p in base) && (p in fs' ==> fs'[p] == base[p]) {
      assert !Owned(c, p);
      assert Untouched(fs, fs', p);
    }
  }

  // ---- The four artifacts ----

  lemma ReserveArtifacts(fs: FS, c: Call, io: IO)
    requires SlotInRange(c) && AtReserve(c.pc) && Artifacts(fs, c)
    requires Undoing(c.pc) ==> io.Good?
    ensures var r := ReserveStep(fs, c, io); Artifacts(r.fs, r.call)
  {
  }

  lemma ManifestArtifacts(fs: FS, c: Call, io: IO)
    requires SlotInRange(c) && AtManifest(c.pc) && Artifacts(fs, c)
    ensures var r := ManifestStep(fs, c, io); Artifacts(r.fs, r.call)
  {
  }

  lemma StageArtifacts(fs: FS, c: Call, io: IO)
    requires SlotInRange(c) && c.pc.Stage? && Artifacts(fs, c)
    ensures var r := StageStep(fs, c, io); Artifacts(r.fs, r.call)
  {
  }

  lemma InstallArtifacts(fs: FS, c: Call, io: IO)
    requires SlotInRange(c) && AtInstall(c.pc) && Artifacts(fs, c)
    requires ValidBatch(c.id, c.batch)
    ensures var r := InstallStep(fs, c, io); Artifacts(r.fs, r.call)
  {
    if c.pc.i < |c.batch| { DocTargets(c.id, c.batch, c.pc.i); }
  }

  lemma RecordArtifacts(fs: FS, c: Call, io: IO)
    requires SlotInRange(c) && AtRecord(c.pc) && Artifacts(fs, c)
    requires Undoing(c.pc) ==> io.Good?
    ensures var r := RecordStep(fs, c, io); Artifacts(r.fs, r.call)
  {
  }

  lemma RollbackArtifacts(fs: FS, c: Call)
    requires SlotInRange(c) && AtRollback(c.pc) && Artifacts(fs, c)
    requires ValidBatch(c.id, c.batch)
    ensures var r := RollbackStep(fs, c, Good); Artifacts(r.fs, r.call)
  {
    if c.pc.i < |c.batch| {
      DocTargets(c.id, c.batch, c.pc.i);
    }
  }

  lemma TailArtifacts(fs: FS, c: Call, io: IO)
    requires SlotInRange(c) && AtTail(c.pc) && Artifacts(fs, c)
    requires Undoing(c.pc) ==> io.Good?
    ensures var r := TailStep(fs, c, io); Artifacts(r.fs, r.call)
  {
  }

  // ---- The target files ----

  lemma ReserveTargets(base: FS, fs: FS, c: Call, io: IO)
    requires SlotInRange(c) && AtReserve(c.pc) && TargetsAt(base, fs, c) && Artifacts(fs, c)
    ensures var r := ReserveStep(fs, c, io); TargetsAt(base, r.fs, r.call)
  {
    TargetsOfWrite(fs, Reservation(c.id), Record);
    TargetsOfWrite(fs, Reservation(c.id), Corrupt);
    TargetsOfRemove(fs, Reservation(c.id));
  }

  /** Facts about installed slots survive any change to other files. */
  lemma SlotsKeep(base: FS, fs: FS, c: Call, fs': FS, c': Call, i: nat)
    requires i <= |c.staged| <= |c.batch|
    requires c' == c.(pc := c'.pc)
    requires Targets(fs') == Targets(fs)
    requires forall j :: 0 <= j < i && Backup(c.nonce, j) in fs ==>
               Backup(c.nonce, j) in fs' && fs'[Backup(c.nonce, j)] == fs[Backup(c.nonce, j)]
    requires forall j :: i <= j < |c.staged| && Tmp(c.nonce, j) in fs ==>
               Tmp(c.nonce, j) in fs' && fs'[Tmp(c.nonce, j)] == fs[Tmp(c.nonce, j)]
    requires SlotsAt(base, fs, c, i)
    ensures SlotsAt(base, fs', c', i)
  {
    UndoableKeeps(base, fs, c, fs', c', i);
  }

  /** Writing the manifest, to its temporary name or into place, leaves targets and slots alone. */
  lemma ManifestFileKeeps(base: FS, fs: FS, c: Call, io: IO)
    requires SlotInRange(c) && AtManifest(c.pc) && Artifacts(fs, c)
    requires ManifestTargets(base, fs, c, c.pc.phase)
    ensures var r := ManifestStep(fs, c, io); ManifestTargets(base, r.fs, r.call, c.pc.phase)
  {
    var r := ManifestStep(fs, c, io);
    assert Targets(r.fs) == Targets(fs) by {
      TargetsOfWrite(fs, ManifestTmp(c.id), ManifestOf(c, c.pc.phase));
      TargetsOfWrite(fs, ManifestTmp(c.id), Corrupt);
      if ManifestTmp(c.id) in fs { RenameTargets(fs, ManifestTmp(c.id), Manifest(c.id)); }
    }
    if c.pc.phase.Committing? {
      SlotsKeep(base, fs, c, r.fs, r.call, |c.staged|);
    }
  }

  lemma ManifestRoll(base: FS, fs: FS, c: Call, phase: Phase)
    requires |c.staged| == |c.batch| && !phase.Preparing?
    requires ManifestTargets(base, fs, c, phase)
    ensures RollAt(base, fs, c, |c.staged|)
  {
    if phase.Applying? {
      AppliedIdle(Targets(base), c.batch, c.staged, 0, |c.staged|);
      forall j | 0 <= j < |c.staged| ensures !c.staged[j].installed && !c.staged[j].backup {}
    }
  }

  lemma ManifestSteps(base: FS, fs: FS, c: Call, io: IO)
    requires SlotInRange(c) && AtManifest(c.pc) && TargetsAt(base, fs, c) && Artifacts(fs, c)
    requires |c.batch| > 0
    ensures var r := ManifestStep(fs, c, io); TargetsAt(base, r.fs, r.call)
  {
    var r := ManifestStep(fs, c, io);
    ManifestFileKeeps(base, fs, c, io);
    if !c.pc.phase.Preparing? {
      ManifestRoll(base, r.fs, r.call, c.pc.phase);
    }
  }

  lemma StageTargets(base: FS, fs: FS, c: Call, io: IO)
    requires SlotInRange(c) && c.pc.Stage? && TargetsAt(base, fs, c)
    ensures var r := StageStep(fs, c, io); TargetsAt(base, r.fs, r.call)
  {
    if c.pc.i < |c.batch| {
      TargetsOfWrite(fs, Tmp(c.nonce, c.pc.i), c.batch[c.pc.i].content);
    }
  }

  /** Rollback may start whenever the slots from i on have done nothing. */
  lemma RollbackStart(base: FS, fs: FS, c: Call, i: nat)
    requires i <= |c.staged| <= |c.batch|
    requires RollAt(base, fs, c, i)
    requires forall j :: i <= j < |c.staged| ==> !c.staged[j].installed && !c.staged[j].backup
    ensures RollAt(base, fs, c.(pc := StartRollback(c)), |c.staged|)
  {
    AppliedIdle(Targets(base), c.batch, c.staged, i, |c.staged|);
    UndoableKeeps(base, fs, c, fs, c.(pc := StartRollback(c)), i);
  }

  lemma AsideTargets(base: FS, fs: FS, c: Call)
    requires SlotInRange(c) && c.pc.Aside? && SlotsAt(base, fs, c, c.pc.i)
    requires ValidBatch(c.id, c.batch) && c.pc.i < |c.batch| && c.batch[c.pc.i].path in fs
    ensures var r := InstallStep(fs, c, Good); SlotsAt(base, r.fs, r.call, c.pc.i) && c.batch[c.pc.i].path in Targets(r.fs)
  {
    var i := c.pc.i;
    DocTargets(c.id, c.batch, i);
    TargetsOfWrite(fs, Backup(c.nonce, i), Corrupt);
    SlotsKeep(base, fs, c, fs[Backup(c.nonce, i) := Corrupt], c.(pc := AsideDrop(i)), i);
  }

  lemma AsideNewTargets(base: FS, fs: FS, c: Call)
    requires SlotInRange(c) && c.pc.Aside? && SlotsAt(base, fs, c, c.pc.i)
    requires ValidBatch(c.id, c.batch) && c.pc.i < |c.batch| && c.batch[c.pc.i].path !in fs
    ensures var r := InstallStep(fs, c, Good); InstallAt(base, r.fs, r.call, c.pc.i)
  {
    var i := c.pc.i;
    UndoableKeeps(base, fs, c, fs, c.(pc := Install(i)), i);
    assert Targets(fs) - {c.batch[i].path} == Targets(fs);
  }

  lemma AsideDropTargets(base: FS, fs: FS, c: Call, io: IO)
    requires SlotInRange(c) && c.pc.AsideDrop? && SlotsAt(base, fs, c, c.pc.i)
    ensures var r := InstallStep(fs, c, io); SlotsAt(base, r.fs, r.call, c.pc.i) && Targets(r.fs) == Targets(fs)
  {
    var r := InstallStep(fs, c, io);
    TargetsOfRemove(fs, Backup(c.nonce, c.pc.i));
    SlotsKeep(base, fs, c, r.fs, r.call, c.pc.i);
  }

  lemma AsideMoveTargets(base: FS, fs: FS, c: Call)
    requires SlotInRange(c) && c.pc.AsideMove? && SlotsAt(base, fs, c, c.pc.i) && ValidBatch(c.id, c.batch)
    requires c.batch[c.pc.i].path in fs
    ensures var r := InstallStep(fs, c, Good); r.call.pc == Install(c.pc.i) && InstallAt(base, r.fs, r.call, c.pc.i)
  {
    var r := InstallStep(fs, c, Good);
    var i := c.pc.i;
    DocTargets(c.id, c.batch, i);
    RenameTargets(fs, c.batch[i].path, Backup(c.nonce, i));
    AppliedPrefix(Targets(base), c.batch, c.staged, r.call.staged, i);
    UndoableKeeps(base, fs, c, r.fs, r.call, i);
  }

  lemma InstallTargets(base: FS, fs: FS, c: Call)
    requires SlotInRange(c) && c.pc.Install? && InstallAt(base, fs, c, c.pc.i) && ValidBatch(c.id, c.batch)
    ensures var r := InstallStep(fs, c, Good);
            r.call.pc == Aside(c.pc.i + 1) && SlotsAt(base, r.fs, r.call, c.pc.i + 1)
  {
    InstallForward(base, fs, c);
    InstallApplied(base, fs, c);
    InstallUndoable(base, fs, c);
  }

  lemma InstallForward(base: FS, fs: FS, c: Call)
    requires SlotInRange(c) && c.pc.Install? && InstallAt(base, fs, c, c.pc.i) && ValidBatch(c.id, c.batch)
    ensures var r := InstallStep(fs, c, Good); Forward(r.fs, r.call, c.pc.i + 1)
  {
    DocTargets(c.id, c.batch, c.pc.i);
  }

  lemma InstallApplied(base: FS, fs: FS, c: Call)
    requires SlotInRange(c) && c.pc.Install? && InstallAt(base, fs, c, c.pc.i) && ValidBatch(c.id, c.batch)
    ensures var r := InstallStep(fs, c, Good);
            Targets(r.fs) == Applied(Targets(base), c.batch, r.call.staged, c.pc.i + 1)
  {
    var i, t0 := c.pc.i, Targets(base);
    var staged := InstallStep(fs, c, Good).call.staged;
    DocTargets(c.id, c.batch, i);
    RenameTargets(fs, Tmp(c.nonce, i), c.batch[i].path);
    AppliedPrefix(t0, c.batch, c.staged, staged, i);
    assert (Applied(t0, c.batch, staged, i) - {c.batch[i].path})[c.batch[i].path := c.batch[i].content]
           == Applied(t0, c.batch, staged, i)[c.batch[i].path := c.batch[i].content];
  }

  lemma InstallUndoable(base: FS, fs: FS, c: Call)
    requires SlotInRange(c) && c.pc.Install? && InstallAt(base, fs, c, c.pc.i) && ValidBatch(c.id, c.batch)
    ensures var r := InstallStep(fs, c, Good); Undoable(base, r.fs, r.call, c.pc.i + 1)
  {
    var r := InstallStep(fs, c, Good);
    var i, t0 := c.pc.i, Targets(base);
    DocTargets(c.id, c.batch, i);
    UndoableKeeps(base, fs, c, r.fs, r.call, i);
    AppliedPrefix(t0, c.batch, c.staged, r.call.staged, i);
    assert SlotUndoable(base, fs, c, i);
    assert SlotUndoable(base, r.fs, r.call, i);
  }

  /** A slot moved aside but not installed has had exactly the effect of removing its target. */
  lemma AsideApplied(t: FS, batch: seq<Doc>, staged: seq<Staged>, i: nat)
    requires i < |staged| <= |batch| && !staged[i].installed
    requires staged[i].backup <==> batch[i].path in Applied(t, batch, staged, i)
    ensures Applied(t, batch, staged, i + 1) == Applied(t, batch, staged, i) - {batch[i].path}
  {
    var before := Applied(t, batch, staged, i);
    if !staged[i].backup {
      assert before - {batch[i].path} == before;
    }
  }

  lemma InstallFailTargets(base: FS, fs: FS, c: Call)
    requires c.pc.Install? && c.pc.i < |c.staged| <= |c.batch| && InstallAt(base, fs, c, c.pc.i)
    ensures RollAt(base, fs, c.(pc := StartRollback(c)), |c.staged|)
  {
    AsideApplied(Targets(base), c.batch, c.staged, c.pc.i);
    assert RollAt(base, fs, c, c.pc.i + 1);
    RollbackStart(base, fs, c, c.pc.i + 1);
  }

  lemma CommitTargets(base: FS, fs: FS, c: Call)
    requires SlotInRange(c) && c.pc.CommitRecord? && SlotsAt(base, fs, c, |c.staged|) && Committed(c.id) !in fs
    ensures var r := RecordStep(fs, c, Good); Targets(r.fs) == Put(Targets(base), c.batch)
  {
    TargetsOfWrite(fs, Committed(c.id), Record);
    AppliedAll(Targets(base), c.batch, c.staged, |c.staged|);
    assert c.batch[..|c.staged|] == c.batch;
  }

  lemma CommitFailTargets(base: FS, fs: FS, c: Call, io: IO)
    requires SlotInRange(c) && (c.pc.CommitRecord? || c.pc.CommitUndo?)
    requires SlotsAt(base, fs, c, |c.staged|)
    requires c.pc.CommitRecord? ==> !io.Good?
    ensures var r := RecordStep(fs, c, io); SlotsAt(base, r.fs, r.call, |c.staged|)
  {
    var r := RecordStep(fs, c, io);
    assert Targets(r.fs) == Targets(fs) by {
      TargetsOfWrite(fs, Committed(c.id), Corrupt);
      TargetsOfRemove(fs, Committed(c.id));
    }
    SlotsKeep(base, fs, c, r.fs, r.call, |c.staged|);
  }

  lemma MarkTargets(base: FS, fs: FS, c: Call, io: IO)
    requires SlotInRange(c) && (c.pc.Mark? || c.pc.MarkUndo?) && TargetsAt(base, fs, c)
    requires Artifacts(fs, c) && (Undoing(c.pc) ==> io.Good?)
    ensures var r := RecordStep(fs, c, io); TargetsAt(base, r.fs, r.call)
  {
    TargetsOfWrite(fs, Executed(c.id), Record);
    TargetsOfWrite(fs, Executed(c.id), Corrupt);
    TargetsOfRemove(fs, Executed(c.id));
  }

  lemma RbRemoveTargets(base: FS, fs: FS, c: Call)
    requires SlotInRange(c) && c.pc.RbRemove? && RollAt(base, fs, c, c.pc.i + 1) && ValidBatch(c.id, c.batch)
    ensures var r := RollbackStep(fs, c, Good); RestoreAt(base, r.fs, r.call, c.pc.i)
  {
    var r := RollbackStep(fs, c, Good);
    DocTargets(c.id, c.batch, c.pc.i);
    TargetsOfRemove(fs, c.batch[c.pc.i].path);
    UndoableKeeps(base, fs, c, r.fs, r.call, c.pc.i + 1);
  }

  lemma RbRestoreTargets(base: FS, fs: FS, c: Call)
    requires SlotInRange(c) && c.pc.RbRestore? && RestoreAt(base, fs, c, c.pc.i) && ValidBatch(c.id, c.batch)
    ensures var r := RollbackStep(fs, c, Good); RollAt(base, r.fs, r.call, c.pc.i)
  {
    var r := RollbackStep(fs, c, Good);
    var i := c.pc.i;
    DocTargets(c.id, c.batch, i);
    UndoableKeeps(base, fs, c, r.fs, r.call, i);
    var before := Applied(Targets(base), c.batch, c.staged, i);
    assert SlotUndoable(base, fs, c, i);
    if c.staged[i].backup {
      RenameTargets(fs, Backup(c.nonce, i), c.batch[i].path);
      assert (before - {c.batch[i].path})[c.batch[i].path := before[c.batch[i].path]] == before;
    } else if c.staged[i].installed {
      assert before - {c.batch[i].path} == before;
    }
  }

  lemma RbTmpTargets(base: FS, fs: FS, c: Call)
    requires SlotInRange(c) && c.pc.RbTmp? && RollAt(base, fs, c, c.pc.i)
    ensures var r := RollbackStep(fs, c, Good); RollAt(base, r.fs, r.call, c.pc.i)
  {
    var r := RollbackStep(fs, c, Good);
    TargetsOfRemove(fs, Tmp(c.nonce, c.pc.i));
    UndoableKeeps(base, fs, c, r.fs, r.call, c.pc.i);
  }

  lemma DropTmpTargets(base: FS, fs: FS, c: Call)
    requires SlotInRange(c) && c.pc.DropTmp? && TargetsAt(base, fs, c) && Artifacts(fs, c)
    ensures var r := RollbackStep(fs, c, Good); TargetsAt(base, r.fs, r.call)
  {
    TargetsOfRemove(fs, Tmp(c.nonce, c.pc.i));
  }

  lemma CleanupTargets(fs: FS, c: Call, io: IO)
    requires SlotInRange(c) && (c.pc.Cleanup? || c.pc.DropCommitted?)
    ensures Targets(TailStep(fs, c, io).fs) == Targets(fs)
  {
    TargetsOfRemove(fs, Committed(c.id));
    if c.pc.Cleanup? { TargetsOfRemove(fs, Backup(c.nonce, c.pc.i)); }
  }

  lemma ReleaseTargets(fs: FS, c: Call, io: IO)
    requires SlotInRange(c) && (c.pc.DropManifest? || c.pc.Release?)
    ensures var r := TailStep(fs, c, io);
            Targets(r.fs) == Targets(fs) && (Committed(c.id) in r.fs <==> Committed(c.id) in fs)
  {
    TargetsOfRemove(fs, Manifest(c.id));
    TargetsOfRemove(fs, Reservation(c.id));
  }

  lemma AsideSteps(base: FS, fs: FS, c: Call, io: IO)
    requires SlotInRange(c) && c.pc.Aside? && ValidBatch(c.id, c.batch) && SlotsAt(base, fs, c, c.pc.i)
    ensures var r := InstallStep(fs, c, io); TargetsAt(base, r.fs, r.call)
  {
    if c.pc.i == |c.batch| { SlotsKeep(base, fs, c, fs, c.(pc := ManWrite(Committing)), c.pc.i); }
    else if io.Good? && c.batch[c.pc.i].path in fs { AsideTargets(base, fs, c); }
    else if io.Good? { AsideNewTargets(base, fs, c); }
    else { RollbackStart(base, fs, c, c.pc.i); }
  }

  /** Moving a target aside and renaming the staged file into its place. */
  lemma InstallSteps(base: FS, fs: FS, c: Call, io: IO)
    requires SlotInRange(c) && AtInstall(c.pc) && ValidBatch(c.id, c.batch) && TargetsAt(base, fs, c)
    ensures var r := InstallStep(fs, c, io); TargetsAt(base, r.fs, r.call)
  {
    if c.pc.Aside? { AsideSteps(base, fs, c, io); }
    else if c.pc.AsideDrop? { AsideDropTargets(base, fs, c, io); }
    else if c.pc.AsideMove? && io.Good? { AsideMoveTargets(base, fs, c); }
    else if c.pc.AsideMove? { RollbackStart(base, fs, c, c.pc.i); }
    else if io.Good? { InstallTargets(base, fs, c); }
    else { InstallFailTargets(base, fs, c); }
  }

  lemma RecordSteps(base: FS, fs: FS, c: Call, io: IO)
    requires SlotInRange(c) && AtRecord(c.pc) && TargetsAt(base, fs, c) && Artifacts(fs, c)
    requires |c.batch| > 0 && (Undoing(c.pc) ==> io.Good?)
    ensures var r := RecordStep(fs, c, io); TargetsAt(base, r.fs, r.call)
  {
    if c.pc.Mark? || c.pc.MarkUndo? { MarkTargets(base, fs, c, io); }
    else if c.pc.CommitRecord? && io.Good? { CommitTargets(base, fs, c); }
    else { CommitFailTargets(base, fs, c, io); }
  }

  lemma RollbackSteps(base: FS, fs: FS, c: Call)
    requires SlotInRange(c) && AtRollback(c.pc) && TargetsAt(base, fs, c) && Artifacts(fs, c)
    requires ValidBatch(c.id, c.batch)
    ensures var r := RollbackStep(fs, c, Good); TargetsAt(base, r.fs, r.call)
  {
    if c.pc.RbRemove? { RbRemoveTargets(base, fs, c); }
    else if c.pc.RbRestore? { RbRestoreTargets(base, fs, c); }
    else if c.pc.RbTmp? { RbTmpTargets(base, fs, c); }
    else { DropTmpTargets(base, fs, c); }
  }

  lemma TailSteps(base: FS, fs: FS, c: Call, io: IO)
    requires SlotInRange(c) && AtTail(c.pc) && TargetsAt(base, fs, c)
    ensures var r := TailStep(fs, c, io); TargetsAt(base, r.fs, r.call)
  {
    if c.pc.Cleanup? || c.pc.DropCommitted? { CleanupTargets(fs, c, io); }
    else { ReleaseTargets(fs, c, io); }
  }

  // ---- All together ----

  lemma StepArtifacts(fs: FS, c: Call, io: IO)
    requires SlotInRange(c) && !c.pc.Done? && ValidBatch(c.id, c.batch) && Artifacts(fs, c)
    requires Undoing(c.pc) ==> io.Good?
    ensures var r := Step(fs, c, io); Artifacts(r.fs, r.call)
  {
    if AtReserve(c.pc) { ReserveArtifacts(fs, c, io); }
    else if AtManifest(c.pc) { ManifestArtifacts(fs, c, io); }
    else if c.pc.Stage? { StageArtifacts(fs, c, io); }
    else if AtInstall(c.pc) { InstallArtifacts(fs, c, io); }
    else if AtRecord(c.pc) { RecordArtifacts(fs, c, io); }
    else if AtRollback(c.pc) { RollbackArtifacts(fs, c); }
    else { TailArtifacts(fs, c, io); }
  }

  lemma StepTargets(base: FS, fs: FS, c: Call, io: IO)
    requires SlotInRange(c) && !c.pc.Done? && ValidBatch(c.id, c.batch)
    requires Artifacts(fs, c) && TargetsAt(base, fs, c)
    requires Undoing(c.pc) ==> io.Good?
    ensures var r := Step(fs, c, io); TargetsAt(base, r.fs, r.call)
  {
    if AtReserve(c.pc) { ReserveTargets(base, fs, c, io); }
    else if AtManifest(c.pc) { ManifestSteps(base, fs, c, io); }
    else if c.pc.Stage? { StageTargets(base, fs, c, io); }
    else if AtInstall(c.pc) { InstallSteps(base, fs, c, io); }
    else if AtRecord(c.pc) { RecordSteps(base, fs, c, io); }
    else if AtRollback(c.pc) { RollbackSteps(base, fs, c); }
    else { TailSteps(base, fs, c, io); }
  }

  /** One operation keeps the invariant, unless it is an undoing operation that itself fails. */
  lemma StepKeeps(base: FS, fs: FS, c: Call, io: IO)
    requires Inv(base, fs, c) && !c.pc.Done?
    requires Undoing(c.pc) ==> io.Good?
    ensures var r := Step(fs, c, io); Inv(base, r.fs, r.call)
  {
    StepFrame(base, fs, c, io);
    StepArtifacts(fs, c, io);
    StepTargets(base, fs, c, io);
  }
}
