/** The JSON store itself: the file operations of PersistExecutedTrade and of recovery, in the order and
    under the conditions the program performs them. */
module JSONStores {
  import opened Base
  import opened Files
  import opened Persist
  import opened PersistSafety
  import opened PersistRuns
  import opened PersistEvidence
  import opened Recovery

  /** The documents written for one node. */
  datatype NodeState = NodeState(node: NodeID, inventory: Bytes, flow: Bytes, prices: Bytes)

  function NodeDocs(s: NodeState): seq<Doc> {
    [Doc(Inventory(s.node), StateDoc(s.node, true, s.inventory)),
     Doc(Flow(s.node), StateDoc(s.node, true, s.flow)),
     Doc(Prices(s.node), StateDoc(s.node, true, s.prices))]
  }

  function StateDocs(states: seq<NodeState>): seq<Doc> {
    if states == [] then [] else StateDocs(states[..|states| - 1]) + NodeDocs(states[|states| - 1])
  }

  function BatchOf(id: TxID, body: Bytes, states: seq<NodeState>): seq<Doc> {
    [Doc(TradeFile(id), TradeDoc(id, body))] + StateDocs(states)
  }

  lemma {:induction false} StateDocsValid(id: TxID, states: seq<NodeState>)
    ensures forall i :: 0 <= i < |StateDocs(states)| ==> ValidDoc(id, StateDocs(states)[i])
  {
    if states != [] {
      var n := |states| - 1;
      StateDocsValid(id, states[..n]);
      var before, last := StateDocs(states[..n]), NodeDocs(states[n]);
      forall i | 0 <= i < |StateDocs(states)| ensures ValidDoc(id, StateDocs(states)[i]) {
        if i < |before| { assert ValidDoc(id, before[i]); } else { assert ValidDoc(id, last[i - |before|]); }
      }
    }
  }

  lemma BatchValid(id: TxID, body: Bytes, states: seq<NodeState>)
    ensures ValidBatch(id, BatchOf(id, body, states))
  {
    StateDocsValid(id, states);
    var batch := BatchOf(id, body, states);
    forall i | 0 <= i < |batch| ensures ValidDoc(id, batch[i]) {
      if i > 0 { assert ValidDoc(id, StateDocs(states)[i - 1]); }
    }
  }

  // ---- Runs of the step machine, as functions of the answers given ----

  function Faults(ios: seq<IO>): nat {
    if ios == [] then 0 else Faults(ios[..|ios| - 1]) + (if ios[|ios| - 1].Good? then 0 else 1)
  }

  /** The configuration after the operations have been answered with `ios`, if the call gets that far. */
  function After(start: Config, ios: seq<IO>): (r: Option<Config>)
    requires SlotInRange(start.call)
    ensures r.Some? ==> SlotInRange(r.value.call)
  {
    if ios == [] then Some(start)
    else
      match After(start, ios[..|ios| - 1])
      case None => None
      case Some(c) => if c.call.pc.Done? then None else Some(Step(c.fs, c.call, ios[|ios| - 1]))
  }

  /** The disks such a run goes through. */
  function States(start: Config, ios: seq<IO>): set<FS>
    requires SlotInRange(start.call) && After(start, ios).Some?
  {
    (if ios == [] then {} else States(start, ios[..|ios| - 1])) + {After(start, ios).value.fs}
  }

  lemma {:induction false} AfterIsRun(start: Config, ios: seq<IO>) returns (run: seq<Config>)
    requires SlotInRange(start.call) && After(start, ios).Some?
    ensures IsRun(run, ios) && run[0] == start && run[|ios|] == After(start, ios).value
    ensures forall fs :: fs in States(start, ios) ==> exists k :: 0 <= k < |run| && run[k].fs == fs
  {
    if ios == [] {
      run := [start];
      assert run[0].fs == start.fs;
    } else {
      var n := |ios| - 1;
      var before := AfterIsRun(start, ios[..n]);
      run := before + [After(start, ios).value];
      forall k | 0 <= k < |ios|
        ensures !run[k].call.pc.Done? && run[k + 1] == Step(run[k].fs, run[k].call, ios[k])
      {
        if k < n { assert ios[..n][k] == ios[k]; }
      }
      forall fs | fs in States(start, ios) ensures exists k :: 0 <= k < |run| && run[k].fs == fs {
        if fs in States(start, ios[..n]) {
          var k :| 0 <= k < |before| && before[k].fs == fs;
          assert run[k].fs == fs;
        } else {
          assert run[|ios|].fs == fs;
        }
      }
    }
  }

  /** Creating the executed marker failed somewhere in such a run. */
  predicate RefusedMarker(start: Config, ios: seq<IO>)
    requires SlotInRange(start.call) && After(start, ios).Some?
  {
    if ios == [] then false
    else
      var n := |ios| - 1;
      RefusedMarker(start, ios[..n]) || RefusesMarker(After(start, ios[..n]).value.call, ios[n])
  }

  lemma {:induction false} RunIsAfter(run: seq<Config>, ios: seq<IO>)
    requires IsRun(run, ios)
    ensures After(run[0], ios) == Some(run[|ios|])
    ensures RefusedMarker(run[0], ios) <==> MarkerRefused(run, ios, |ios|)
  {
    hide Step, RefusesMarker;
    if ios != [] {
      var n := |ios| - 1;
      var before := run[..|ios|];
      RunIsAfter(before, ios[..n]);
      assert forall m :: 0 <= m < n ==> before[m] == run[m] && ios[..n][m] == ios[m];
    }
  }

  lemma {:induction false} FaultsAt(ios: seq<IO>, j: nat)
    requires j < |ios| && !ios[j].Good?
    ensures Faults(ios) >= 1
    ensures forall k :: j < k < |ios| && !ios[k].Good? ==> Faults(ios) >= 2
  {
    var n := |ios| - 1;
    if j < n {
      FaultsAt(ios[..n], j);
      assert forall k :: j < k < n ==> ios[..n][k] == ios[k];
    }
  }

  lemma FewFaults(ios: seq<IO>)
    ensures Faults(ios) <= 1 ==> OneFault(ios)
    ensures Faults(ios) == 0 ==> NoFault(ios)
  {
    forall j | 0 <= j < |ios| && !ios[j].Good?
      ensures Faults(ios) >= 1 && forall k :: j < k < |ios| && !ios[k].Good? ==> Faults(ios) >= 2
    {
      FaultsAt(ios, j);
    }
  }

  lemma {:induction false} FaultsFront(io: IO, ios: seq<IO>)
    ensures Faults([io] + ios) == (if io.Good? then 0 else 1) + Faults(ios)
  {
    var all := [io] + ios;
    if ios == [] {
      assert all[..0] == [];
    } else {
      FaultsFront(io, ios[..|ios| - 1]);
      assert all[..|all| - 1] == [io] + ios[..|ios| - 1];
    }
  }

  /** The return contract for a complete run, in the functional form: new targets and replay evidence after a
      success, and after a failure exactly when what failed was the executed marker. */
  lemma RunContract(start: Config, ios: seq<IO>, id: TxID, batch: seq<Doc>, nonce: nat)
    requires start.call == Begin(id, batch, nonce) && ValidBatch(id, batch)
    requires !HasExecuted(start.fs, id) && Faults(ios) <= 1
    requires After(start, ios).Some? && After(start, ios).value.call.pc.Done?
    ensures var last := After(start, ios).value; var written := last.call.pc.ok || RefusedMarker(start, ios);
            && Targets(last.fs) == (if written then Put(Targets(start.fs), batch) else Targets(start.fs))
            && (HasExecuted(last.fs, id) <==> written)
            && (Faults(ios) == 0 ==> last.call.pc.ok)
    ensures forall fs :: fs in States(start, ios) && Targets(fs) != Targets(start.fs) ==> HasExecuted(fs, id)
  {
    FewFaults(ios);
    var run := AfterIsRun(start, ios);
    ReturnContract(run, ios, start.fs, id, batch, nonce);
    RunIsAfter(run, ios);
    if !After(start, ios).value.call.pc.ok { FailureMeans(run, ios, start.fs, id, batch, nonce); }
    forall fs | fs in States(start, ios) && Targets(fs) != Targets(start.fs) ensures HasExecuted(fs, id) {
      var k :| 0 <= k < |run| && run[k].fs == fs;
      EvidenceOfChange(run, ios, start.fs, id, batch, nonce, k);
    }
  }

  /** Whatever fails, a call adds no evidence but its own, and a call that succeeds does. */
  lemma RunEvidence(start: Config, ios: seq<IO>, id: TxID, batch: seq<Doc>, nonce: nat)
    requires start.call == Begin(id, batch, nonce) && ValidBatch(id, batch) && !HasExecuted(start.fs, id)
    requires After(start, ios).Some?
    ensures var last := After(start, ios).value;
            && Evidence(start.fs) <= Evidence(last.fs) <= Evidence(start.fs) + {id}
            && (last.call.pc == Done(true) ==> Evidence(last.fs) == Evidence(start.fs) + {id})
  {
    var run := AfterIsRun(start, ios);
    OthersEvidence(run, ios, start.fs, id, batch, nonce);
  }

  /** The file the next operation removes, at the points where it removes one. */
  predicate Deletes(c: Call, p: Path)
    requires SlotInRange(c)
  {
    match c.pc
    case ReserveUndo => p == Reservation(c.id)
    case AsideDrop(i) => p == Backup(c.nonce, i)
    case CommitUndo => p == Committed(c.id)
    case MarkUndo => p == Executed(c.id)
    case Cleanup(i) => i < |c.staged| && c.staged[i].backup && p == Backup(c.nonce, i)
    case DropCommitted => p == Committed(c.id)
    case RbRemove(i) => c.staged[i].installed && p == c.batch[i].path
    case RbTmp(i) => !c.staged[i].installed && p == Tmp(c.nonce, i)
    case DropTmp(i) => i < |c.staged| && !c.staged[i].installed && p == Tmp(c.nonce, i)
    case DropManifest(_) => p == Manifest(c.id)
    case Release(_) => p == Reservation(c.id)
    case _ => false
  }

  function AfterDelete(c: Call): Pc {
    match c.pc
    case ReserveUndo => Done(false)
    case AsideDrop(i) => AsideMove(i)
    case CommitUndo => StartRollback(c)
    case MarkUndo => DropManifest(false)
    case Cleanup(i) => Cleanup(i + 1)
    case DropCommitted => DropManifest(true)
    case RbRemove(i) => RbRestore(i)
    case RbTmp(i) => if i == 0 then DropTmp(0) else RbRemove(i - 1)
    case DropTmp(i) => DropTmp(i + 1)
    case DropManifest(ok) => Release(ok)
    case Release(ok) => Done(ok)
    case _ => c.pc
  }

  lemma DeleteStep(fs: FS, c: Call, io: IO, p: Path)
    requires SlotInRange(c) && Deletes(c, p)
    ensures Step(fs, c, io) == Config(Remove(fs, p, io), c.(pc := AfterDelete(c)))
  {
    if c.pc.ReserveUndo? { assert Step(fs, c, io) == ReserveStep(fs, c, io); }
    else if c.pc.AsideDrop? { assert Step(fs, c, io) == InstallStep(fs, c, io); }
    else if AtRecord(c.pc) { assert Step(fs, c, io) == RecordStep(fs, c, io); }
    else if AtRollback(c.pc) { assert Step(fs, c, io) == RollbackStep(fs, c, io); }
    else { assert Step(fs, c, io) == TailStep(fs, c, io); }
  }

  /** Points at which the program goes on without touching the disk. */
  predicate Idles(c: Call)
    requires SlotInRange(c)
  {
    match c.pc
    case Stage(i) => i == |c.batch|
    case Aside(i) => i == |c.batch|
    case Cleanup(i) => i == |c.staged| || !c.staged[i].backup
    case RbRemove(i) => !c.staged[i].installed
    case RbTmp(i) => c.staged[i].installed
    case DropTmp(i) => i == |c.staged| || c.staged[i].installed
    case _ => false
  }

  function AfterIdle(c: Call): Pc {
    match c.pc
    case Stage(_) => ManWrite(Applying)
    case Aside(_) => ManWrite(Committing)
    case Cleanup(i) => if i == |c.staged| then DropCommitted else Cleanup(i + 1)
    case RbRemove(i) => RbRestore(i)
    case RbTmp(i) => if i == 0 then DropTmp(0) else RbRemove(i - 1)
    case DropTmp(i) => if i == |c.staged| then DropManifest(false) else DropTmp(i + 1)
    case _ => c.pc
  }

  lemma IdleStep(fs: FS, c: Call)
    requires SlotInRange(c) && Idles(c)
    ensures Step(fs, c, Good) == Config(fs, c.(pc := AfterIdle(c)))
  {
    if c.pc.Stage? { assert Step(fs, c, Good) == StageStep(fs, c, Good); }
    else if c.pc.Aside? { assert Step(fs, c, Good) == InstallStep(fs, c, Good); }
    else if AtRollback(c.pc) { assert Step(fs, c, Good) == RollbackStep(fs, c, Good); }
    else { assert Step(fs, c, Good) == TailStep(fs, c, Good); }
  }

  class JSONStore {
    /** The disk, and how the system will answer the operations still to come. */
    var files: FS
    var answers: seq<IO>

    /** The run of the step machine this call has followed so far, and the disks it went through. */
    ghost var start: Config
    ghost var ios: seq<IO>
    ghost var cfg: Config
    ghost var seen: set<FS>
    ghost var budget: nat

    constructor (disk: FS, answers: seq<IO>)
      ensures files == disk && this.answers == answers
    {
      files := disk;
      this.answers := answers;
    }

    predicate HasExecutedTrade(id: TxID)
      reads this
    {
      HasExecuted(files, id)
    }

    /** What stopped the last call was the creation of its executed marker. */
    ghost predicate MarkerFailed()
      reads this
    {
      SlotInRange(start.call) && After(start, ios).Some? && RefusedMarker(start, ios)
    }

    /** The disk is where the step machine would have it. */
    ghost predicate Tracks()
      reads this
    {
      && SlotInRange(start.call)
      && After(start, ios) == Some(cfg)
      && files == cfg.fs
      && seen == States(start, ios)
      && Faults(ios) + Faults(answers) <= budget
    }

    /** The system's answer to the next operation. */
    method Ask() returns (io: IO)
      modifies `answers
      ensures Faults(answers) + (if io.Good? then 0 else 1) == Faults(old(answers))
    {
      if answers == [] {
        io := Good;
      } else {
        io := answers[0];
        FaultsFront(io, answers[1..]);
        assert [io] + answers[1..] == answers;
        answers := answers[1..];
      }
    }

    /** The step machine takes the step the program has just taken. */
    ghost method Advance(io: IO)
      requires SlotInRange(start.call) && After(start, ios) == Some(cfg) && !cfg.call.pc.Done?
      requires seen == States(start, ios)
      requires files == Step(cfg.fs, cfg.call, io).fs
      requires Faults(ios) + Faults(answers) + (if io.Good? then 0 else 1) <= budget
      modifies `ios, `cfg, `seen
      ensures Tracks() && start == old(start)
      ensures cfg == Step(old(cfg).fs, old(cfg).call, io)
    {
      ios := ios + [io];
      assert ios[..|ios| - 1] == old(ios);
      cfg := Step(cfg.fs, cfg.call, io);
      seen := seen + {cfg.fs};
    }

    /** The call, seen as the step machine sees it, is at `pc`. */
    ghost predicate At(id: TxID, batch: seq<Doc>, nonce: nat, staged: seq<Staged>, pc: Pc)
      reads this
    {
      Tracks() && cfg.call == Call(id, batch, nonce, pc, staged)
    }

    /** Files are removed without looking at the result. */
    method Delete(p: Path)
      requires Tracks() && Deletes(cfg.call, p)
      modifies `files, `answers, `ios, `cfg, `seen
      ensures Tracks() && start == old(start)
      ensures cfg.call == old(cfg).call.(pc := AfterDelete(old(cfg).call))
    {
      var io := Ask();
      if io.Good? { files := files - {p}; }
      DeleteStep(cfg.fs, cfg.call, io, p);
      Advance(io);
    }

    /** A slot with nothing to do. */
    ghost method Pass()
      requires Tracks() && Idles(cfg.call)
      modifies `ios, `cfg, `seen
      ensures Tracks() && start == old(start)
      ensures cfg.call == old(cfg).call.(pc := AfterIdle(old(cfg).call))
    {
      IdleStep(cfg.fs, cfg.call);
      Advance(Good);
    }

    /** The manifest is written whole to a temporary file, then renamed into place. */
    method WriteManifest(id: TxID, phase: Phase, batch: seq<Doc>, ghost nonce: nat, ghost staged: seq<Staged>)
      returns (ok: bool)
      requires At(id, batch, nonce, staged, ManWrite(phase))
      modifies `files, `answers, `ios, `cfg, `seen
      ensures start == old(start)
      ensures At(id, batch, nonce, staged,
                 if ok then ManifestWritten(phase) else ManifestFailed(old(cfg).call, phase))
    {
      ok := WriteManifestTmp(id, phase, batch, nonce, staged);
      if ok { ok := RenameManifest(id, phase, batch, nonce, staged); }
    }

    method WriteManifestTmp(id: TxID, phase: Phase, batch: seq<Doc>, ghost nonce: nat, ghost staged: seq<Staged>)
      returns (ok: bool)
      requires At(id, batch, nonce, staged, ManWrite(phase))
      modifies `files, `answers, `ios, `cfg, `seen
      ensures start == old(start)
      ensures At(id, batch, nonce, staged, if ok then ManRename(phase) else ManifestFailed(old(cfg).call, phase))
    {
      var io := Ask();
      ok := io.Good?;
      if ok {
        files := files[ManifestTmp(id) := ManifestDoc(id, phase, PathsOf(batch))];
      } else if io.Late? {
        files := files[ManifestTmp(id) := Corrupt];
      }
      assert Step(cfg.fs, cfg.call, io) == ManifestStep(cfg.fs, cfg.call, io);
      Advance(io);
    }

    method RenameManifest(id: TxID, phase: Phase, batch: seq<Doc>, ghost nonce: nat, ghost staged: seq<Staged>)
      returns (ok: bool)
      requires At(id, batch, nonce, staged, ManRename(phase))
      modifies `files, `answers, `ios, `cfg, `seen
      ensures start == old(start)
      ensures At(id, batch, nonce, staged,
                 if ok then ManifestWritten(phase) else ManifestFailed(old(cfg).call, phase))
    {
      var io := Ask();
      ok := io.Good? && ManifestTmp(id) in files;
      if ok { files := Rename(files, ManifestTmp(id), Manifest(id)); }
      assert Step(cfg.fs, cfg.call, io) == ManifestStep(cfg.fs, cfg.call, io);
      Advance(io);
    }

    method StageFiles(ghost id: TxID, batch: seq<Doc>, nonce: nat) returns (ok: bool, staged: seq<Staged>)
      requires At(id, batch, nonce, [], Stage(0))
      modifies `files, `answers, `ios, `cfg, `seen
      ensures start == old(start)
      ensures ok ==> |staged| == |batch|
      ensures At(id, batch, nonce, staged, if ok then ManWrite(Applying) else DropTmp(0))
    {
      staged := [];
      var i := 0;
      while i < |batch|
        invariant i == |staged| <= |batch| && start == old(start)
        invariant At(id, batch, nonce, staged, Stage(i))
      {
        var io := Ask();
        if !io.Good? {
          Advance(io);
          return false, staged;
        }
        files := files[Tmp(nonce, i) := batch[i].content];
        Advance(io);
        staged := staged + [Staged(false, false)];
        i := i + 1;
      }
      Pass();
      return true, staged;
    }

    /** Each target in turn is moved aside, if there is one, and replaced by its staged file. */
    method InstallFiles(ghost id: TxID, batch: seq<Doc>, nonce: nat, staged0: seq<Staged>)
      returns (ok: bool, staged: seq<Staged>)
      requires |staged0| == |batch| && At(id, batch, nonce, staged0, Aside(0))
      modifies `files, `answers, `ios, `cfg, `seen
      ensures start == old(start) && |staged| == |batch|
      ensures At(id, batch, nonce, staged, if ok then ManWrite(Committing) else StartRollback(cfg.call))
    {
      staged := staged0;
      var i := 0;
      while i < |batch|
        invariant i <= |staged| == |batch| && start == old(start)
        invariant At(id, batch, nonce, staged, Aside(i))
      {
        ok, staged := InstallOne(id, batch, nonce, staged, i);
        if !ok { return; }
        i := i + 1;
      }
      Pass();
      ok := true;
    }

    method InstallOne(ghost id: TxID, batch: seq<Doc>, nonce: nat, staged0: seq<Staged>, i: nat)
      returns (ok: bool, staged: seq<Staged>)
      requires i < |staged0| == |batch| && At(id, batch, nonce, staged0, Aside(i))
      modifies `files, `answers, `ios, `cfg, `seen
      ensures start == old(start) && |staged| == |batch|
      ensures At(id, batch, nonce, staged, if ok then Aside(i + 1) else StartRollback(cfg.call))
    {
      staged := staged0;
      var present: bool;
      ok, present := Probe(id, batch, nonce, staged, i);
      if !ok { return; }
      if present {
        ok, staged := MoveAside(id, batch, nonce, staged, i);
        if !ok { return; }
      }
      ok, staged := InstallStaged(id, batch, nonce, staged, i);
    }

    /** Looks for an existing target and, if there is one, draws a backup name for it. */
    method Probe(ghost id: TxID, batch: seq<Doc>, nonce: nat, ghost staged: seq<Staged>, i: nat)
      returns (ok: bool, present: bool)
      requires i < |staged| == |batch| && At(id, batch, nonce, staged, Aside(i))
      modifies `files, `answers, `ios, `cfg, `seen
      ensures start == old(start)
      ensures At(id, batch, nonce, staged,
                 if !ok then StartRollback(old(cfg).call) else if present then AsideDrop(i) else Install(i))
    {
      var io := Ask();
      ok, present := io.Good?, batch[i].path in files;
      if ok && present { files := files[Backup(nonce, i) := Corrupt]; }
      assert Step(cfg.fs, cfg.call, io) == InstallStep(cfg.fs, cfg.call, io);
      Advance(io);
    }

    method InstallStaged(ghost id: TxID, batch: seq<Doc>, nonce: nat, staged0: seq<Staged>, i: nat)
      returns (ok: bool, staged: seq<Staged>)
      requires i < |staged0| == |batch| && At(id, batch, nonce, staged0, Install(i))
      modifies `files, `answers, `ios, `cfg, `seen
      ensures start == old(start) && |staged| == |batch|
      ensures At(id, batch, nonce, staged, if ok then Aside(i + 1) else StartRollback(old(cfg).call))
    {
      staged := staged0;
      var io := Ask();
      ok := io.Good? && Tmp(nonce, i) in files;
      assert staged == cfg.call.staged;
      if ok { files := Rename(files, Tmp(nonce, i), batch[i].path); }
      assert Step(cfg.fs, cfg.call, io) == InstallStep(cfg.fs, cfg.call, io);
      Advance(io);
      if ok { staged := staged[i := staged[i].(installed := true)]; }
    }

    method MoveAside(ghost id: TxID, batch: seq<Doc>, nonce: nat, staged0: seq<Staged>, i: nat)
      returns (ok: bool, staged: seq<Staged>)
      requires i < |staged0| == |batch| && At(id, batch, nonce, staged0, AsideDrop(i))
      modifies `files, `answers, `ios, `cfg, `seen
      ensures start == old(start) && |staged| == |batch|
      ensures At(id, batch, nonce, staged, if ok then Install(i) else StartRollback(cfg.call))
    {
      Delete(Backup(nonce, i));
      ok, staged := MoveToBackup(id, batch, nonce, staged0, i);
    }

    method MoveToBackup(ghost id: TxID, batch: seq<Doc>, nonce: nat, staged0: seq<Staged>, i: nat)
      returns (ok: bool, staged: seq<Staged>)
      requires i < |staged0| == |batch| && At(id, batch, nonce, staged0, AsideMove(i))
      modifies `files, `answers, `ios, `cfg, `seen
      ensures start == old(start) && |staged| == |batch|
      ensures At(id, batch, nonce, staged, if ok then Install(i) else StartRollback(old(cfg).call))
    {
      staged := staged0;
      var io := Ask();
      ok := io.Good? && batch[i].path in files;
      if ok { files := Rename(files, batch[i].path, Backup(nonce, i)); }
      assert Step(cfg.fs, cfg.call, io) == InstallStep(cfg.fs, cfg.call, io);
      Advance(io);
      if ok { staged := staged[i := staged[i].(backup := true)]; }
    }

    /** Undoes the installed slots from the last to the first, then drops what is still staged. */
    method Rollback(ghost id: TxID, batch: seq<Doc>, nonce: nat, staged: seq<Staged>)
      requires |staged| <= |batch| && At(id, batch, nonce, staged, StartRollback(cfg.call))
      modifies `files, `answers, `ios, `cfg, `seen
      ensures start == old(start) && At(id, batch, nonce, staged, DropTmp(0))
    {
      var i: nat := |staged|;
      while i > 0
        invariant i <= |staged| && start == old(start)
        invariant At(id, batch, nonce, staged, if i == 0 then DropTmp(0) else RbRemove(i - 1))
      {
        i := i - 1;
        RollbackOne(id, batch, nonce, staged, i);
      }
    }

    method RollbackOne(ghost id: TxID, batch: seq<Doc>, nonce: nat, staged: seq<Staged>, i: nat)
      requires i < |staged| <= |batch| && At(id, batch, nonce, staged, RbRemove(i))
      modifies `files, `answers, `ios, `cfg, `seen
      ensures start == old(start)
      ensures At(id, batch, nonce, staged, if i == 0 then DropTmp(0) else RbRemove(i - 1))
    {
      if staged[i].installed { Delete(batch[i].path); } else { Pass(); }
      RestoreOne(id, batch, nonce, staged, i);
      if staged[i].installed { Pass(); } else { Delete(Tmp(nonce, i)); }
    }

    method RestoreOne(ghost id: TxID, batch: seq<Doc>, nonce: nat, staged: seq<Staged>, i: nat)
      requires i < |staged| <= |batch| && At(id, batch, nonce, staged, RbRestore(i))
      modifies `files, `answers, `ios, `cfg, `seen
      ensures start == old(start) && At(id, batch, nonce, staged, RbTmp(i))
    {
      var io := Good;
      if staged[i].backup {
        io := Ask();
        if io.Good? && Backup(nonce, i) in files { files := Rename(files, Backup(nonce, i), batch[i].path); }
      }
      assert Step(cfg.fs, cfg.call, io) == RollbackStep(cfg.fs, cfg.call, io);
      Advance(io);
    }

    /** The deferred removal of staged files that were never installed. */
    method DropStaged(ghost id: TxID, ghost batch: seq<Doc>, nonce: nat, staged: seq<Staged>)
      requires |staged| <= |batch| && At(id, batch, nonce, staged, DropTmp(0))
      modifies `files, `answers, `ios, `cfg, `seen
      ensures start == old(start) && At(id, batch, nonce, staged, DropManifest(false))
    {
      var i := 0;
      while i < |staged|
        invariant i <= |staged| && start == old(start)
        invariant At(id, batch, nonce, staged, DropTmp(i))
      {
        if staged[i].installed { Pass(); } else { Delete(Tmp(nonce, i)); }
        i := i + 1;
      }
      Pass();
    }

    /** Removes the backups once the trade is marked. */
    method Cleanup(ghost id: TxID, ghost batch: seq<Doc>, nonce: nat, staged: seq<Staged>)
      requires |staged| == |batch| && At(id, batch, nonce, staged, Persist.Cleanup(0))
      modifies `files, `answers, `ios, `cfg, `seen
      ensures start == old(start) && At(id, batch, nonce, staged, DropCommitted)
    {
      var i := 0;
      while i < |staged|
        invariant i <= |staged| && start == old(start)
        invariant At(id, batch, nonce, staged, Persist.Cleanup(i))
      {
        if staged[i].backup { Delete(Backup(nonce, i)); } else { Pass(); }
        i := i + 1;
      }
      Pass();
    }

    /** Creates the reservation exclusively; a file that cannot be written after it was created is removed. */
    method Reserve(id: TxID, ghost batch: seq<Doc>, ghost nonce: nat) returns (ok: bool)
      requires At(id, batch, nonce, [], Persist.Reserve)
      modifies `files, `answers, `ios, `cfg, `seen
      ensures start == old(start)
      ensures At(id, batch, nonce, [], if ok then ManWrite(Preparing) else Done(false))
    {
      var io := Ask();
      if Reservation(id) in files || io.Bad? {
        Advance(io);
        return false;
      }
      files := files[Reservation(id) := if io.Good? then Record else Corrupt];
      Advance(io);
      if io.Late? { Delete(Reservation(id)); }
      ok := io.Good?;
    }

    /** Creates a record exclusively: an existing file is as good as a failure. */
    method CreateRecord(p: Path) returns (io: IO)
      requires Tracks()
      requires (p == Committed(cfg.call.id) && cfg.call.pc.CommitRecord?)
               || (p == Executed(cfg.call.id) && cfg.call.pc.Mark?)
      modifies `files, `answers, `ios, `cfg, `seen
      ensures Tracks() && start == old(start)
      ensures cfg.call == old(cfg).call.(pc :=
                if io.Good? then (if p.Committed? then Mark else Persist.Cleanup(0))
                else if io.Late? then (if p.Committed? then CommitUndo else MarkUndo)
                else (if p.Committed? then StartRollback(old(cfg).call) else DropManifest(false)))
    {
      io := Ask();
      var taken := p in files;
      if !taken && !io.Bad? { files := files[p := if io.Good? then Record else Corrupt]; }
      assert Step(cfg.fs, cfg.call, io) == RecordStep(cfg.fs, cfg.call, io);
      Advance(io);
      if taken { io := Bad; }
    }

    method WriteCommitRecord(id: TxID, ghost batch: seq<Doc>, ghost nonce: nat, ghost staged: seq<Staged>)
      returns (ok: bool)
      requires |staged| == |batch| && At(id, batch, nonce, staged, CommitRecord)
      modifies `files, `answers, `ios, `cfg, `seen
      ensures start == old(start)
      ensures At(id, batch, nonce, staged, if ok then Mark else StartRollback(old(cfg).call))
    {
      var io := CreateRecord(Committed(id));
      if io.Late? { Delete(Committed(id)); }
      ok := io.Good?;
    }

    method WriteExecutedMarker(id: TxID, ghost batch: seq<Doc>, ghost nonce: nat, ghost staged: seq<Staged>)
      returns (ok: bool)
      requires |staged| == |batch| && At(id, batch, nonce, staged, Mark)
      modifies `files, `answers, `ios, `cfg, `seen
      ensures start == old(start)
      ensures At(id, batch, nonce, staged, if ok then Persist.Cleanup(0) else DropManifest(false))
    {
      var io := CreateRecord(Executed(id));
      if io.Late? { Delete(Executed(id)); }
      ok := io.Good?;
    }

    /** Stages and installs every document of the batch, or undoes what it installed. */
    method WriteBatch(id: TxID, batch: seq<Doc>, nonce: nat) returns (ok: bool, staged: seq<Staged>)
      requires |batch| > 0 && At(id, batch, nonce, [], Stage(0))
      modifies `files, `answers, `ios, `cfg, `seen
      ensures start == old(start) && (ok ==> |staged| == |batch|)
      ensures |staged| <= |batch| && At(id, batch, nonce, staged, if ok then CommitRecord else DropManifest(false))
    {
      ok, staged := StageFiles(id, batch, nonce);
      if ok {
        ok := WriteManifest(id, Applying, batch, nonce, staged);
        if ok {
          ok, staged := InstallFiles(id, batch, nonce, staged);
          if ok { ok := WriteManifest(id, Committing, batch, nonce, staged); }
        }
        if !ok { Rollback(id, batch, nonce, staged); }
      }
      if !ok { DropStaged(id, batch, nonce, staged); }
    }

    /** Records the commit and marks the trade, once its targets are in place. */
    method Commit(id: TxID, batch: seq<Doc>, nonce: nat, staged: seq<Staged>) returns (ok: bool)
      requires |staged| == |batch| && At(id, batch, nonce, staged, CommitRecord)
      modifies `files, `answers, `ios, `cfg, `seen
      ensures start == old(start)
      ensures At(id, batch, nonce, staged, DropManifest(ok))
    {
      ok := WriteCommitRecord(id, batch, nonce, staged);
      if !ok {
        Rollback(id, batch, nonce, staged);
        DropStaged(id, batch, nonce, staged);
        return;
      }
      ok := WriteExecutedMarker(id, batch, nonce, staged);
      if ok {
        Cleanup(id, batch, nonce, staged);
        Delete(Committed(id));
      }
    }

    /** The part of the call between reserving the trade and removing the reservation. */
    method Transact(id: TxID, batch: seq<Doc>, nonce: nat) returns (ok: bool, ghost staged: seq<Staged>)
      requires |batch| > 0 && At(id, batch, nonce, [], ManWrite(Preparing))
      modifies `files, `answers, `ios, `cfg, `seen
      ensures start == old(start) && |staged| <= |batch|
      ensures At(id, batch, nonce, staged, Release(ok))
    {
      ok := WriteManifest(id, Preparing, batch, nonce, []);
      staged := [];
      if ok {
        var slots: seq<Staged>;
        ok, slots := WriteBatch(id, batch, nonce);
        if ok { ok := Commit(id, batch, nonce, slots); }
        Delete(Manifest(id));
        staged := slots;
      }
    }

    method Execute(id: TxID, batch: seq<Doc>, nonce: nat) returns (ok: bool)
      requires |batch| > 0 && At(id, batch, nonce, [], Persist.Reserve)
      modifies `files, `answers, `ios, `cfg, `seen
      ensures start == old(start) && Tracks() && cfg.call.pc == Done(ok)
    {
      ok := Reserve(id, batch, nonce);
      if ok {
        ghost var staged;
        ok, staged := Transact(id, batch, nonce);
        Delete(Reservation(id));
      }
    }

    /** Persists an executed trade. The disk follows the step machine from start to end. Whatever fails, the
        call adds no evidence but its own, and only when it did not start with some. With at most one I/O
        error it ends with the new targets and evidence after a success, after a failure exactly when what
        failed was the executed marker, and on the way the targets never change without evidence. */
    method PersistExecutedTrade(id: TxID, body: Bytes, states: seq<NodeState>, nonce: nat) returns (ok: bool)
      modifies this
      ensures var batch := BatchOf(id, body, states);
              && start == Config(old(files), Begin(id, batch, nonce))
              && After(start, ios) == Some(cfg) && files == cfg.fs && seen == States(start, ios)
              && cfg.call.pc == Done(ok)
              && Faults(ios) <= Faults(old(answers))
      ensures HasExecuted(old(files), id) ==> !ok && files == old(files)
      ensures Evidence(old(files)) <= Evidence(files) <= Evidence(old(files)) + {id}
      ensures ok ==> id !in Evidence(old(files)) && Evidence(files) == Evidence(old(files)) + {id}
      ensures var batch := BatchOf(id, body, states);
              !HasExecuted(old(files), id) && Faults(old(answers)) <= 1 ==>
                && Targets(files) == (if ok || MarkerFailed() then Put(Targets(old(files)), batch)
                                      else Targets(old(files)))
                && (HasExecuted(files, id) <==> ok || MarkerFailed())
                && (Faults(old(answers)) == 0 ==> ok)
                && (forall fs :: fs in seen && Targets(fs) != Targets(old(files)) ==> HasExecuted(fs, id))
    {
      var batch := BatchOf(id, body, states);
      BatchValid(id, body, states);
      start := Config(files, Begin(id, batch, nonce));
      ios, cfg, seen, budget := [], start, {files}, Faults(answers);
      var rejected := HasExecutedTrade(id);
      assert Step(cfg.fs, cfg.call, Good) == ReserveStep(cfg.fs, cfg.call, Good);
      Advance(Good);
      if rejected { return false; }
      ok := Execute(id, batch, nonce);
      RunEvidence(start, ios, id, batch, nonce);
      if Faults(old(answers)) <= 1 { RunContract(start, ios, id, batch, nonce); }
    }

    /** The trade ids recovery meets: one entry for each artifact, in file name order. */
    method RecoverTransactions(ids: seq<TxID>) returns (ok: bool)
      requires Distinct(ids)
      modifies `files
      ensures (files, ok) == Recovery.Recover(old(files), ids)
    {
      var entries := Listing(files, ids);
      ListingCoversIds(files, files, ids);
      var i := 0;
      ok := true;
      while i < |entries|
        invariant i <= |entries|
        invariant Recovery.Recover(files, entries[i..]) == Recovery.Recover(old(files), entries)
      {
        var id := entries[i];
        assert entries[i..][1..] == entries[i + 1..];
        var recovered := RecoverEntry(id);
        if !recovered { return false; }
        i := i + 1;
      }
    }

    method RecoverEntry(id: TxID) returns (ok: bool)
      modifies `files
      ensures ok <==> RecoverOne(old(files), id).Some?
      ensures files == if ok then RecoverOne(old(files), id).value else old(files)
    {
      DropThree(files, id);
      DropThree(files[Executed(id) := Record], id);
      if Executed(id) in files {
        files := files - {Committed(id)} - {Reservation(id)} - {Manifest(id)};
        return true;
      }
      var hasManifest := Manifest(id) in files;
      if hasManifest && !files[Manifest(id)].ManifestDoc? { return false; }
      if Committed(id) in files || (hasManifest && files[Manifest(id)].phase.Committing?) {
        if !hasManifest || !Verified(files, id, files[Manifest(id)]) { return false; }
        assert ([WriteMarker(id)] + DropArtifacts(id))[1..] == DropArtifacts(id);
        files := files[Executed(id) := Record];
        files := files - {Committed(id)} - {Reservation(id)} - {Manifest(id)};
        return true;
      }
      if hasManifest {
        ok := files[Manifest(id)].phase.Preparing?;
      } else {
        ok := true;
      }
    }
  }
}
