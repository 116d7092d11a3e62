/** PersistExecutedTrade as a program counter machine: one step is one file operation. */
module Persist {
  import opened Base
  import opened Files

  /** How the operating system answers one operation: it works, it fails with no effect, or it fails
      after creating the file. */
  datatype IO = Good | Bad | Late

  /** One slot of the staged batch. Its temporary file is Tmp(call, slot) until installed. */
  datatype Staged = Staged(backup: bool, installed: bool)

  datatype Pc =
    | Check
    | Reserve
    | ReserveUndo
    | ManWrite(phase: Phase)
    | ManRename(phase: Phase)
    | Stage(i: nat)
    | Aside(i: nat)
    | AsideDrop(i: nat)
    | AsideMove(i: nat)
    | Install(i: nat)
    | CommitRecord
    | CommitUndo
    | Mark
    | MarkUndo
    | Cleanup(i: nat)
    | DropCommitted
    | RbRemove(i: nat)
    | RbRestore(i: nat)
    | RbTmp(i: nat)
    | DropTmp(i: nat)
    | DropManifest(ok: bool)
    | Release(ok: bool)
    | Done(ok: bool)

  datatype Call = Call(id: TxID, batch: seq<Doc>, nonce: nat, pc: Pc, staged: seq<Staged>)

  datatype Config = Config(fs: FS, call: Call)

  function Begin(id: TxID, batch: seq<Doc>, nonce: nat): Call {
    Call(id, batch, nonce, Check, [])
  }

  /** One document the call may write: the authorized trade itself, or state of a node under the
      node's own name. */
  predicate ValidDoc(id: TxID, doc: Doc) {
    match doc.path
    case TradeFile(t) => t == id && doc.content.TradeDoc? && doc.content.authID == id
    case Inventory(n) => doc.content.StateDoc? && doc.content.node == n && doc.content.unitsParse
    case Flow(n) => doc.content.StateDoc? && doc.content.node == n && doc.content.unitsParse
    case Prices(n) => doc.content.StateDoc? && doc.content.node == n && doc.content.unitsParse
    case _ => false
  }

  predicate ValidBatch(id: TxID, batch: seq<Doc>) {
    && |batch| > 0
    && batch[0].path == TradeFile(id)
    && forall i :: 0 <= i < |batch| ==> ValidDoc(id, batch[i])
  }

  function ManifestOf(c: Call, phase: Phase): Content {
    ManifestDoc(c.id, phase, PathsOf(c.batch))
  }

  function Remove(fs: FS, p: Path, io: IO): FS {
    if io.Good? then fs - {p} else fs
  }

  function Rename(fs: FS, from: Path, to: Path): FS
    requires from in fs
  {
    (fs - {from})[to := fs[from]]
  }

  /** Where control goes when the manifest of a phase could not be written. */
  function ManifestFailed(c: Call, phase: Phase): Pc {
    if phase.Preparing? then Release(false) else StartRollback(c)
  }

  function ManifestWritten(phase: Phase): Pc {
    match phase
    case Preparing => Stage(0)
    case Applying => Aside(0)
    case _ => CommitRecord
  }

  /** Rollback walks the staged slots from the last to the first. */
  function StartRollback(c: Call): Pc {
    if |c.staged| == 0 then DropTmp(0) else RbRemove(|c.staged| - 1)
  }

  function To(fs: FS, c: Call, pc: Pc): Config {
    Config(fs, c.(pc := pc))
  }

  predicate SlotInRange(c: Call) {
    match c.pc
    case Stage(i) => |c.staged| == i <= |c.batch|
    case Aside(i) => i <= |c.staged| == |c.batch|
    case AsideDrop(i) => i < |c.staged| == |c.batch|
    case AsideMove(i) => i < |c.staged| == |c.batch|
    case Install(i) => i < |c.staged| == |c.batch|
    case Cleanup(i) => i <= |c.staged| == |c.batch|
    case RbRemove(i) => i < |c.staged| <= |c.batch|
    case RbRestore(i) => i < |c.staged| <= |c.batch|
    case RbTmp(i) => i < |c.staged| <= |c.batch|
    case DropTmp(i) => i <= |c.staged| <= |c.batch|
    case Check => c.staged == []
    case Reserve => c.staged == []
    case ReserveUndo => c.staged == []
    case ManWrite(phase) => if phase.Preparing? then c.staged == [] else |c.staged| == |c.batch|
    case ManRename(phase) => if phase.Preparing? then c.staged == [] else |c.staged| == |c.batch|
    case CommitRecord => |c.staged| == |c.batch|
    case CommitUndo => |c.staged| == |c.batch|
    case Mark => |c.staged| == |c.batch|
    case MarkUndo => |c.staged| == |c.batch|
    case DropCommitted => |c.staged| == |c.batch|
    case _ => |c.staged| <= |c.batch|
  }

  predicate AtReserve(pc: Pc) { pc.Check? || pc.Reserve? || pc.ReserveUndo? }

  predicate AtManifest(pc: Pc) { pc.ManWrite? || pc.ManRename? }

  predicate AtInstall(pc: Pc) { pc.Aside? || pc.AsideDrop? || pc.AsideMove? || pc.Install? }

  predicate AtRecord(pc: Pc) { pc.CommitRecord? || pc.CommitUndo? || pc.Mark? || pc.MarkUndo? }

  predicate AtTail(pc: Pc) { pc.Cleanup? || pc.DropCommitted? || pc.DropManifest? || pc.Release? }

  predicate AtRollback(pc: Pc) { pc.RbRemove? || pc.RbRestore? || pc.RbTmp? || pc.DropTmp? }

  /** One operation keeps the call well formed and changes only its program counter and slots. */
  predicate Continues(c: Call, next: Call) {
    next.id == c.id && next.batch == c.batch && next.nonce == c.nonce && SlotInRange(next)
  }

  function ReserveStep(fs: FS, c: Call, io: IO): (r: Config)
    requires SlotInRange(c) && AtReserve(c.pc)
    ensures Continues(c, r.call)
  {
    match c.pc
    case Check => To(fs, c, if HasExecuted(fs, c.id) then Done(false) else Reserve)
    case Reserve =>
      if Reservation(c.id) in fs || io.Bad? then To(fs, c, Done(false))
      else if io.Good? then To(fs[Reservation(c.id) := Record], c, ManWrite(Preparing))
      else To(fs[Reservation(c.id) := Corrupt], c, ReserveUndo)
    case ReserveUndo => To(Remove(fs, Reservation(c.id), io), c, Done(false))
  }

  /** The manifest is written to a temporary file and renamed into place. */
  function ManifestStep(fs: FS, c: Call, io: IO): (r: Config)
    requires SlotInRange(c) && AtManifest(c.pc)
    ensures Continues(c, r.call)
  {
    match c.pc
    case ManWrite(phase) =>
      if io.Good? then To(fs[ManifestTmp(c.id) := ManifestOf(c, phase)], c, ManRename(phase))
      else To(if io.Bad? then fs else fs[ManifestTmp(c.id) := Corrupt], c, ManifestFailed(c, phase))
    case ManRename(phase) =>
      if io.Good? && ManifestTmp(c.id) in fs
      then To(Rename(fs, ManifestTmp(c.id), Manifest(c.id)), c, ManifestWritten(phase))
      else To(fs, c, ManifestFailed(c, phase))
  }

  function StageStep(fs: FS, c: Call, io: IO): (r: Config)
    requires SlotInRange(c) && c.pc.Stage?
    ensures Continues(c, r.call)
  {
    var i := c.pc.i;
    if i == |c.batch| then To(fs, c, ManWrite(Applying))
    else if io.Good? then
      Config(fs[Tmp(c.nonce, i) := c.batch[i].content],
             c.(pc := Stage(i + 1), staged := c.staged + [Staged(false, false)]))
    else To(fs, c, DropTmp(0))
  }

  /** An existing target is moved to a fresh backup name before the staged file is renamed over it. */
  function InstallStep(fs: FS, c: Call, io: IO): (r: Config)
    requires SlotInRange(c) && AtInstall(c.pc)
    ensures Continues(c, r.call)
  {
    match c.pc
    case Aside(i) =>
      if i == |c.batch| then To(fs, c, ManWrite(Committing))
      else if !io.Good? then To(fs, c, StartRollback(c))
      else if c.batch[i].path in fs then To(fs[Backup(c.nonce, i) := Corrupt], c, AsideDrop(i))
      else To(fs, c, Install(i))
    case AsideDrop(i) => To(Remove(fs, Backup(c.nonce, i), io), c, AsideMove(i))
    case AsideMove(i) =>
      if io.Good? && c.batch[i].path in fs then
        Config(Rename(fs, c.batch[i].path, Backup(c.nonce, i)),
               c.(pc := Install(i), staged := c.staged[i := c.staged[i].(backup := true)]))
      else To(fs, c, StartRollback(c))
    case Install(i) =>
      if io.Good? && Tmp(c.nonce, i) in fs then
        Config(Rename(fs, Tmp(c.nonce, i), c.batch[i].path),
               c.(pc := Aside(i + 1), staged := c.staged[i := c.staged[i].(installed := true)]))
      else To(fs, c, StartRollback(c))
  }

  /** The commit record and the executed marker are created exclusively: an existing file is an error. */
  function RecordStep(fs: FS, c: Call, io: IO): (r: Config)
    requires SlotInRange(c) && AtRecord(c.pc)
    ensures Continues(c, r.call)
  {
    match c.pc
    case CommitRecord =>
      if Committed(c.id) in fs || io.Bad? then To(fs, c, StartRollback(c))
      else if io.Good? then To(fs[Committed(c.id) := Record], c, Mark)
      else To(fs[Committed(c.id) := Corrupt], c, CommitUndo)
    case CommitUndo => To(Remove(fs, Committed(c.id), io), c, StartRollback(c))
    case Mark =>
      if Executed(c.id) in fs || io.Bad? then To(fs, c, DropManifest(false))
      else if io.Good? then To(fs[Executed(c.id) := Record], c, Cleanup(0))
      else To(fs[Executed(c.id) := Corrupt], c, MarkUndo)
    case MarkUndo => To(Remove(fs, Executed(c.id), io), c, DropManifest(false))
  }

  function RollbackStep(fs: FS, c: Call, io: IO): (r: Config)
    requires SlotInRange(c) && AtRollback(c.pc)
    ensures Continues(c, r.call)
  {
    match c.pc
    case RbRemove(i) =>
      To(if c.staged[i].installed then Remove(fs, c.batch[i].path, io) else fs, c, RbRestore(i))
    case RbRestore(i) =>
      To(if c.staged[i].backup && io.Good? && Backup(c.nonce, i) in fs
         then Rename(fs, Backup(c.nonce, i), c.batch[i].path) else fs, c, RbTmp(i))
    case RbTmp(i) =>
      To(if c.staged[i].installed then fs else Remove(fs, Tmp(c.nonce, i), io), c,
         if i == 0 then DropTmp(0) else RbRemove(i - 1))
    case DropTmp(i) =>
      if i == |c.staged| then To(fs, c, DropManifest(false))
      else To(if c.staged[i].installed then fs else Remove(fs, Tmp(c.nonce, i), io), c, DropTmp(i + 1))
  }

  function TailStep(fs: FS, c: Call, io: IO): (r: Config)
    requires SlotInRange(c)
    requires AtTail(c.pc)
    ensures Continues(c, r.call)
  {
    match c.pc
    case Cleanup(i) =>
      if i == |c.staged| then To(fs, c, DropCommitted)
      else To(if c.staged[i].backup then Remove(fs, Backup(c.nonce, i), io) else fs, c, Cleanup(i + 1))
    case DropCommitted => To(Remove(fs, Committed(c.id), io), c, DropManifest(true))
    case DropManifest(ok) => To(Remove(fs, Manifest(c.id), io), c, Release(ok))
    case Release(ok) => To(Remove(fs, Reservation(c.id), io), c, Done(ok))
  }

  /** The next operation of a call, answered by the system with `io`. */
  function Step(fs: FS, c: Call, io: IO): (r: Config)
    requires SlotInRange(c) && !c.pc.Done?
    ensures Continues(c, r.call)
  {
    if AtReserve(c.pc) then ReserveStep(fs, c, io)
    else if AtManifest(c.pc) then ManifestStep(fs, c, io)
    else if c.pc.Stage? then StageStep(fs, c, io)
    else if AtInstall(c.pc) then InstallStep(fs, c, io)
    else if AtRecord(c.pc) then RecordStep(fs, c, io)
    else if AtRollback(c.pc) then RollbackStep(fs, c, io)
    else TailStep(fs, c, io)
  }

  /** How many steps a call can still take. */
  function Remaining(c: Call): nat
    requires SlotInRange(c)
  {
    var n := |c.batch|;
    match c.pc
    case Done(_) => 0
    case Release(_) => 1
    case DropManifest(_) => 2
    case DropCommitted => 3
    case Cleanup(i) => 4 + n - i
    case DropTmp(i) => 4 + n - i
    case RbTmp(i) => 5 + n + 3 * i
    case RbRestore(i) => 6 + n + 3 * i
    case RbRemove(i) => 7 + n + 3 * i
    case MarkUndo => 5 + n
    case Mark => 6 + n
    case CommitUndo => 7 + 4 * n
    case CommitRecord => 8 + 4 * n
    case ManRename(phase) =>
      if phase.Preparing? then 15 + 9 * n else if phase.Applying? then 12 + 8 * n else 9 + 4 * n
    case ManWrite(phase) =>
      if phase.Preparing? then 16 + 9 * n else if phase.Applying? then 13 + 8 * n else 10 + 4 * n
    case Install(i) => 11 + 4 * n + 4 * (n - i - 1) + 1
    case AsideMove(i) => 11 + 4 * n + 4 * (n - i - 1) + 2
    case AsideDrop(i) => 11 + 4 * n + 4 * (n - i - 1) + 3
    case Aside(i) => 11 + 4 * n + 4 * (n - i)
    case Stage(i) => 14 + 8 * n + (n - i)
    case ReserveUndo => 1
    case Reserve => 17 + 9 * n
    case Check => 18 + 9 * n
  }

  lemma ReserveProgress(fs: FS, c: Call, io: IO)
    requires SlotInRange(c) && AtReserve(c.pc)
    ensures Remaining(ReserveStep(fs, c, io).call) < Remaining(c)
  {
  }

  lemma ManifestProgress(fs: FS, c: Call, io: IO)
    requires SlotInRange(c) && AtManifest(c.pc)
    ensures Remaining(ManifestStep(fs, c, io).call) < Remaining(c)
  {
  }

  lemma StageProgress(fs: FS, c: Call, io: IO)
    requires SlotInRange(c) && c.pc.Stage?
    ensures Remaining(StageStep(fs, c, io).call) < Remaining(c)
  {
  }

  lemma InstallProgress(fs: FS, c: Call, io: IO)
    requires SlotInRange(c) && AtInstall(c.pc)
    ensures Remaining(InstallStep(fs, c, io).call) < Remaining(c)
  {
  }

  lemma RecordProgress(fs: FS, c: Call, io: IO)
    requires SlotInRange(c) && AtRecord(c.pc)
    ensures Remaining(RecordStep(fs, c, io).call) < Remaining(c)
  {
  }

  lemma RollbackProgress(fs: FS, c: Call, io: IO)
    requires SlotInRange(c) && AtRollback(c.pc)
    ensures Remaining(RollbackStep(fs, c, io).call) < Remaining(c)
  {
  }

  lemma TailProgress(fs: FS, c: Call, io: IO)
    requires SlotInRange(c) && AtTail(c.pc)
    ensures Remaining(TailStep(fs, c, io).call) < Remaining(c)
  {
  }

  /** Every call returns: each operation, whatever the system answers, brings it nearer its end. */
  lemma StepProgress(fs: FS, c: Call, io: IO)
    requires SlotInRange(c) && !c.pc.Done?
    ensures Remaining(Step(fs, c, io).call) < Remaining(c)
  {
    if AtReserve(c.pc) { ReserveProgress(fs, c, io); }
    else if AtManifest(c.pc) { ManifestProgress(fs, c, io); }
    else if c.pc.Stage? { StageProgress(fs, c, io); }
    else if AtInstall(c.pc) { InstallProgress(fs, c, io); }
    else if AtRecord(c.pc) { RecordProgress(fs, c, io); }
    else if AtRollback(c.pc) { RollbackProgress(fs, c, io); }
    else { TailProgress(fs, c, io); }
  }

  // ---- What a lone call keeps, relative to the disk it started from ----

  /** Paths only this call writes. */
  predicate Owned(c: Call, p: Path) {
    match p
    case Executed(t) => t == c.id
    case Committed(t) => t == c.id
    case Manifest(t) => t == c.id
    case Reservation(t) => t == c.id
    case ManifestTmp(t) => t == c.id
    case Tmp(n, _) => n == c.nonce
    case Backup(n, _) => n == c.nonce
    case _ => IsTarget(p)
  }

  ghost predicate Frame(base: FS, fs: FS, c: Call) {
    forall p :: !Owned(c, p) ==> (p in fs <==> p in base) && (p in fs ==> fs[p] == base[p])
  }

  /** The target files once the first i slots have had their effect, as their flags record it. */
  function Applied(t: FS, batch: seq<Doc>, staged: seq<Staged>, i: nat): FS
    requires i <= |staged| <= |batch|
  {
    if i == 0 then t
    else
      var before := Applied(t, batch, staged, i - 1);
      if staged[i - 1].installed then before[batch[i - 1].path := batch[i - 1].content]
      else if staged[i - 1].backup then before - {batch[i - 1].path}
      else before
  }

  /** Slot j can be undone: it has a backup exactly when there was a file to move, and the backup is
      that file. */
  predicate SlotUndoable(base: FS, fs: FS, c: Call, j: nat)
    requires j < |c.staged| <= |c.batch|
  {
    var before := Applied(Targets(base), c.batch, c.staged, j);
    c.staged[j].installed || c.staged[j].backup ==>
      && (c.staged[j].backup <==> c.batch[j].path in before)
      && (c.staged[j].backup ==>
            Backup(c.nonce, j) in fs && fs[Backup(c.nonce, j)] == before[c.batch[j].path])
  }

  ghost predicate Undoable(base: FS, fs: FS, c: Call, m: nat)
    requires m <= |c.staged| <= |c.batch|
  {
    forall j :: 0 <= j < m ==> SlotUndoable(base, fs, c, j)
  }

  /** The first k slots are installed and the rest untouched and staged. */
  predicate Forward(fs: FS, c: Call, k: nat) {
    && (forall j :: 0 <= j < |c.staged| && j < k ==> c.staged[j].installed)
    && (forall j :: k <= j < |c.staged| ==>
          !c.staged[j].installed && !c.staged[j].backup
          && Tmp(c.nonce, j) in fs && j < |c.batch| && fs[Tmp(c.nonce, j)] == c.batch[j].content)
  }

  predicate ManifestIs(fs: FS, c: Call, phase: Phase) {
    Manifest(c.id) in fs && fs[Manifest(c.id)] == ManifestOf(c, phase)
  }

  /** Which of the four artifacts exist, at each program point. */
  predicate Artifacts(fs: FS, c: Call) {
    var r, m := Reservation(c.id) in fs, Manifest(c.id) in fs;
    var cm, ex := Committed(c.id) in fs, Executed(c.id) in fs;
    match c.pc
    case Check => !r && !m && !cm && !ex
    case Reserve => !r && !m && !cm && !ex
    case ReserveUndo => r && !m && !cm && !ex
    case ManWrite(phase) => r && !cm && !ex && BeforeManifest(fs, c, phase)
    case ManRename(phase) =>
      r && !cm && !ex && BeforeManifest(fs, c, phase)
      && ManifestTmp(c.id) in fs && fs[ManifestTmp(c.id)] == ManifestOf(c, phase)
    case Stage(_) => r && ManifestIs(fs, c, Preparing) && !cm && !ex
    case Aside(_) => r && ManifestIs(fs, c, Applying) && !cm && !ex
    case AsideDrop(_) => r && ManifestIs(fs, c, Applying) && !cm && !ex
    case AsideMove(_) => r && ManifestIs(fs, c, Applying) && !cm && !ex
    case Install(_) => r && ManifestIs(fs, c, Applying) && !cm && !ex
    case CommitRecord => r && ManifestIs(fs, c, Committing) && !cm && !ex
    case CommitUndo => r && ManifestIs(fs, c, Committing) && cm && !ex
    case Mark => r && ManifestIs(fs, c, Committing) && cm && !ex
    case MarkUndo => r && ManifestIs(fs, c, Committing) && cm && ex
    case Cleanup(_) => r && ManifestIs(fs, c, Committing) && cm && ex
    case DropCommitted => r && ManifestIs(fs, c, Committing) && cm && ex
    case RbRemove(_) => r && m && !cm && !ex
    case RbRestore(_) => r && m && !cm && !ex
    case RbTmp(_) => r && m && !cm && !ex
    case DropTmp(_) => r && m && !cm && !ex
    case DropManifest(ok) => r && m && (ok <==> ex)
    case Release(ok) => r && (ok <==> ex) && (!ok ==> !m)
    case Done(ok) => (ok <==> ex) && (!ok ==> !m && !r)
  }

  predicate BeforeManifest(fs: FS, c: Call, phase: Phase) {
    match phase
    case Preparing => Manifest(c.id) !in fs
    case Applying => ManifestIs(fs, c, Preparing)
    case Committing => ManifestIs(fs, c, Applying)
    case Unknown => false
  }

  /** Slots below i are installed and can be undone; the rest are staged. */
  ghost predicate SlotsAt(base: FS, fs: FS, c: Call, i: nat)
    requires i <= |c.staged| <= |c.batch|
  {
    && Targets(fs) == Applied(Targets(base), c.batch, c.staged, i)
    && Forward(fs, c, i)
    && Undoable(base, fs, c, i)
  }

  /** Slot i has been moved aside if it was there, and its staged file is about to take its place. */
  ghost predicate InstallAt(base: FS, fs: FS, c: Call, i: nat)
    requires i < |c.staged| <= |c.batch|
  {
    && Targets(fs) == Applied(Targets(base), c.batch, c.staged, i) - {c.batch[i].path}
    && (forall j :: 0 <= j < i ==> c.staged[j].installed)
    && !c.staged[i].installed
    && (c.staged[i].backup <==> c.batch[i].path in Applied(Targets(base), c.batch, c.staged, i))
    && (forall j :: i < j < |c.staged| ==> !c.staged[j].installed && !c.staged[j].backup)
    && (forall j :: i <= j < |c.staged| ==>
          Tmp(c.nonce, j) in fs && fs[Tmp(c.nonce, j)] == c.batch[j].content)
    && Undoable(base, fs, c, i + 1)
  }

  /** The first i slots, and only they, have had their effect, and each can be undone. */
  ghost predicate RollAt(base: FS, fs: FS, c: Call, i: nat)
    requires i <= |c.staged| <= |c.batch|
  {
    && Targets(fs) == Applied(Targets(base), c.batch, c.staged, i)
    && Undoable(base, fs, c, i)
  }

  /** Slot i's new file is gone and its old one not yet back. */
  ghost predicate RestoreAt(base: FS, fs: FS, c: Call, i: nat)
    requires i < |c.staged| <= |c.batch|
  {
    var before := Applied(Targets(base), c.batch, c.staged, i);
    && Targets(fs) == (if c.staged[i].installed || c.staged[i].backup
                       then before - {c.batch[i].path} else before)
    && Undoable(base, fs, c, i + 1)
  }

  predicate Settled(base: FS, fs: FS, c: Call, ok: bool) {
    Targets(fs) == if ok || Committed(c.id) in fs then Put(Targets(base), c.batch) else Targets(base)
  }

  /** What the target files hold, at each program point. */
  ghost predicate TargetsAt(base: FS, fs: FS, c: Call)
    requires SlotInRange(c)
  {
    var t0, t := Targets(base), Targets(fs);
    match c.pc
    case Check => t == t0
    case Reserve => t == t0
    case ReserveUndo => t == t0
    case Stage(_) => t == t0 && Forward(fs, c, 0)
    case ManWrite(phase) => ManifestTargets(base, fs, c, phase)
    case ManRename(phase) => ManifestTargets(base, fs, c, phase)
    case Aside(i) => SlotsAt(base, fs, c, i)
    case AsideDrop(i) => SlotsAt(base, fs, c, i) && c.batch[i].path in t
    case AsideMove(i) => SlotsAt(base, fs, c, i) && c.batch[i].path in t
    case Install(i) => InstallAt(base, fs, c, i)
    case CommitRecord => SlotsAt(base, fs, c, |c.staged|)
    case CommitUndo => SlotsAt(base, fs, c, |c.staged|)
    case Mark => t == Put(t0, c.batch)
    case MarkUndo => t == Put(t0, c.batch)
    case Cleanup(_) => t == Put(t0, c.batch)
    case DropCommitted => t == Put(t0, c.batch)
    case RbRemove(i) => RollAt(base, fs, c, i + 1)
    case RbRestore(i) => RestoreAt(base, fs, c, i)
    case RbTmp(i) => RollAt(base, fs, c, i)
    case DropTmp(_) => t == t0
    case DropManifest(ok) => Settled(base, fs, c, ok)
    case Release(ok) => Settled(base, fs, c, ok)
    case Done(ok) => Settled(base, fs, c, ok)
  }

  ghost predicate ManifestTargets(base: FS, fs: FS, c: Call, phase: Phase)
    requires |c.staged| <= |c.batch|
  {
    match phase
    case Preparing => Targets(fs) == Targets(base)
    case Applying => Targets(fs) == Targets(base) && Forward(fs, c, 0)
    case _ => SlotsAt(base, fs, c, |c.staged|)
  }

  ghost predicate Inv(base: FS, fs: FS, c: Call) {
    && ValidBatch(c.id, c.batch)
    && SlotInRange(c)
    && Frame(base, fs, c)
    && Artifacts(fs, c)
    && TargetsAt(base, fs, c)
  }

  /** Points at which the code is undoing: the fault model of a single I/O error has none left. */
  predicate Undoing(pc: Pc) {
    match pc
    case ReserveUndo => true
    case CommitUndo => true
    case MarkUndo => true
    case RbRemove(_) => true
    case RbRestore(_) => true
    case RbTmp(_) => true
    case DropTmp(_) => true
    case DropManifest(ok) => !ok
    case Release(ok) => !ok
    case _ => false
  }

  lemma InvBegin(base: FS, id: TxID, batch: seq<Doc>, nonce: nat)
    requires ValidBatch(id, batch)
    requires !HasExecuted(base, id)
    ensures Inv(base, base, Begin(id, batch, nonce))
  {
  }

  lemma {:induction false} AppliedPrefix(t: FS, batch: seq<Doc>, s: seq<Staged>, s': seq<Staged>, i: nat)
    requires i <= |s| <= |batch| && i <= |s'| <= |batch|
    requires forall j :: 0 <= j < i ==> s[j] == s'[j]
    ensures Applied(t, batch, s, i) == Applied(t, batch, s', i)
  {
    if i > 0 { AppliedPrefix(t, batch, s, s', i - 1); }
  }

  lemma {:induction false} AppliedIdle(t: FS, batch: seq<Doc>, s: seq<Staged>, i: nat, k: nat)
    requires i <= k <= |s| <= |batch|
    requires forall j :: i <= j < k ==> !s[j].installed && !s[j].backup
    ensures Applied(t, batch, s, k) == Applied(t, batch, s, i)
  {
    if k > i { AppliedIdle(t, batch, s, i, k - 1); }
  }

  lemma {:induction false} AppliedAll(t: FS, batch: seq<Doc>, s: seq<Staged>, i: nat)
    requires i <= |s| <= |batch|
    requires forall j :: 0 <= j < i ==> s[j].installed
    ensures Applied(t, batch, s, i) == Put(t, batch[..i])
  {
    if i > 0 {
      AppliedAll(t, batch, s, i - 1);
      PutSnoc(t, batch, i - 1);
    }
  }

  /** Undoability of the slots below m survives changes elsewhere. */
  lemma UndoableKeeps(base: FS, fs: FS, c: Call, fs': FS, c': Call, m: nat)
    requires m <= |c.staged| <= |c.batch| && m <= |c'.staged| <= |c'.batch|
    requires c'.batch == c.batch && c'.nonce == c.nonce
    requires forall j :: 0 <= j < m ==> c'.staged[j] == c.staged[j]
    requires forall j :: 0 <= j < m && Backup(c.nonce, j) in fs ==>
               Backup(c.nonce, j) in fs' && fs'[Backup(c.nonce, j)] == fs[Backup(c.nonce, j)]
    requires Undoable(base, fs, c, m)
    ensures Undoable(base, fs', c', m)
  {
    forall j | 0 <= j < m ensures SlotUndoable(base, fs', c', j) {
      assert SlotUndoable(base, fs, c, j);
      AppliedPrefix(Targets(base), c.batch, c.staged, c'.staged, j);
    }
  }

  lemma RenameTargets(fs: FS, from: Path, to: Path)
    requires from in fs && from != to
    ensures IsTarget(from) && !IsTarget(to) ==> Targets(Rename(fs, from, to)) == Targets(fs) - {from}
    ensures !IsTarget(from) && IsTarget(to) ==> Targets(Rename(fs, from, to)) == Targets(fs)[to := fs[from]]
    ensures !IsTarget(from) && !IsTarget(to) ==> Targets(Rename(fs, from, to)) == Targets(fs)
  {
  }
}
