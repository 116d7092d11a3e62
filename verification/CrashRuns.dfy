/** A store used by one process at a time, crashing between any two file operations and recovering. */
module CrashRuns {
  import opened Base
  import opened Files
  import opened Persist
  import opened PersistSafety
  import opened PersistRuns
  import opened Recovery

  datatype Trade = Trade(id: TxID, batch: seq<Doc>)

  /** A store is idle, in the middle of a call that began on disk `base`, or not open. */
  datatype Mode = Idle | Running(base: FS, call: Call) | Closed

  /** `log` lists the trades whose committed manifest reached the disk, in that order. */
  datatype World = World(fs: FS, mode: Mode, log: seq<Trade>)

  /** The target files after all logged trades. */
  function Fold(t: FS, log: seq<Trade>): FS {
    if log == [] then t
    else Put(Fold(t, log[..|log| - 1]), log[|log| - 1].batch)
  }

  // ---- Transitions ----

  predicate Begins(ids: seq<TxID>, w: World, next: World, trade: Trade, nonce: nat) {
    && w.mode.Idle?
    && trade.id in ids && ValidBatch(trade.id, trade.batch)
    && next == w.(mode := Running(w.fs, Begin(trade.id, trade.batch, nonce)))
  }

  predicate Steps(w: World, next: World) {
    && w.mode.Running? && SlotInRange(w.mode.call) && !w.mode.call.pc.Done?
    && var c := w.mode.call;
       var r := Step(w.fs, c, Good);
       next == World(r.fs, Running(w.mode.base, r.call),
                     if c.pc == ManRename(Committing) then w.log + [Trade(c.id, c.batch)] else w.log)
  }

  predicate Returns(w: World, next: World) {
    w.mode.Running? && w.mode.call.pc.Done? && next == w.(mode := Idle)
  }

  predicate Crashes(w: World, next: World) {
    next == w.(mode := Closed)
  }

  predicate Recovers(ids: seq<TxID>, w: World, next: World) {
    && w.mode.Closed?
    && var (fs, ok) := Recover(w.fs, Listing(w.fs, ids));
       next == World(fs, if ok then Idle else Closed, w.log)
  }

  /** A crash during recovery: the first j listed entries done, and k operations of the next. */
  predicate RecoveryCrashes(ids: seq<TxID>, w: World, next: World, j: nat, k: nat) {
    && w.mode.Closed? && j < |Listing(w.fs, ids)|
    && var part := Interrupted(w.fs, Listing(w.fs, ids), j, k);
       part.Some? && next == w.(fs := part.value)
  }

  ghost predicate Next(ids: seq<TxID>, w: World, next: World) {
    || (exists trade, nonce :: Begins(ids, w, next, trade, nonce))
    || Steps(w, next)
    || Returns(w, next)
    || Crashes(w, next)
    || Recovers(ids, w, next)
    || (exists j, k :: RecoveryCrashes(ids, w, next, j, k))
  }

  ghost predicate IsTrace(ids: seq<TxID>, trace: seq<World>) {
    && Distinct(ids)
    && |trace| > 0
    && trace[0].mode.Idle? && trace[0].log == []
    && (forall id: TxID :: !HasExecuted(trace[0].fs, id))
    && (forall k :: 0 <= k < |trace| - 1 ==> Next(ids, trace[k], trace[k + 1]))
  }

  // ---- The invariant ----

  predicate InLog(log: seq<Trade>, id: TxID) {
    exists i :: 0 <= i < |log| && log[i].id == id
  }

  /** No transaction is half applied. */
  predicate Quiet(fs: FS, id: TxID) {
    Committed(id) !in fs && (Manifest(id) in fs ==> fs[Manifest(id)].ManifestDoc? && fs[Manifest(id)].phase.Preparing?)
  }

  ghost predicate Consistent(t: FS, fs: FS, log: seq<Trade>) {
    && Targets(fs) == Fold(t, log)
    && (forall id :: Executed(id) in fs <==> InLog(log, id))
    && (forall i, j :: 0 <= i < j < |log| ==> log[i].id != log[j].id)
    && (forall id :: Quiet(fs, id))
  }

  predicate AfterCommit(pc: Pc) {
    || AtRecord(pc) || pc.Cleanup? || pc.DropCommitted?
    || pc == DropManifest(true) || pc == Release(true) || pc == Done(true)
  }

  /** The artifacts removed so far on the way out of a call that met no error. */
  predicate CleanExit(fs: FS, c: Call) {
    && ((c.pc.DropManifest? || c.pc.Release? || c.pc.Done?) ==> Committed(c.id) !in fs)
    && ((c.pc.Release? || c.pc.Done?) ==> Manifest(c.id) !in fs)
  }

  ghost predicate RunningOk(ids: seq<TxID>, t: FS, w: World)
    requires w.mode.Running?
  {
    var base, c := w.mode.base, w.mode.call;
    && c.id in ids
    && SlotInRange(c)
    && if HasExecuted(base, c.id)
       then Consistent(t, base, w.log) && w.fs == base && (c.pc.Check? || c.pc == Done(false))
       else
         && Inv(base, w.fs, c) && !Failing(c.pc) && CleanExit(w.fs, c)
         && (if AfterCommit(c.pc)
             then |w.log| > 0 && w.log[|w.log| - 1] == Trade(c.id, c.batch)
                  && Consistent(t, base, w.log[..|w.log| - 1])
             else Consistent(t, base, w.log))
  }

  ghost predicate WorldOk(ids: seq<TxID>, t: FS, w: World) {
    match w.mode
    case Idle => Consistent(t, w.fs, w.log)
    case Running(_, _) => RunningOk(ids, t, w)
    case Closed => Recover(w.fs, ids).1 ==> Consistent(t, Recover(w.fs, ids).0, w.log)
  }

  // ---- What recovery makes of a disk ----

  /** The committed transaction recovery still has to mark. */
  predicate Ready(fs: FS, id: TxID) {
    && Executed(id) !in fs
    && Manifest(id) in fs && fs[Manifest(id)].ManifestDoc? && fs[Manifest(id)].phase.Committing?
    && Verified(fs, id, fs[Manifest(id)])
  }

  predicate Tame(fs: FS, id: TxID) {
    Executed(id) in fs || Quiet(fs, id)
  }

  lemma RecoverReady(fs: FS, id: TxID)
    requires Ready(fs, id)
    ensures RecoverOne(fs, id) == Some(fs[Executed(id) := Record] - {Committed(id), Reservation(id), Manifest(id)})
  {
    var ops := Plan(fs, id).value;
    assert ops[0] == WriteMarker(id) && ops[1..] == DropArtifacts(id);
    DropThree(fs[Executed(id) := Record], id);
  }

  lemma RecoverTame(fs: FS, id: TxID)
    requires Tame(fs, id)
    ensures RecoverOne(fs, id) ==
            Some(if Executed(id) in fs then fs - {Committed(id), Reservation(id), Manifest(id)} else fs)
  {
    DropThree(fs, id);
  }

  /** When every listed id is tame, or ready and equal to r, recovery succeeds: it keeps the targets,
      marks exactly r, and leaves no transaction half applied. */
  lemma {:induction false} RecoverAll(fs: FS, ids: seq<TxID>, r: TxID)
    requires forall id :: id in ids ==> Tame(fs, id) || (id == r && Ready(fs, id))
    ensures var (f, ok) := Recover(fs, ids);
            && ok
            && Targets(f) == Targets(fs)
            && (forall id :: Executed(id) in f <==>
                  Executed(id) in fs || (id == r && r in ids && Ready(fs, r)))
            && (forall id :: id in ids || Quiet(fs, id) ==> Quiet(f, id))
    decreases |ids|
  {
    if ids != [] {
      var id := ids[0];
      if Tame(fs, id) { RecoverTame(fs, id); } else { RecoverReady(fs, id); }
      var g := RecoverOne(fs, id).value;
      assert Targets(g) == Targets(fs);
      forall other | other != id ensures SameArtifacts(fs, g, other) && (Ready(fs, other) <==> Ready(g, other)) {
        ReadyIsLocal(fs, g, other);
      }
      assert Tame(g, id) && Quiet(g, id);
      forall other | other in ids[1..] ensures Tame(g, other) || (other == r && Ready(g, other)) {
        assert other in ids;
        assert other == id || SameArtifacts(fs, g, other);
      }
      RecoverAll(g, ids[1..], r);
    }
  }

  lemma ReadyIsLocal(f: FS, g: FS, id: TxID)
    requires SameArtifacts(f, g, id) && Targets(f) == Targets(g)
    ensures Ready(f, id) <==> Ready(g, id)
  {
    PlanIsLocal(f, g, id);
    if Executed(id) !in f && Manifest(id) in f && f[Manifest(id)].ManifestDoc? && f[Manifest(id)].phase.Committing? {
      assert Plan(f, id).Some? <==> Verified(f, id, f[Manifest(id)]);
      assert Plan(g, id).Some? <==> Verified(g, id, g[Manifest(id)]);
    }
  }

  /** When some listed id has no plan, and the others are tame, recovery stops with an error. */
  lemma {:induction false} RecoverStuck(fs: FS, ids: seq<TxID>, r: TxID)
    requires r in ids && Plan(fs, r).None?
    requires forall id :: id in ids && id != r ==> Tame(fs, id)
    ensures !Recover(fs, ids).1
    decreases |ids|
  {
    var id := ids[0];
    if id != r {
      RecoverTame(fs, id);
      var g := RecoverOne(fs, id).value;
      assert Targets(g) == Targets(fs);
      PlanIsLocal(fs, g, r);
      forall other | other in ids[1..] && other != r ensures Tame(g, other) {
        assert other in ids;
        assert other == id || SameArtifacts(fs, g, other);
      }
      RecoverStuck(g, ids[1..], r);
    }
  }

  // ---- A crash at each point of a call ----

  /** Other ids look, in the middle of a call, as they did when it began. */
  lemma OthersTame(base: FS, fs: FS, c: Call, id: TxID)
    requires Inv(base, fs, c) && id != c.id
    requires Quiet(base, id)
    ensures Quiet(fs, id) && (Executed(id) in fs <==> Executed(id) in base)
  {
    assert !Owned(c, Committed(id)) && !Owned(c, Manifest(id)) && !Owned(c, Executed(id));
  }

  lemma NewTargetsVerify(base: FS, fs: FS, c: Call)
    requires ValidBatch(c.id, c.batch)
    requires Targets(fs) == Put(Targets(base), c.batch)
    ensures Verified(fs, c.id, ManifestOf(c, Committing))
  {
    var t := Put(Targets(base), c.batch);
    assert PathsOf(c.batch)[0] == TradeFile(c.id);
    forall p | p in PathsOf(c.batch) ensures TargetValid(fs, c.id, p) {
      var i: nat :| i < |c.batch| && c.batch[i].path == p;
      var k := LastAt(c.batch, p, i);
      PutAt(Targets(base), c.batch, p);
      assert ValidDoc(c.id, c.batch[k]);
      assert t[p] == c.batch[k].content;
      assert p in Targets(fs) && fs[p] == t[p];
    }
  }

  /** The last document at a path that occurs in the batch. */
  lemma {:induction false} LastAt(batch: seq<Doc>, p: Path, i: nat) returns (k: nat)
    requires i < |batch| && batch[i].path == p
    ensures i <= k < |batch| && batch[k].path == p
    ensures forall j :: k < j < |batch| ==> batch[j].path != p
    decreases |batch| - i
  {
    if j: nat :| i < j < |batch| && batch[j].path == p {
      k := LastAt(batch, p, j);
    } else {
      k := i;
    }
  }

  /** A crash once the committed manifest is on disk always recovers to the trade executed, its targets
      new and its marker present. */
  lemma CommittedCrashRecovers(ids: seq<TxID>, base: FS, fs: FS, c: Call)
    requires c.id in ids && Inv(base, fs, c) && !Failing(c.pc) && AfterCommit(c.pc)
    requires forall id :: Quiet(base, id)
    ensures var (f, ok) := Recover(fs, ids);
            && ok && Targets(f) == Put(Targets(base), c.batch) && Executed(c.id) in f
            && (forall id :: Quiet(f, id))
            && (forall id :: id != c.id ==> (Executed(id) in f <==> Executed(id) in base))
  {
    CommittedTargets(base, fs, c);
    NewTargetsVerify(base, fs, c);
    forall id | id != c.id ensures Quiet(fs, id) && (Executed(id) in fs <==> Executed(id) in base) {
      OthersTame(base, fs, c, id);
    }
    assert Executed(c.id) in fs || Ready(fs, c.id);
    RecoverAll(fs, ids, c.id);
  }

  lemma CommittedTargets(base: FS, fs: FS, c: Call)
    requires Inv(base, fs, c) && !Failing(c.pc) && AfterCommit(c.pc)
    ensures Targets(fs) == Put(Targets(base), c.batch)
    ensures Executed(c.id) in fs || ManifestIs(fs, c, Committing)
  {
    if c.pc.CommitRecord? {
      AppliedAll(Targets(base), c.batch, c.staged, |c.staged|);
      assert c.batch[..|c.staged|] == c.batch;
    }
  }

  /** Points before the applying manifest is in place. */
  predicate BeforeApply(pc: Pc) {
    || AtReserve(pc) || pc.Stage?
    || (AtManifest(pc) && (pc.phase.Preparing? || pc.phase.Applying?))
  }

  /** A crash before the applying manifest recovers to the old targets and no marker. */
  lemma EarlyCrashRecovers(ids: seq<TxID>, base: FS, fs: FS, c: Call)
    requires c.id in ids && Inv(base, fs, c) && BeforeApply(c.pc)
    requires forall id :: Quiet(base, id)
    ensures var (f, ok) := Recover(fs, ids);
            && ok && Targets(f) == Targets(base) && Executed(c.id) !in f
            && (forall id :: Quiet(f, id))
            && (forall id :: id != c.id ==> (Executed(id) in f <==> Executed(id) in base))
  {
    assert Quiet(fs, c.id) && Executed(c.id) !in fs && Targets(fs) == Targets(base);
    forall id | id != c.id ensures Quiet(fs, id) && (Executed(id) in fs <==> Executed(id) in base) {
      OthersTame(base, fs, c, id);
    }
    RecoverAll(fs, ids, c.id);
  }

  /** A crash while targets are being replaced makes recovery stop with an error. */
  lemma ApplyingCrashStops(ids: seq<TxID>, base: FS, fs: FS, c: Call)
    requires c.id in ids && Inv(base, fs, c) && !Failing(c.pc)
    requires !AfterCommit(c.pc) && !BeforeApply(c.pc)
    requires forall id :: Quiet(base, id)
    ensures !Recover(fs, ids).1
  {
    assert ManifestIs(fs, c, Applying) && Committed(c.id) !in fs && Executed(c.id) !in fs;
    forall id | id in ids && id != c.id ensures Tame(fs, id) {
      OthersTame(base, fs, c, id);
    }
    RecoverStuck(fs, ids, c.id);
  }

  // ---- Every transition keeps the invariant ----

  lemma GoodExit(base: FS, fs: FS, c: Call)
    requires Inv(base, fs, c) && !c.pc.Done? && !Failing(c.pc) && CleanExit(fs, c)
    ensures var r := Step(fs, c, Good); CleanExit(r.fs, r.call)
  {
    GoodStep(base, fs, c);
    if AtTail(c.pc) {
      assert Step(fs, c, Good) == TailStep(fs, c, Good);
    } else if AtRecord(c.pc) {
      assert Step(fs, c, Good) == RecordStep(fs, c, Good);
    } else if AtReserve(c.pc) {
      assert Step(fs, c, Good) == ReserveStep(fs, c, Good);
    } else if AtManifest(c.pc) {
      assert Step(fs, c, Good) == ManifestStep(fs, c, Good);
    } else if AtInstall(c.pc) {
      assert Step(fs, c, Good) == InstallStep(fs, c, Good);
    }
  }

  lemma NotYetCommitted(base: FS, fs: FS, c: Call)
    requires Inv(base, fs, c) && !Failing(c.pc)
    ensures AtReserve(c.pc) ==> !AfterCommit(ReserveStep(fs, c, Good).call.pc)
    ensures c.pc.Stage? ==> !AfterCommit(StageStep(fs, c, Good).call.pc)
    ensures AtInstall(c.pc) ==> !AfterCommit(InstallStep(fs, c, Good).call.pc)
  {
    if AtInstall(c.pc) { GoodInstall(base, fs, c); }
  }

  lemma Commits(fs: FS, c: Call)
    requires SlotInRange(c) && AtManifest(c.pc) && Artifacts(fs, c)
    ensures AfterCommit(ManifestStep(fs, c, Good).call.pc) <==> c.pc == ManRename(Committing)
  {
  }

  lemma StaysCommitted(fs: FS, c: Call)
    requires SlotInRange(c) && !Failing(c.pc) && Artifacts(fs, c)
    ensures AtRecord(c.pc) ==> AfterCommit(RecordStep(fs, c, Good).call.pc)
    ensures AtTail(c.pc) ==> AfterCommit(TailStep(fs, c, Good).call.pc)
  {
  }

  /** The commit point is the renaming of the committed manifest, and nothing else passes it. */
  lemma CommitOnce(base: FS, fs: FS, c: Call)
    requires Inv(base, fs, c) && !c.pc.Done? && !Failing(c.pc)
    ensures AfterCommit(Step(fs, c, Good).call.pc) <==> AfterCommit(c.pc) || c.pc == ManRename(Committing)
  {
    if AtManifest(c.pc) { Commits(fs, c); }
    else if AtRecord(c.pc) || AtTail(c.pc) { StaysCommitted(fs, c); }
    else { NotYetCommitted(base, fs, c); }
  }

  lemma StepsKeep(ids: seq<TxID>, t: FS, w: World, next: World)
    requires WorldOk(ids, t, w) && Steps(w, next)
    ensures WorldOk(ids, t, next)
  {
    var base, c := w.mode.base, w.mode.call;
    if HasExecuted(base, c.id) {
      assert Step(w.fs, c, Good) == ReserveStep(w.fs, c, Good);
    } else {
      StepKeeps(base, w.fs, c, Good);
      GoodStep(base, w.fs, c);
      GoodExit(base, w.fs, c);
      CommitOnce(base, w.fs, c);
      if c.pc == ManRename(Committing) {
        assert next.log[..|next.log| - 1] == w.log;
      }
    }
  }

  /** Appending an executed trade to a consistent log. */
  lemma ConsistentSnoc(t: FS, base: FS, fs: FS, log: seq<Trade>)
    requires |log| > 0 && Consistent(t, base, log[..|log| - 1])
    requires Executed(log[|log| - 1].id) !in base
    requires Targets(fs) == Put(Targets(base), log[|log| - 1].batch)
    requires Executed(log[|log| - 1].id) in fs
    requires forall id :: id != log[|log| - 1].id ==> (Executed(id) in fs <==> Executed(id) in base)
    requires forall id :: Quiet(fs, id)
    ensures Consistent(t, fs, log)
  {
    var n := |log| - 1;
    forall id ensures Executed(id) in fs <==> InLog(log, id) {
      if InLog(log[..n], id) {
        var i :| 0 <= i < n && log[..n][i].id == id;
        assert log[i].id == id;
      }
      if InLog(log, id) && id != log[n].id {
        var i :| 0 <= i < |log| && log[i].id == id;
        assert log[..n][i].id == id;
      }
    }
    forall i, j | 0 <= i < j < |log| ensures log[i].id != log[j].id {
      if j == n {
        assert log[..n][i].id == log[i].id;
        assert InLog(log[..n], log[i].id);
      } else {
        assert log[..n][i] == log[i] && log[..n][j] == log[j];
      }
    }
  }

  lemma ReturnsKeep(ids: seq<TxID>, t: FS, w: World, next: World)
    requires WorldOk(ids, t, w) && Returns(w, next)
    ensures WorldOk(ids, t, next)
  {
    var base, c := w.mode.base, w.mode.call;
    if !HasExecuted(base, c.id) {
      forall id | id != c.id ensures Quiet(w.fs, id) && (Executed(id) in w.fs <==> Executed(id) in base) {
        OthersTame(base, w.fs, c, id);
      }
      assert Quiet(w.fs, c.id);
      ConsistentSnoc(t, base, w.fs, w.log);
    }
  }

  lemma ConsistentRecovers(ids: seq<TxID>, t: FS, fs: FS, log: seq<Trade>)
    requires Consistent(t, fs, log)
    ensures Recover(fs, ids).1 && Consistent(t, Recover(fs, ids).0, log)
  {
    assert Quiet(fs, ZERO_TX_ID) && !Ready(fs, ZERO_TX_ID);
    RecoverAll(fs, ids, ZERO_TX_ID);
  }

  lemma CrashesKeep(ids: seq<TxID>, t: FS, w: World, next: World)
    requires WorldOk(ids, t, w) && Crashes(w, next)
    ensures WorldOk(ids, t, next)
  {
    hide Inv, Recover;
    if w.mode.Idle? {
      ConsistentRecovers(ids, t, w.fs, w.log);
    } else if w.mode.Running? {
      var base, c := w.mode.base, w.mode.call;
      if HasExecuted(base, c.id) {
        ConsistentRecovers(ids, t, w.fs, w.log);
      } else if AfterCommit(c.pc) {
        CommittedCrashRecovers(ids, base, w.fs, c);
        ConsistentSnoc(t, base, Recover(w.fs, ids).0, w.log);
      } else if BeforeApply(c.pc) {
        EarlyCrashRecovers(ids, base, w.fs, c);
        assert Executed(c.id) !in base;
      } else {
        ApplyingCrashStops(ids, base, w.fs, c);
      }
    }
  }

  lemma RecoversKeep(ids: seq<TxID>, t: FS, w: World, next: World)
    requires Distinct(ids) && WorldOk(ids, t, w) && Recovers(ids, w, next)
    ensures WorldOk(ids, t, next)
  {
    ListingCoversIds(w.fs, w.fs, ids);
    RecoveryIdempotent(w.fs, ids);
  }

  lemma RecoveryCrashesKeep(ids: seq<TxID>, t: FS, w: World, next: World, j: nat, k: nat)
    requires Distinct(ids) && WorldOk(ids, t, w) && RecoveryCrashes(ids, w, next, j, k)
    ensures WorldOk(ids, t, next)
  {
    var i, m := ListingInterrupted(w.fs, w.fs, ids, j, k);
    RecoveryRestarts(w.fs, ids, i, m);
  }

  lemma NextKeeps(ids: seq<TxID>, t: FS, w: World, next: World)
    requires Distinct(ids) && WorldOk(ids, t, w) && Next(ids, w, next)
    ensures WorldOk(ids, t, next)
  {
    if trade, nonce :| Begins(ids, w, next, trade, nonce) {
      if !HasExecuted(w.fs, trade.id) { InvBegin(w.fs, trade.id, trade.batch, nonce); }
    } else if Steps(w, next) { StepsKeep(ids, t, w, next); }
    else if Returns(w, next) { ReturnsKeep(ids, t, w, next); }
    else if Crashes(w, next) { CrashesKeep(ids, t, w, next); }
    else if Recovers(ids, w, next) { RecoversKeep(ids, t, w, next); }
    else {
      var j, k :| RecoveryCrashes(ids, w, next, j, k);
      RecoveryCrashesKeep(ids, t, w, next, j, k);
    }
  }

  lemma {:induction false} TraceKeeps(ids: seq<TxID>, trace: seq<World>, k: nat)
    requires IsTrace(ids, trace) && k < |trace|
    ensures WorldOk(ids, Targets(trace[0].fs), trace[k])
  {
    if k == 0 {
      forall id ensures Executed(id) !in trace[0].fs && Quiet(trace[0].fs, id) {
        assert !HasExecuted(trace[0].fs, id);
      }
    } else {
      TraceKeeps(ids, trace, k - 1);
      NextKeeps(ids, Targets(trace[0].fs), trace[k - 1], trace[k]);
    }
  }

  /** Crash refinement. Whatever transactions were begun, and wherever the process crashed, in a call
      or inside recovery, whenever the store is open and idle again its target files are exactly the
      effect of the committed trades in commit order, and exactly those trades carry the marker, each
      committed once. */
  lemma CrashRefinement(ids: seq<TxID>, trace: seq<World>, k: nat)
    requires IsTrace(ids, trace) && k < |trace| && trace[k].mode.Idle?
    ensures Targets(trace[k].fs) == Fold(Targets(trace[0].fs), trace[k].log)
    ensures forall id :: Executed(id) in trace[k].fs <==> InLog(trace[k].log, id)
    ensures forall i, j :: 0 <= i < j < |trace[k].log| ==> trace[k].log[i].id != trace[k].log[j].id
  {
    TraceKeeps(ids, trace, k);
  }

  // ---- Markers are for ever ----

  lemma StepKeepsMarker(base: FS, fs: FS, c: Call, id: TxID)
    requires Inv(base, fs, c) && !c.pc.Done? && !Failing(c.pc) && Executed(id) in fs
    ensures Executed(id) in Step(fs, c, Good).fs
  {
    if AtInstall(c.pc) {
      if c.pc.i < |c.batch| { DocTargets(c.id, c.batch, c.pc.i); }
      assert Executed(id) in InstallStep(fs, c, Good).fs;
    } else if AtRollback(c.pc) {
      assert false;
    } else {
      assert AtReserve(c.pc) ==> Executed(id) in ReserveStep(fs, c, Good).fs;
      assert AtManifest(c.pc) ==> Executed(id) in ManifestStep(fs, c, Good).fs;
      assert c.pc.Stage? ==> Executed(id) in StageStep(fs, c, Good).fs;
      assert AtRecord(c.pc) ==> Executed(id) in RecordStep(fs, c, Good).fs;
      assert AtTail(c.pc) ==> Executed(id) in TailStep(fs, c, Good).fs;
    }
  }

  lemma {:induction false} RecoverKeepsMarker(fs: FS, entries: seq<TxID>, id: TxID)
    requires Executed(id) in fs
    ensures Executed(id) in Recover(fs, entries).0
    decreases |entries|
  {
    if entries != [] && Plan(fs, entries[0]).Some? {
      var ops := Plan(fs, entries[0]).value;
      PlanIsOfId(fs, entries[0], |ops|);
      OpsOfId(fs, ops, entries[0]);
      assert entries[0] == id || SameArtifacts(fs, ApplyAll(fs, ops), id);
      RecoverKeepsMarker(ApplyAll(fs, ops), entries[1..], id);
    }
  }

  lemma {:induction false} InterruptedKeepsMarker(fs: FS, entries: seq<TxID>, j: nat, k: nat, id: TxID)
    requires Executed(id) in fs && j < |entries| && Interrupted(fs, entries, j, k).Some?
    ensures Executed(id) in Interrupted(fs, entries, j, k).value
    decreases |entries|
  {
    var ops := Plan(fs, entries[0]).value;
    PlanIsOfId(fs, entries[0], |ops|);
    if j > 0 {
      OpsOfId(fs, ops, entries[0]);
      assert entries[0] == id || SameArtifacts(fs, ApplyAll(fs, ops), id);
      InterruptedKeepsMarker(ApplyAll(fs, ops), entries[1..], j - 1, k, id);
    } else {
      OpsOfId(fs, ops[..k], entries[0]);
      assert entries[0] == id || SameArtifacts(fs, ApplyAll(fs, ops[..k]), id);
    }
  }

  lemma NextKeepsMarker(ids: seq<TxID>, t: FS, w: World, next: World, id: TxID)
    requires Distinct(ids) && WorldOk(ids, t, w) && Next(ids, w, next)
    requires Executed(id) in w.fs
    ensures Executed(id) in next.fs
  {
    if Steps(w, next) {
      var base, c := w.mode.base, w.mode.call;
      if HasExecuted(base, c.id) {
        assert Step(w.fs, c, Good) == ReserveStep(w.fs, c, Good);
      } else {
        StepKeepsMarker(base, w.fs, c, id);
      }
    } else if Recovers(ids, w, next) {
      RecoverKeepsMarker(w.fs, Listing(w.fs, ids), id);
    } else if j, k :| RecoveryCrashes(ids, w, next, j, k) {
      InterruptedKeepsMarker(w.fs, Listing(w.fs, ids), j, k, id);
    }
  }

  /** Once a trade is marked executed, it stays marked through every later call, crash and recovery. */
  lemma {:induction false} MarkerForever(ids: seq<TxID>, trace: seq<World>, i: nat, j: nat, id: TxID)
    requires IsTrace(ids, trace) && i <= j < |trace|
    requires Executed(id) in trace[i].fs
    ensures Executed(id) in trace[j].fs && HasExecuted(trace[j].fs, id)
  {
    if i < j {
      MarkerForever(ids, trace, i, j - 1, id);
      TraceKeeps(ids, trace, j - 1);
      NextKeepsMarker(ids, Targets(trace[0].fs), trace[j - 1], trace[j], id);
    }
  }
}
