/** Replay evidence over crashes and restarts: it is never lost, it can block a trade that never ran, and one
    refused marker keeps the store from opening again. */
module CrashEvidence {
  import opened Base
  import opened Files
  import opened Persist
  import opened PersistSafety
  import opened PersistRuns
  import opened PersistEvidence
  import opened Recovery
  import opened CrashRuns

  /** A trade counts as executed although nothing of it ever took effect or will. */
  predicate Blocked(fs: FS, id: TxID) {
    HasExecuted(fs, id) && Executed(id) !in fs && Quiet(fs, id)
  }

  // ---- Recovery ----

  /** Any part of what recovery does for one id keeps evidence, and keeps blocked trades blocked. */
  lemma PartKeeps(fs: FS, entry: TxID, k: nat, id: TxID)
    requires Plan(fs, entry).Some? && k <= |Plan(fs, entry).value|
    ensures var part := ApplyAll(fs, Plan(fs, entry).value[..k]);
      && (HasExecuted(fs, id) ==> HasExecuted(part, id))
      && (Blocked(fs, id) ==> Blocked(part, id))
  {
    var ops := Plan(fs, entry).value;
    PlanIsOfId(fs, entry, |ops|);
    OpsOfId(fs, ops[..k], entry);
    if entry != id {
      assert SameArtifacts(fs, ApplyAll(fs, ops[..k]), id);
    } else if Executed(id) !in fs && k > 0 {
      assert ops[..k][0] == WriteMarker(id);
      OpsOfId(Apply(fs, ops[0]), ops[..k][1..], id);
    }
  }

  lemma {:induction false} RecoverKeeps(fs: FS, entries: seq<TxID>, id: TxID)
    ensures HasExecuted(fs, id) ==> HasExecuted(Recover(fs, entries).0, id)
    ensures Blocked(fs, id) ==> Blocked(Recover(fs, entries).0, id)
    decreases |entries|
  {
    hide HasExecuted, Blocked, Plan;
    if entries != [] && Plan(fs, entries[0]).Some? {
      var ops := Plan(fs, entries[0]).value;
      assert ops[..|ops|] == ops;
      PartKeeps(fs, entries[0], |ops|, id);
      RecoverKeeps(ApplyAll(fs, ops), entries[1..], id);
    }
  }

  lemma {:induction false} InterruptedKeeps(fs: FS, entries: seq<TxID>, j: nat, k: nat, id: TxID)
    requires j < |entries| && Interrupted(fs, entries, j, k).Some?
    ensures HasExecuted(fs, id) ==> HasExecuted(Interrupted(fs, entries, j, k).value, id)
    ensures Blocked(fs, id) ==> Blocked(Interrupted(fs, entries, j, k).value, id)
    decreases |entries|
  {
    hide HasExecuted, Blocked, Plan;
    var ops := Plan(fs, entries[0]).value;
    if j > 0 {
      assert ops[..|ops|] == ops;
      PartKeeps(fs, entries[0], |ops|, id);
      InterruptedKeeps(ApplyAll(fs, ops), entries[1..], j - 1, k, id);
    } else {
      PartKeeps(fs, entries[0], k, id);
    }
  }

  // ---- Calls ----

  lemma OtherStep(fs: FS, c: Call, id: TxID)
    requires ValidBatch(c.id, c.batch) && SlotInRange(c) && !c.pc.Done? && id != c.id
    ensures SameArtifacts(fs, Step(fs, c, Good).fs, id)
  {
    hide Step;
    StepForeign(fs, c, Good, Executed(id));
    StepForeign(fs, c, Good, Committed(id));
    StepForeign(fs, c, Good, Reservation(id));
    StepForeign(fs, c, Good, Manifest(id));
  }

  lemma OwnStep(base: FS, fs: FS, c: Call)
    requires Inv(base, fs, c) && !c.pc.Done? && !Failing(c.pc) && HasExecuted(fs, c.id)
    ensures HasExecuted(Step(fs, c, Good).fs, c.id)
  {
    hide Step, Frame, TargetsAt;
    StepKeeps(base, fs, c, Good);
    GoodStep(base, fs, c);
    Ahead(fs, c);
  }

  lemma Ahead(fs: FS, c: Call)
    requires SlotInRange(c) && !c.pc.Done? && Artifacts(fs, c) && HasExecuted(fs, c.id)
    ensures var pc := Step(fs, c, Good).call.pc; !pc.Check? && !pc.Reserve?
  {}

  lemma StepKeepsEvidence(ids: seq<TxID>, t: FS, w: World, next: World, id: TxID)
    requires WorldOk(ids, t, w) && CrashRuns.Steps(w, next) && HasExecuted(w.fs, id)
    ensures HasExecuted(next.fs, id)
  {
    hide Step, Consistent;
    var base, c := w.mode.base, w.mode.call;
    if HasExecuted(base, c.id) {
      RejectedStep(w.fs, c);
    } else if c.id == id {
      OwnStep(base, w.fs, c);
    } else {
      OtherStep(w.fs, c, id);
    }
  }

  lemma RejectedStep(fs: FS, c: Call)
    requires SlotInRange(c) && c.pc.Check?
    ensures Step(fs, c, Good).fs == fs
  {}

  lemma NextKeepsEvidence(ids: seq<TxID>, t: FS, w: World, next: World, id: TxID)
    requires WorldOk(ids, t, w) && Next(ids, w, next) && HasExecuted(w.fs, id)
    ensures HasExecuted(next.fs, id)
  {
    hide HasExecuted, WorldOk, Recover, Interrupted;
    if CrashRuns.Steps(w, next) {
      StepKeepsEvidence(ids, t, w, next, id);
    } else if Recovers(ids, w, next) {
      RecoverKeeps(w.fs, Listing(w.fs, ids), id);
    } else if j, k :| RecoveryCrashes(ids, w, next, j, k) {
      InterruptedKeeps(w.fs, Listing(w.fs, ids), j, k, id);
    }
  }

  /** Evidence, once there, stays through every later call, crash and recovery. */
  lemma {:induction false} EvidenceForever(ids: seq<TxID>, trace: seq<World>, i: nat, j: nat, id: TxID)
    requires IsTrace(ids, trace) && i <= j < |trace| && HasExecuted(trace[i].fs, id)
    ensures HasExecuted(trace[j].fs, id)
  {
    hide Next, WorldOk, HasExecuted;
    if i < j {
      EvidenceForever(ids, trace, i, j - 1, id);
      TraceKeeps(ids, trace, j - 1);
      assert Next(ids, trace[j - 1], trace[j]);
      NextKeepsEvidence(ids, Targets(trace[0].fs), trace[j - 1], trace[j], id);
    }
  }

  // ---- Trades blocked for ever ----

  /** The disk blocks the trade, and a call for it began when it was blocked. */
  predicate Stuck(w: World, id: TxID) {
    Blocked(w.fs, id) && (w.mode.Running? && w.mode.call.id == id ==> HasExecuted(w.mode.base, id))
  }

  lemma StepKeepsStuck(ids: seq<TxID>, t: FS, w: World, next: World, id: TxID)
    requires WorldOk(ids, t, w) && CrashRuns.Steps(w, next) && Stuck(w, id)
    ensures Stuck(next, id)
  {
    hide Step, Consistent;
    var base, c := w.mode.base, w.mode.call;
    if HasExecuted(base, c.id) { RejectedStep(w.fs, c); } else { OtherStep(w.fs, c, id); }
  }

  lemma NextKeepsStuck(ids: seq<TxID>, t: FS, w: World, next: World, id: TxID)
    requires WorldOk(ids, t, w) && Next(ids, w, next) && Stuck(w, id)
    ensures Stuck(next, id)
  {
    hide WorldOk, Recover, Interrupted, Quiet;
    if CrashRuns.Steps(w, next) {
      StepKeepsStuck(ids, t, w, next, id);
    } else if Recovers(ids, w, next) {
      RecoverKeeps(w.fs, Listing(w.fs, ids), id);
    } else if j, k :| RecoveryCrashes(ids, w, next, j, k) {
      InterruptedKeeps(w.fs, Listing(w.fs, ids), j, k, id);
    }
  }

  lemma {:induction false} StaysStuck(ids: seq<TxID>, trace: seq<World>, i: nat, j: nat, id: TxID)
    requires IsTrace(ids, trace) && i <= j < |trace| && Stuck(trace[i], id)
    ensures Stuck(trace[j], id)
  {
    hide Next, WorldOk, Stuck;
    if i < j {
      StaysStuck(ids, trace, i, j - 1, id);
      TraceKeeps(ids, trace, j - 1);
      assert Next(ids, trace[j - 1], trace[j]);
      NextKeepsStuck(ids, Targets(trace[0].fs), trace[j - 1], trace[j], id);
    }
  }

  /** A trade with evidence that an open idle store does not have as executed is never executed again: it is
      not in the log, and no later call, crash or recovery puts it there. */
  lemma BlockedForever(ids: seq<TxID>, trace: seq<World>, i: nat, j: nat, id: TxID)
    requires IsTrace(ids, trace) && i <= j < |trace| && trace[i].mode.Idle?
    requires HasExecuted(trace[i].fs, id) && Executed(id) !in trace[i].fs
    ensures HasExecuted(trace[j].fs, id) && Executed(id) !in trace[j].fs
    ensures trace[j].mode.Idle? ==> !InLog(trace[j].log, id)
  {
    hide IsTrace;
    TraceKeeps(ids, trace, i);
    StaysStuck(ids, trace, i, j, id);
    TraceKeeps(ids, trace, j);
  }

  /** A crash between the reservation and the applying manifest brings this about: after recovery the store is
      open with the old targets, and the trade is blocked. */
  lemma EarlyCrashBlocks(ids: seq<TxID>, base: FS, fs: FS, c: Call)
    requires c.id in ids && Inv(base, fs, c) && BeforeApply(c.pc)
    requires forall id :: Quiet(base, id)
    ensures var (f, ok) := Recover(fs, ids);
      && ok && Targets(f) == Targets(base)
      && (Blocked(f, c.id) <==> !c.pc.Check? && !c.pc.Reserve?)
      && (HasExecuted(f, c.id) <==> HasExecuted(fs, c.id))
  {
    hide Recover;
    EarlyCrashRecovers(ids, base, fs, c);
    RecoverKeeps(fs, ids, c.id);
    assert HasExecuted(fs, c.id) <==> !c.pc.Check? && !c.pc.Reserve?;
    assert Quiet(fs, c.id);
    if !HasExecuted(fs, c.id) { NothingAppears(fs, ids, c.id); }
  }

  /** Recovery makes no evidence where there was none. */
  lemma {:induction false} NothingAppears(fs: FS, entries: seq<TxID>, id: TxID)
    requires !HasExecuted(fs, id)
    ensures !HasExecuted(Recover(fs, entries).0, id)
    decreases |entries|
  {
    if entries != [] && Plan(fs, entries[0]).Some? {
      var ops := Plan(fs, entries[0]).value;
      PlanIsOfId(fs, entries[0], |ops|);
      OpsOfId(fs, ops, entries[0]);
      assert entries[0] == id || SameArtifacts(fs, ApplyAll(fs, ops), id);
      NothingAppears(ApplyAll(fs, ops), entries[1..], id);
    }
  }

  // ---- A refused marker ----

  /** After a failed call with at most one I/O error, on a store that was open before, the next recovery opens
      the store exactly if what failed was not the executed marker: the manifest is gone, and a commit record
      without manifest stops it. */
  lemma RefusedMarkerCloses(run: seq<Config>, ios: seq<IO>, base: FS, id: TxID, batch: seq<Doc>, nonce: nat,
                            ids: seq<TxID>)
    requires IsRun(run, ios) && OneFault(ios) && StartsClean(run, base, id, batch, nonce)
    requires run[|ios|].call.pc == Done(false) && id in ids && forall other :: Quiet(base, other)
    ensures Plan(run[|ios|].fs, id).None? <==> MarkerRefused(run, ios, |ios|)
    ensures Recover(run[|ios|].fs, ids).1 <==> !MarkerRefused(run, ios, |ios|)
  {
    hide Step, MarkerRefused, Recover, Verified, Frame, TargetsAt;
    FailureMeans(run, ios, base, id, batch, nonce);
    RunKeeps(run, ios, base, id, batch, nonce, |ios|);
    var fs := run[|ios|].fs;
    forall other | other != id ensures Quiet(fs, other) { OthersTame(base, fs, run[|ios|].call, other); }
    if MarkerRefused(run, ios, |ios|) {
      RecoverStuck(fs, ids, id);
    } else {
      RecoverAll(fs, ids, id);
    }
  }
}
