/** Any number of PersistExecutedTrade calls on one trade id, their file operations interleaved. */
module Interleaving {
  import opened Base
  import opened Files
  import opened Persist
  import opened PersistSafety
  import opened PersistRuns

  /** `first` is the call that was first to create the reservation. */
  datatype State = State(fs: FS, calls: seq<Call>, first: Option<nat>)

  /** Call i takes its next operation, answered with io. */
  ghost predicate Moves(s: State, next: State, i: nat, io: IO) {
    && i < |s.calls| && SlotInRange(s.calls[i]) && !s.calls[i].pc.Done?
    && var r := Step(s.fs, s.calls[i], io);
       next == State(r.fs, s.calls[i := r.call],
                     if s.first.None? && s.calls[i].pc.Reserve? && !r.call.pc.Done? then Some(i) else s.first)
  }

  ghost predicate Starts(s: State, id: TxID) {
    && s.first == None
    && forall i :: 0 <= i < |s.calls| ==>
         && s.calls[i] == Begin(id, s.calls[i].batch, s.calls[i].nonce)
         && ValidBatch(id, s.calls[i].batch)
  }

  ghost predicate IsTrace(id: TxID, trace: seq<State>, who: seq<nat>, ios: seq<IO>) {
    && |trace| == |who| + 1 == |ios| + 1
    && Starts(trace[0], id)
    && forall k :: 0 <= k < |who| ==> Moves(trace[k], trace[k + 1], who[k], ios[k])
  }

  /** A call is in its critical section from creating the reservation until removing it. */
  predicate InSection(pc: Pc) {
    !pc.Check? && !pc.Reserve? && !pc.Done?
  }

  /** A call has won once it has created the executed marker for good. */
  predicate Won(pc: Pc) {
    pc.Cleanup? || pc.DropCommitted? || pc == DropManifest(true) || pc == Release(true) || pc == Done(true)
  }

  ghost predicate Shape(s: State, id: TxID) {
    forall i :: 0 <= i < |s.calls| ==>
      s.calls[i].id == id && ValidBatch(id, s.calls[i].batch) && SlotInRange(s.calls[i])
  }

  /** One call at a time is in the section, one call at most has won, and the files say so. */
  ghost predicate Exclusive(s: State, id: TxID) {
    && (forall i :: 0 <= i < |s.calls| && InSection(s.calls[i].pc) ==> Reservation(id) in s.fs)
    && (forall i, j :: 0 <= i < j < |s.calls| ==> !(InSection(s.calls[i].pc) && InSection(s.calls[j].pc)))
    && (forall i :: 0 <= i < |s.calls| && (Won(s.calls[i].pc) || s.calls[i].pc.MarkUndo?) ==> Executed(id) in s.fs)
    && (forall i, j | 0 <= i < |s.calls| && 0 <= j < |s.calls| && i != j && Won(s.calls[i].pc) ::
          !Won(s.calls[j].pc) && !s.calls[j].pc.MarkUndo?)
  }

  // ---- What one operation can do to the shared files ----

  lemma OutsideStep(fs: FS, c: Call, io: IO)
    requires SlotInRange(c) && (c.pc.Check? || c.pc.Reserve?)
    ensures var r := Step(fs, c, io);
            && (r.call.pc.Reserve? || r.call.pc == Done(false) ==> r.fs == fs)
            && (InSection(r.call.pc) ==> c.pc.Reserve? && Reservation(c.id) !in fs && Reservation(c.id) in r.fs)
            && (InSection(r.call.pc) ==> !r.call.pc.MarkUndo?)
            && (Executed(c.id) in r.fs <==> Executed(c.id) in fs)
            && !Won(r.call.pc)
            && (InSection(r.call.pc) || r.call.pc.Reserve? || r.call.pc == Done(false))
  {
    assert Step(fs, c, io) == ReserveStep(fs, c, io);
  }

  /** Inside the section: the reservation stays until the call leaves, the marker is created only
      where there was none and removed only by the call undoing its own. */
  predicate SectionStep(fs: FS, c: Call, r: Config) {
    && (InSection(r.call.pc) ==> (Reservation(c.id) in fs ==> Reservation(c.id) in r.fs))
    && (InSection(r.call.pc) || r.call.pc.Done?)
    && (Won(c.pc) ==> Won(r.call.pc))
    && (Won(r.call.pc) && !Won(c.pc) ==> Executed(c.id) !in fs && Executed(c.id) in r.fs)
    && (r.call.pc.MarkUndo? ==> Executed(c.id) !in fs && Executed(c.id) in r.fs)
    && (Executed(c.id) in fs && !c.pc.MarkUndo? ==> Executed(c.id) in r.fs)
  }

  lemma SectionInstall(fs: FS, c: Call, io: IO)
    requires SlotInRange(c) && AtInstall(c.pc) && ValidBatch(c.id, c.batch)
    ensures SectionStep(fs, c, InstallStep(fs, c, io))
  {
    if c.pc.i < |c.batch| { DocTargets(c.id, c.batch, c.pc.i); }
  }

  lemma SectionRollback(fs: FS, c: Call, io: IO)
    requires SlotInRange(c) && AtRollback(c.pc) && ValidBatch(c.id, c.batch)
    ensures SectionStep(fs, c, RollbackStep(fs, c, io))
  {
    if c.pc.i < |c.batch| { DocTargets(c.id, c.batch, c.pc.i); }
  }

  lemma SectionEarly(fs: FS, c: Call, io: IO)
    requires SlotInRange(c)
    ensures c.pc.ReserveUndo? ==> SectionStep(fs, c, ReserveStep(fs, c, io))
    ensures AtManifest(c.pc) ==> SectionStep(fs, c, ManifestStep(fs, c, io))
    ensures c.pc.Stage? ==> SectionStep(fs, c, StageStep(fs, c, io))
  {
  }

  lemma SectionLate(fs: FS, c: Call, io: IO)
    requires SlotInRange(c)
    ensures AtRecord(c.pc) ==> SectionStep(fs, c, RecordStep(fs, c, io))
    ensures AtTail(c.pc) ==> SectionStep(fs, c, TailStep(fs, c, io))
  {
  }

  lemma InsideStep(fs: FS, c: Call, io: IO)
    requires SlotInRange(c) && InSection(c.pc) && ValidBatch(c.id, c.batch)
    ensures SectionStep(fs, c, Step(fs, c, io))
  {
    if AtInstall(c.pc) { SectionInstall(fs, c, io); }
    else if AtRollback(c.pc) { SectionRollback(fs, c, io); }
    else {
      SectionEarly(fs, c, io);
      SectionLate(fs, c, io);
    }
  }

  lemma MovesKeep(s: State, next: State, i: nat, io: IO, id: TxID)
    requires Shape(s, id) && Exclusive(s, id) && Moves(s, next, i, io)
    ensures Shape(next, id) && Exclusive(next, id)
  {
    var c := s.calls[i];
    var r := Step(s.fs, c, io);
    assert Shape(next, id);
    if InSection(c.pc) { InsideStep(s.fs, c, io); } else { OutsideStep(s.fs, c, io); }
  }

  lemma {:induction false} TraceKeeps(id: TxID, trace: seq<State>, who: seq<nat>, ios: seq<IO>, k: nat)
    requires IsTrace(id, trace, who, ios) && k < |trace|
    ensures Shape(trace[k], id) && Exclusive(trace[k], id)
  {
    if k > 0 {
      TraceKeeps(id, trace, who, ios, k - 1);
      MovesKeep(trace[k - 1], trace[k], who[k - 1], ios[k - 1], id);
    }
  }

  /** However the operations of any number of calls interleave, and whichever of them fail, at most one
      call returns success, and then the marker exists. */
  lemma AtMostOneSuccess(id: TxID, trace: seq<State>, who: seq<nat>, ios: seq<IO>, k: nat, i: nat, j: nat)
    requires IsTrace(id, trace, who, ios) && k < |trace|
    requires i < |trace[k].calls| && trace[k].calls[i].pc == Done(true)
    requires j < |trace[k].calls| && trace[k].calls[j].pc == Done(true)
    ensures i == j && Executed(id) in trace[k].fs
  {
    TraceKeeps(id, trace, who, ios, k);
  }

  // ---- The first to reserve, when nothing fails ----

  ghost predicate FirstWins(base: FS, s: State) {
    match s.first
    case None =>
      && s.fs == base
      && forall i :: 0 <= i < |s.calls| ==> !InSection(s.calls[i].pc) && !Won(s.calls[i].pc)
    case Some(f) =>
      && f < |s.calls|
      && (forall i :: 0 <= i < |s.calls| && i != f ==> !Won(s.calls[i].pc))
      && (s.calls[f].pc == Done(true)
          || (InSection(s.calls[f].pc) && !Failing(s.calls[f].pc) && Inv(base, s.fs, s.calls[f])))
  }

  lemma FirstReserves(base: FS, c: Call)
    requires SlotInRange(c) && c.pc.Reserve? && ValidBatch(c.id, c.batch) && !HasExecuted(base, c.id)
    ensures var r := Step(base, c, Good); Inv(base, r.fs, r.call) && InSection(r.call.pc) && !Failing(r.call.pc)
  {
    assert Inv(base, base, c);
    StepKeeps(base, base, c, Good);
    assert Step(base, c, Good) == ReserveStep(base, c, Good);
  }

  lemma FirstMoves(base: FS, fs: FS, c: Call)
    requires Inv(base, fs, c) && InSection(c.pc) && !Failing(c.pc)
    ensures var r := Step(fs, c, Good);
            r.call.pc == Done(true) || (InSection(r.call.pc) && !Failing(r.call.pc) && Inv(base, r.fs, r.call))
  {
    StepKeeps(base, fs, c, Good);
    GoodStep(base, fs, c);
    InsideStep(fs, c, Good);
  }

  lemma NobodyYet(base: FS, s: State, next: State, i: nat, id: TxID)
    requires !HasExecuted(base, id) && s.first.None?
    requires Shape(s, id) && Moves(s, next, i, Good) && FirstWins(base, s)
    ensures FirstWins(base, next)
  {
    var c := s.calls[i];
    OutsideStep(s.fs, c, Good);
    if c.pc.Reserve? { FirstReserves(base, c); }
  }

  /** A call that was not first stays outside and wins nothing. */
  lemma AnotherMoves(base: FS, s: State, next: State, i: nat, id: TxID)
    requires s.first.Some? && s.first.value != i
    requires Shape(s, id) && Exclusive(s, id) && Moves(s, next, i, Good) && FirstWins(base, s)
    ensures FirstWins(base, next)
  {
    hide Inv;
    if InSection(s.calls[s.first.value].pc) {
      assert !InSection(s.calls[i].pc);
      OutsideStep(s.fs, s.calls[i], Good);
      assert next.fs == s.fs;
    }
  }

  lemma FirstKeeps(base: FS, s: State, next: State, i: nat, id: TxID)
    requires !HasExecuted(base, id)
    requires Shape(s, id) && Exclusive(s, id) && Moves(s, next, i, Good) && FirstWins(base, s)
    ensures FirstWins(base, next)
  {
    hide Inv, Step;
    if s.first.None? {
      NobodyYet(base, s, next, i, id);
    } else if s.first.value != i {
      AnotherMoves(base, s, next, i, id);
    } else if InSection(s.calls[i].pc) {
      FirstMoves(base, s.fs, s.calls[i]);
    }
  }

  lemma {:induction false} FirstTrace(id: TxID, trace: seq<State>, who: seq<nat>, ios: seq<IO>, k: nat)
    requires IsTrace(id, trace, who, ios) && NoFault(ios) && k < |trace|
    requires !HasExecuted(trace[0].fs, id)
    ensures FirstWins(trace[0].fs, trace[k])
  {
    if k > 0 {
      FirstTrace(id, trace, who, ios, k - 1);
      TraceKeeps(id, trace, who, ios, k - 1);
      FirstKeeps(trace[0].fs, trace[k - 1], trace[k], who[k - 1], id);
    }
  }

  /** Without I/O errors a call that has returned reports success exactly when it was the first to
      create the reservation. */
  lemma FirstToReserveSucceeds(id: TxID, trace: seq<State>, who: seq<nat>, ios: seq<IO>, k: nat, i: nat)
    requires IsTrace(id, trace, who, ios) && NoFault(ios) && k < |trace|
    requires !HasExecuted(trace[0].fs, id)
    requires i < |trace[k].calls| && trace[k].calls[i].pc.Done?
    ensures trace[k].calls[i].pc.ok <==> trace[k].first == Some(i)
  {
    FirstTrace(id, trace, who, ios, k);
    TraceKeeps(id, trace, who, ios, k);
  }

  // ---- A call that reserves late ----

  /** The disk as a late call would see it had no other call marked the trade before it. */
  function Mask(fs: FS, hidden: set<Path>): FS {
    fs - hidden
  }

  predicate Hides(c: Call, hidden: set<Path>) {
    hidden == {Executed(c.id)} || hidden == {Executed(c.id), Committed(c.id)}
  }

  /** The answer that sends the masked call where the real one goes: an exclusive create that finds a
      hidden file behaves as one that fails. */
  function Answer(fs: FS, c: Call, hidden: set<Path>): IO {
    if c.pc.CommitRecord? && Committed(c.id) in hidden && Committed(c.id) in fs then Bad
    else if c.pc.Mark? && Executed(c.id) in fs then Bad
    else Good
  }

  predicate Masked(fs: FS, hidden: set<Path>, r: Config, m: Config) {
    r.call == m.call && Mask(r.fs, hidden) == m.fs && (hidden <= fs.Keys ==> hidden <= r.fs.Keys)
  }

  lemma MaskedRename(fs: FS, c: Call, hidden: set<Path>)
    requires SlotInRange(c) && (c.pc.AsideMove? || c.pc.Install?) && ValidBatch(c.id, c.batch) && Hides(c, hidden)
    ensures Masked(fs, hidden, InstallStep(fs, c, Good), InstallStep(Mask(fs, hidden), c, Good))
  {
    DocTargets(c.id, c.batch, c.pc.i);
  }

  lemma MaskedInstall(fs: FS, c: Call, hidden: set<Path>)
    requires SlotInRange(c) && AtInstall(c.pc) && ValidBatch(c.id, c.batch) && Hides(c, hidden)
    ensures Masked(fs, hidden, InstallStep(fs, c, Good), InstallStep(Mask(fs, hidden), c, Good))
  {
    if c.pc.AsideMove? || c.pc.Install? { MaskedRename(fs, c, hidden); }
    else if c.pc.i < |c.batch| { DocTargets(c.id, c.batch, c.pc.i); }
  }

  lemma MaskedRollback(fs: FS, c: Call, hidden: set<Path>)
    requires SlotInRange(c) && AtRollback(c.pc) && ValidBatch(c.id, c.batch) && Hides(c, hidden)
    ensures Masked(fs, hidden, RollbackStep(fs, c, Good), RollbackStep(Mask(fs, hidden), c, Good))
  {
    if c.pc.i < |c.batch| { DocTargets(c.id, c.batch, c.pc.i); }
  }

  lemma MaskedEarly(fs: FS, c: Call, hidden: set<Path>)
    requires SlotInRange(c) && Hides(c, hidden)
    ensures c.pc.Reserve? ==>
              Masked(fs, hidden, ReserveStep(fs, c, Good), ReserveStep(Mask(fs, hidden), c, Good))
    ensures AtManifest(c.pc) ==>
              Masked(fs, hidden, ManifestStep(fs, c, Good), ManifestStep(Mask(fs, hidden), c, Good))
    ensures c.pc.Stage? ==>
              Masked(fs, hidden, StageStep(fs, c, Good), StageStep(Mask(fs, hidden), c, Good))
  {
  }

  lemma MaskedLate(fs: FS, c: Call, hidden: set<Path>)
    requires SlotInRange(c) && Hides(c, hidden) && hidden <= fs.Keys
    ensures c.pc.CommitRecord? || c.pc.Mark? ==>
              Masked(fs, hidden, RecordStep(fs, c, Good), RecordStep(Mask(fs, hidden), c, Answer(fs, c, hidden)))
    ensures Leaving(c.pc) && !c.pc.Done? ==>
              Masked(fs, hidden, TailStep(fs, c, Good), TailStep(Mask(fs, hidden), c, Good))
  {
  }

  lemma MaskedStep(fs: FS, c: Call, hidden: set<Path>)
    requires SlotInRange(c) && ValidBatch(c.id, c.batch) && Hides(c, hidden) && !c.pc.Done?
    requires (Ahead(c.pc) || AtRollback(c.pc) || Leaving(c.pc)) && hidden <= fs.Keys
    ensures Masked(fs, hidden, Step(fs, c, Good), Step(Mask(fs, hidden), c, Answer(fs, c, hidden)))
  {
    if AtInstall(c.pc) { MaskedInstall(fs, c, hidden); }
    else if AtRollback(c.pc) { MaskedRollback(fs, c, hidden); }
    else {
      MaskedEarly(fs, c, hidden);
      MaskedLate(fs, c, hidden);
    }
  }

  predicate Ahead(pc: Pc) {
    pc.Reserve? || AtManifest(pc) || pc.Stage? || AtInstall(pc) || pc.CommitRecord? || pc.Mark?
  }

  predicate Leaving(pc: Pc) {
    pc == DropManifest(false) || pc == Release(false) || pc == Done(false)
  }

  /** What holds throughout a late call: behind the mask it looks like a lone call, and the files that
      stop it are still there. */
  ghost predicate IsLate(base: FS, fs: FS, c: Call, hidden: set<Path>) {
    && Inv(Mask(base, hidden), Mask(fs, hidden), c)
    && Hides(c, hidden) && hidden <= fs.Keys
    && if Committed(c.id) in hidden
       then (Ahead(c.pc) && !c.pc.Mark?) || AtRollback(c.pc) || Leaving(c.pc)
       else Ahead(c.pc) || (Leaving(c.pc) && Committed(c.id) in fs)
  }

  lemma AheadStep(base: FS, fs: FS, c: Call)
    requires Inv(base, fs, c) && Ahead(c.pc) && !AtRecord(c.pc)
    ensures var r := Step(fs, c, Good); Ahead(r.call.pc) && !r.call.pc.Mark?
  {
    GoodStep(base, fs, c);
    if c.pc.Reserve? { assert Step(fs, c, Good) == ReserveStep(fs, c, Good); }
    else if AtManifest(c.pc) { assert Step(fs, c, Good) == ManifestStep(fs, c, Good); }
    else if c.pc.Stage? { assert Step(fs, c, Good) == StageStep(fs, c, Good); }
    else { assert Step(fs, c, Good) == InstallStep(fs, c, Good); }
  }

  lemma LateStep(base: FS, fs: FS, c: Call, hidden: set<Path>)
    requires IsLate(base, fs, c, hidden) && !c.pc.Done?
    ensures var r := Step(fs, c, Good); IsLate(base, r.fs, r.call, hidden)
  {
    var io := Answer(fs, c, hidden);
    assert Executed(c.id) in hidden;
    StepKeeps(Mask(base, hidden), Mask(fs, hidden), c, io);
    MaskedStep(fs, c, hidden);
    if Ahead(c.pc) && !AtRecord(c.pc) { AheadStep(Mask(base, hidden), Mask(fs, hidden), c); }
    else if AtRecord(c.pc) { assert Step(fs, c, Good) == RecordStep(fs, c, Good); }
    else if AtRollback(c.pc) { assert Step(fs, c, Good) == RollbackStep(fs, c, Good); }
    else { assert Step(fs, c, Good) == TailStep(fs, c, Good); }
  }

  lemma {:induction false} LateRun(run: seq<Config>, ios: seq<IO>, base: FS, hidden: set<Path>, k: nat)
    requires IsRun(run, ios) && NoFault(ios) && k < |run|
    requires IsLate(base, run[0].fs, run[0].call, hidden)
    ensures IsLate(base, run[k].fs, run[k].call, hidden)
    ensures run[k].call.id == run[0].call.id && run[k].call.batch == run[0].call.batch
  {
    hide Step, IsLate;
    if k > 0 {
      var before := run[k - 1];
      LateRun(run, ios, base, hidden, k - 1);
      assert ios[k - 1] == Good && run[k] == Step(before.fs, before.call, Good);
      LateStep(base, before.fs, before.call, hidden);
    }
  }

  /** The evidence test and the reservation are separate operations, so a call can reserve after another
      call for the same trade has finished. Such a call fails, but it does not always put the targets
      back: it leaves its own documents in place exactly when no commit record stopped it first. */
  lemma LateCallOverwrites(run: seq<Config>, ios: seq<IO>, base: FS, id: TxID, batch: seq<Doc>, nonce: nat)
    requires IsRun(run, ios) && NoFault(ios) && ValidBatch(id, batch)
    requires run[0] == Config(base, Begin(id, batch, nonce).(pc := Reserve))
    requires Executed(id) in base && Reservation(id) !in base && Manifest(id) !in base
    requires run[|run| - 1].call.pc.Done?
    ensures var last := run[|run| - 1];
            && last.call.pc == Done(false)
            && Targets(last.fs) == (if Committed(id) in base then Targets(base) else Put(Targets(base), batch))
  {
    var hidden := if Committed(id) in base then {Executed(id), Committed(id)} else {Executed(id)};
    assert IsLate(base, base, run[0].call, hidden);
    LateRun(run, ios, base, hidden, |run| - 1);
    var last := run[|run| - 1].fs;
    assert Targets(Mask(base, hidden)) == Targets(base);
    assert Targets(Mask(last, hidden)) == Targets(last);
  }
}
