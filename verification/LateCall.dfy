/** How a late call comes about: a whole interleaving, from two calls that have not begun to the overwritten
    targets. */
module LateCalls {
  import opened Base
  import opened Files
  import opened Persist
  import opened PersistSafety
  import opened PersistRuns
  import opened Interleaving

  /** A call that meets no I/O error runs to its end. */
  lemma {:induction false} GoodRun(fs: FS, c: Call) returns (run: seq<Config>, ios: seq<IO>)
    requires SlotInRange(c)
    ensures IsRun(run, ios) && NoFault(ios) && run[0] == Config(fs, c) && run[|ios|].call.pc.Done?
    decreases Remaining(c)
  {
    hide Step, Persist.Remaining;
    if c.pc.Done? {
      run, ios := [Config(fs, c)], [];
    } else {
      StepProgress(fs, c, Good);
      var next := Step(fs, c, Good);
      var rest, answers := GoodRun(next.fs, next.call);
      run, ios := [Config(fs, c)] + rest, [Good] + answers;
      forall k | 0 <= k < |ios| ensures !run[k].call.pc.Done? && run[k + 1] == Step(run[k].fs, run[k].call, ios[k]) {
        if k > 0 { assert run[k] == rest[k - 1] && ios[k] == answers[k - 1]; }
      }
    }
  }

  /** What is left when nothing failed: by the end a successful call has taken its artifacts away. */
  predicate TidiedUp(fs: FS, c: Call) {
    match c.pc
    case DropManifest(ok) => ok ==> Committed(c.id) !in fs
    case Release(ok) => ok ==> Committed(c.id) !in fs && Manifest(c.id) !in fs
    case Done(ok) => ok ==> Committed(c.id) !in fs && Manifest(c.id) !in fs && Reservation(c.id) !in fs
    case _ => true
  }

  lemma StepTidies(fs: FS, c: Call)
    requires SlotInRange(c) && !c.pc.Done? && TidiedUp(fs, c)
    ensures var r := Step(fs, c, Good); TidiedUp(r.fs, r.call)
  {}

  lemma {:induction false} RunTidies(run: seq<Config>, ios: seq<IO>, k: nat)
    requires IsRun(run, ios) && NoFault(ios) && k < |run| && run[0].call.pc.Check?
    ensures TidiedUp(run[k].fs, run[k].call)
  {
    hide Step;
    if k > 0 {
      RunTidies(run, ios, k - 1);
      StepTidies(run[k - 1].fs, run[k - 1].call);
      assert ios[k - 1] == Good;
    }
  }

  /** Call i goes on alone from the end of a trace. */
  lemma {:induction false} GoesOn(id: TxID, trace: seq<State>, who: seq<nat>, ios: seq<IO>, run: seq<Config>,
                                  answers: seq<IO>, i: nat)
      returns (t: seq<State>, w: seq<nat>, a: seq<IO>)
    requires IsTrace(id, trace, who, ios) && NoFault(ios) && IsRun(run, answers) && NoFault(answers)
    requires var s := trace[|who|]; i < |s.calls| && run[0] == Config(s.fs, s.calls[i])
    ensures IsTrace(id, t, w, a) && NoFault(a) && |w| >= |who| && t[..|trace|] == trace
    ensures t[|w|].fs == run[|answers|].fs && t[|w|].calls == trace[|who|].calls[i := run[|answers|].call]
    decreases |run|
  {
    hide Step;
    var s := trace[|who|];
    if |answers| == 0 {
      t, w, a := trace, who, ios;
    } else {
      assert run[1] == Step(s.fs, s.calls[i], answers[0]);
      var first := if s.first.None? && s.calls[i].pc.Reserve? && !run[1].call.pc.Done? then Some(i) else s.first;
      var next := State(run[1].fs, s.calls[i := run[1].call], first);
      Append(id, trace, who, ios, next, i, answers[0]);
      t, w, a := GoesOn(id, trace + [next], who + [i], ios + [answers[0]], run[1..], answers[1..], i);
      assert t[..|trace|] == t[..|trace + [next]|][..|trace|];
    }
  }

  lemma Append(id: TxID, trace: seq<State>, who: seq<nat>, ios: seq<IO>, next: State, i: nat, io: IO)
    requires IsTrace(id, trace, who, ios) && Moves(trace[|who|], next, i, io)
    ensures IsTrace(id, trace + [next], who + [i], ios + [io])
  {
    hide Moves;
    var t, w, a := trace + [next], who + [i], ios + [io];
    forall k | 0 <= k < |w| ensures Moves(t[k], t[k + 1], w[k], a[k]) {
      if k < |who| { assert t[k] == trace[k] && t[k + 1] == trace[k + 1]; }
    }
  }

  /** On every disk without evidence of a trade, any two calls for it have an interleaving without I/O errors
      in which the second passes its evidence test, the first runs to success, and the second then reserves,
      fails, and leaves its own documents over those of the first. */
  lemma LateCallHappens(id: TxID, disk: FS, one: seq<Doc>, two: seq<Doc>, m: nat, n: nat)
      returns (trace: seq<State>, who: seq<nat>, ios: seq<IO>)
    requires ValidBatch(id, one) && ValidBatch(id, two) && !HasExecuted(disk, id)
    ensures IsTrace(id, trace, who, ios) && NoFault(ios)
    ensures trace[0] == State(disk, [Begin(id, one, m), Begin(id, two, n)], None)
    ensures var last := trace[|who|];
      && |last.calls| == 2 && last.calls[0].pc == Done(true) && last.calls[1].pc == Done(false)
      && Targets(last.fs) == Put(Put(Targets(disk), one), two)
  {
    hide Step;
    var start := State(disk, [Begin(id, one, m), Begin(id, two, n)], None);
    var waiting := Begin(id, two, n).(pc := Reserve);
    var passed := start.(calls := start.calls[1 := waiting]);
    assert Moves(start, passed, 1, Good) by { PassesTest(disk, id, two, n); }
    trace, who, ios := [start, passed], [1], [Good];
    var run, answers := GoodRun(disk, Begin(id, one, m));
    ReturnContract(run, answers, disk, id, one, m);
    SuccessLeaves(run, answers, disk, id, one, m);
    trace, who, ios := GoesOn(id, trace, who, ios, run, answers, 0);
    var middle := run[|answers|].fs;
    assert trace[0] == trace[..2][0];
    var late, more := GoodRun(middle, waiting);
    LateCallOverwrites(late, more, middle, id, two, n);
    var t, w, a := GoesOn(id, trace, who, ios, late, more, 1);
    assert t[0] == t[..|trace|][0];
    trace, who, ios := t, w, a;
  }

  lemma PassesTest(disk: FS, id: TxID, batch: seq<Doc>, nonce: nat)
    requires !HasExecuted(disk, id)
    ensures Step(disk, Begin(id, batch, nonce), Good) == Config(disk, Begin(id, batch, nonce).(pc := Reserve))
  {}

  /** A successful call without I/O errors leaves its marker and no other artifact. */
  lemma SuccessLeaves(run: seq<Config>, ios: seq<IO>, base: FS, id: TxID, batch: seq<Doc>, nonce: nat)
    requires IsRun(run, ios) && NoFault(ios) && StartsClean(run, base, id, batch, nonce)
    requires run[|ios|].call.pc == Done(true)
    ensures var fs := run[|ios|].fs;
      Executed(id) in fs && Committed(id) !in fs && Manifest(id) !in fs && Reservation(id) !in fs
  {
    hide Step;
    RunKeeps(run, ios, base, id, batch, nonce, |ios|);
    RunTidies(run, ios, |ios|);
  }

  // ---- Any number of calls, without I/O errors ----

  /** The calls that created the reservation, in order, and the disk the last of them found. */
  datatype Reservers = Reservers(order: seq<nat>, disk: FS)

  function ReserversAt(trace: seq<State>, who: seq<nat>, k: nat): Reservers
    requires k <= |who| < |trace|
  {
    if k == 0 then Reservers([], trace[0].fs)
    else
      var before, i := ReserversAt(trace, who, k - 1), who[k - 1];
      if i < |trace[k - 1].calls| && i < |trace[k].calls|
         && trace[k - 1].calls[i].pc.Reserve? && InSection(trace[k].calls[i].pc)
      then Reservers(before.order + [i], trace[k - 1].fs)
      else before
  }

  predicate InOrder(calls: seq<Call>, order: seq<nat>) {
    forall m :: 0 <= m < |order| ==> order[m] < |calls|
  }

  /** The documents of the first two calls to reserve, and of no other. */
  function FirstTwo(t: FS, calls: seq<Call>, order: seq<nat>): FS
    requires InOrder(calls, order)
  {
    if order == [] then t
    else
      var one := Put(t, calls[order[0]].batch);
      if |order| == 1 then one else Put(one, calls[order[1]].batch)
  }

  /** What the n-th call to reserve finds in its way. */
  function Hidden(id: TxID, n: nat): set<Path> {
    if n <= 2 then {Executed(id)} else {Executed(id), Committed(id)}
  }

  /** Nobody is in the section: the first two have written, and from the second on there is a commit record. */
  predicate Over(base: FS, s: State, id: TxID, order: seq<nat>)
    requires InOrder(s.calls, order)
  {
    && Targets(s.fs) == FirstTwo(Targets(base), s.calls, order)
    && Executed(id) in s.fs && Reservation(id) !in s.fs && Manifest(id) !in s.fs
    && (Committed(id) in s.fs <==> |order| >= 2)
  }

  /** The last call to reserve is on its way. */
  ghost predicate OnItsWay(base: FS, s: State, id: TxID, r: Reservers)
    requires r.order != [] && InOrder(s.calls, r.order)
  {
    var n := |r.order|;
    var c := s.calls[r.order[n - 1]];
    && Targets(r.disk) == FirstTwo(Targets(base), s.calls, r.order[..n - 1])
    && if n == 1 then r.disk == base && !Failing(c.pc) && Inv(base, s.fs, c) && TidiedUp(s.fs, c)
       else IsLate(r.disk, s.fs, c, Hidden(id, n))
  }

  ghost predicate Standing(base: FS, s: State, id: TxID, r: Reservers) {
    && InOrder(s.calls, r.order)
    && if r.order == [] then s.fs == base && forall i :: 0 <= i < |s.calls| ==> !InSection(s.calls[i].pc)
       else
         var f := r.order[|r.order| - 1];
         && (forall i :: 0 <= i < |s.calls| && i != f ==> !InSection(s.calls[i].pc))
         && if InSection(s.calls[f].pc) then OnItsWay(base, s, id, r) else Over(base, s, id, r.order)
  }

  lemma SameBatches(t: FS, calls: seq<Call>, next: seq<Call>, order: seq<nat>)
    requires |next| == |calls| && InOrder(calls, order)
    requires forall i :: 0 <= i < |calls| ==> next[i].batch == calls[i].batch
    ensures FirstTwo(t, next, order) == FirstTwo(t, calls, order)
  {}

  /** A call outside the section that does not enter it changes nothing. */
  lemma StandsAside(base: FS, s: State, next: State, i: nat, id: TxID, r: Reservers)
    requires Shape(s, id) && Moves(s, next, i, Good) && Standing(base, s, id, r)
    requires !InSection(s.calls[i].pc) && !InSection(next.calls[i].pc)
    ensures Standing(base, next, id, r)
  {
    hide Inv, IsLate, Step;
    OutsideStep(s.fs, s.calls[i], Good);
    SameBatches(Targets(base), s.calls, next.calls, r.order);
    if r.order != [] { SameBatches(Targets(base), s.calls, next.calls, r.order[..|r.order| - 1]); }
  }

  /** A call that finds a finished one before it starts as a late call. */
  lemma LateBegins(fs: FS, c: Call, n: nat)
    requires n >= 2 && c.pc.Reserve? && SlotInRange(c) && ValidBatch(c.id, c.batch)
    requires Executed(c.id) in fs && Reservation(c.id) !in fs && Manifest(c.id) !in fs
    requires Committed(c.id) in fs <==> n > 2
    ensures var r := Step(fs, c, Good); IsLate(fs, r.fs, r.call, Hidden(c.id, n))
  {
    hide Step;
    assert IsLate(fs, fs, c, Hidden(c.id, n));
    LateStep(fs, fs, c, Hidden(c.id, n));
  }

  lemma NextReserves(base: FS, s: State, next: State, i: nat, id: TxID, r: Reservers)
    requires Shape(s, id) && Exclusive(s, id) && Moves(s, next, i, Good) && Standing(base, s, id, r)
    requires !HasExecuted(base, id) && s.calls[i].pc.Reserve? && InSection(next.calls[i].pc)
    ensures Standing(base, next, id, Reservers(r.order + [i], s.fs))
  {
    hide Inv, IsLate, Step, Failing;
    var c := s.calls[i];
    OutsideStep(s.fs, c, Good);
    var after := Reservers(r.order + [i], s.fs);
    assert after.order[..|r.order|] == r.order;
    SameBatches(Targets(base), s.calls, next.calls, r.order);
    if r.order == [] {
      FirstReserves(base, c);
      StepTidies(s.fs, c);
    } else {
      LateBegins(s.fs, c, |after.order|);
    }
  }

  lemma FirstFinishes(base: FS, fs: FS, c: Call)
    requires Inv(base, fs, c) && InSection(c.pc) && !Failing(c.pc) && TidiedUp(fs, c)
    ensures var r := Step(fs, c, Good);
      && TidiedUp(r.fs, r.call) && Inv(base, r.fs, r.call)
      && (InSection(r.call.pc) ==> !Failing(r.call.pc))
      && (!InSection(r.call.pc) ==>
            && Targets(r.fs) == Put(Targets(base), c.batch) && Executed(c.id) in r.fs
            && Reservation(c.id) !in r.fs && Manifest(c.id) !in r.fs && Committed(c.id) !in r.fs)
  {
    hide Step;
    FirstMoves(base, fs, c);
    StepTidies(fs, c);
    StepKeeps(base, fs, c, Good);
  }

  lemma LateFinishes(base: FS, fs: FS, c: Call, n: nat)
    requires n >= 2 && IsLate(base, fs, c, Hidden(c.id, n)) && InSection(c.pc)
    ensures var r := Step(fs, c, Good);
      && IsLate(base, r.fs, r.call, Hidden(c.id, n))
      && (!InSection(r.call.pc) ==>
            && Targets(r.fs) == (if n == 2 then Put(Targets(base), c.batch) else Targets(base))
            && Executed(c.id) in r.fs && Committed(c.id) in r.fs
            && Reservation(c.id) !in r.fs && Manifest(c.id) !in r.fs)
  {
    assert SlotInRange(c) && !c.pc.Done?;
    hide Step, IsLate;
    LateStep(base, fs, c, Hidden(c.id, n));
    var r := Step(fs, c, Good);
    assert InSection(r.call.pc) || r.call.pc.Done? by { InsideAll(base, fs, c, n); }
    if !InSection(r.call.pc) { LateEnds(base, r.fs, r.call, n); }
  }

  lemma InsideAll(base: FS, fs: FS, c: Call, n: nat)
    requires IsLate(base, fs, c, Hidden(c.id, n)) && InSection(c.pc)
    ensures InSection(Step(fs, c, Good).call.pc) || Step(fs, c, Good).call.pc.Done?
  {
    hide Step;
    InsideStep(fs, c, Good);
  }

  lemma LateEnds(base: FS, fs: FS, c: Call, n: nat)
    requires n >= 2 && IsLate(base, fs, c, Hidden(c.id, n)) && c.pc.Done?
    ensures Targets(fs) == (if n == 2 then Put(Targets(base), c.batch) else Targets(base))
    ensures Executed(c.id) in fs && Committed(c.id) in fs && Reservation(c.id) !in fs && Manifest(c.id) !in fs
  {
    var hidden := Hidden(c.id, n);
    assert Targets(Mask(base, hidden)) == Targets(base);
    assert Targets(Mask(fs, hidden)) == Targets(fs);
    assert Executed(c.id) in hidden;
  }

  /** The call in the section goes on. */
  lemma GoesOnInside(base: FS, s: State, next: State, i: nat, id: TxID, r: Reservers)
    requires Shape(s, id) && Exclusive(s, id) && Moves(s, next, i, Good) && Standing(base, s, id, r)
    requires InSection(s.calls[i].pc)
    ensures Standing(base, next, id, r)
  {
    hide Inv, IsLate, Step, TidiedUp, Failing, Hidden;
    var n, c := |r.order|, s.calls[i];
    assert n > 0 && r.order[n - 1] == i;
    SameBatches(Targets(base), s.calls, next.calls, r.order);
    SameBatches(Targets(base), s.calls, next.calls, r.order[..n - 1]);
    if n == 1 { FirstFinishes(base, s.fs, c); } else { LateFinishes(r.disk, s.fs, c, n); }
  }

  lemma {:induction false} TraceStands(id: TxID, trace: seq<State>, who: seq<nat>, ios: seq<IO>, k: nat)
    requires IsTrace(id, trace, who, ios) && NoFault(ios) && k <= |who| && !HasExecuted(trace[0].fs, id)
    ensures Standing(trace[0].fs, trace[k], id, ReserversAt(trace, who, k))
  {
    hide Step, Standing, Shape, Exclusive;
    if k == 0 {
      Beginning(id, trace[0]);
    } else {
      TraceStands(id, trace, who, ios, k - 1);
      TraceKeeps(id, trace, who, ios, k - 1);
      var s, next, i := trace[k - 1], trace[k], who[k - 1];
      assert Moves(s, next, i, Good);
      if InSection(s.calls[i].pc) {
        GoesOnInside(trace[0].fs, s, next, i, id, ReserversAt(trace, who, k - 1));
      } else if InSection(next.calls[i].pc) {
        EntersByReserving(s, next, i);
        NextReserves(trace[0].fs, s, next, i, id, ReserversAt(trace, who, k - 1));
      } else {
        StandsAside(trace[0].fs, s, next, i, id, ReserversAt(trace, who, k - 1));
      }
    }
  }

  lemma Beginning(id: TxID, s: State)
    requires Starts(s, id)
    ensures Standing(s.fs, s, id, Reservers([], s.fs))
  {}

  lemma EntersByReserving(s: State, next: State, i: nat)
    requires Moves(s, next, i, Good) && !InSection(s.calls[i].pc) && InSection(next.calls[i].pc)
    ensures s.calls[i].pc.Reserve?
  {
    hide Step;
    OutsideStep(s.fs, s.calls[i], Good);
  }

  /** In every interleaving of any number of calls for one trade without I/O errors, whenever no call is in
      its section the targets are those of the first two calls to reserve, written in that order: only the
      first of them succeeds, the second overwrites it, and every later one is stopped by the commit record
      the second leaves behind and puts its targets back. */
  lemma FirstTwoStay(id: TxID, trace: seq<State>, who: seq<nat>, ios: seq<IO>, k: nat)
    requires IsTrace(id, trace, who, ios) && NoFault(ios) && k <= |who| && !HasExecuted(trace[0].fs, id)
    requires forall i :: 0 <= i < |trace[k].calls| ==> !InSection(trace[k].calls[i].pc)
    ensures var order := ReserversAt(trace, who, k).order;
      && InOrder(trace[k].calls, order)
      && Targets(trace[k].fs) == FirstTwo(Targets(trace[0].fs), trace[k].calls, order)
      && (Executed(id) in trace[k].fs <==> order != []) && (Committed(id) in trace[k].fs <==> |order| >= 2)
  {
    hide Step, Shape, Exclusive, IsLate, Inv;
    TraceStands(id, trace, who, ios, k);
  }
}
