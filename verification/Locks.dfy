/** The execution mutex and the node locks: the order they are taken in, and why it cannot deadlock. */
module Locks {
  import opened Base
  import C = Canonical

  /** The process-wide execution mutex, or the lock of a node object. A node object is known by its
      identifier and the text of its address; different objects have different addresses. */
  datatype Lock = Mutex | NodeLock(id: NodeID, address: Bytes)

  /** The mutex comes first; nodes are ordered by identifier, and by address where those are equal. */
  predicate Before(a: Lock, b: Lock) {
    if a.Mutex? || b.Mutex? then a.Mutex? && b.NodeLock?
    else C.Less(a.id, b.id) || (a.id == b.id && C.Less(a.address, b.address))
  }

  lemma BeforeTotal(a: Lock, b: Lock)
    ensures Before(a, b) || a == b || Before(b, a)
    ensures !(Before(a, b) && Before(b, a)) && !Before(a, a)
  {
    if a.NodeLock? {
      C.LessTotal(a.id, a.id);
      C.LessTotal(a.address, a.address);
      if b.NodeLock? {
        C.LessTotal(a.id, b.id);
        C.LessTotal(a.address, b.address);
      }
    }
  }

  lemma BeforeTransitive(a: Lock, b: Lock, c: Lock)
    requires Before(a, b) && Before(b, c)
    ensures Before(a, c)
  {
    if a.NodeLock? && b.NodeLock? && c.NodeLock? {
      if C.Less(a.id, b.id) && C.Less(b.id, c.id) { C.LessTransitive(a.id, b.id, c.id); }
      if C.Less(a.address, b.address) && C.Less(b.address, c.address) {
        C.LessTransitive(a.address, b.address, c.address);
      }
    }
  }

  /** The two node locks a trade takes, in the order it takes them. */
  function OrderedNodes(a: Lock, b: Lock): (r: (Lock, Lock))
    requires a.NodeLock? && b.NodeLock? && a != b
    ensures Before(r.0, r.1) && {r.0, r.1} == {a, b}
  {
    BeforeTotal(a, b);
    if C.Less(a.id, b.id) then (a, b)
    else if C.Less(b.id, a.id) then (b, a)
    else if C.Less(a.address, b.address) then (a, b)
    else (b, a)
  }

  /** What one operation locks: an execution the mutex and then its nodes, a quote between two nodes just
      the nodes, anything else a single node. */
  function LocksOf(executes: bool, a: Lock, b: Lock): (r: seq<Lock>)
    requires a.NodeLock? && b.NodeLock?
    ensures Rising(r) && forall l :: l in r <==> l == a || l == b || (executes && l == Mutex)
  {
    var nodes := if a == b then [a] else [OrderedNodes(a, b).0, OrderedNodes(a, b).1];
    assert a != b ==> {OrderedNodes(a, b).0, OrderedNodes(a, b).1} == {a, b};
    assert a != b ==> a in {OrderedNodes(a, b).0, OrderedNodes(a, b).1} && b in {OrderedNodes(a, b).0, OrderedNodes(a, b).1};
    assert a != b ==> OrderedNodes(a, b).0 in {a, b} && OrderedNodes(a, b).1 in {a, b};
    if executes then [Mutex] + nodes else nodes
  }

  predicate Rising(locks: seq<Lock>) {
    forall i, j :: 0 <= i < j < |locks| ==> Before(locks[i], locks[j])
  }

  // ---- Threads ----

  /** A thread takes its locks one by one, does its work, and gives them back one by one. */
  datatype Thread = Thread(locks: seq<Lock>, held: nat, releasing: bool)

  predicate Finished(t: Thread) {
    t.releasing && t.held == 0
  }

  predicate Holds(t: Thread, l: Lock) {
    exists i :: 0 <= i < t.held && i < |t.locks| && t.locks[i] == l
  }

  predicate Free(threads: seq<Thread>, l: Lock) {
    forall k :: 0 <= k < |threads| ==> !Holds(threads[k], l)
  }

  predicate CanStep(threads: seq<Thread>, k: nat)
    requires k < |threads|
  {
    var t := threads[k];
    if t.releasing then t.held > 0
    else t.held >= |t.locks| || Free(threads, t.locks[t.held])
  }

  function Stepped(t: Thread): Thread {
    if t.releasing then t.(held := if t.held > 0 then t.held - 1 else 0)
    else if t.held < |t.locks| then t.(held := t.held + 1)
    else t.(releasing := true)
  }

  /** Every thread takes its locks in rising order, and no lock is held twice. */
  ghost predicate Orderly(threads: seq<Thread>) {
    && (forall k :: 0 <= k < |threads| ==> Rising(threads[k].locks) && threads[k].held <= |threads[k].locks|)
    && (forall j, k, l :: 0 <= j < k < |threads| && Holds(threads[j], l) ==> !Holds(threads[k], l))
  }

  lemma HoldsAfter(t: Thread, l: Lock)
    requires t.held <= |t.locks|
    ensures Holds(Stepped(t), l) ==> Holds(t, l) || (!t.releasing && t.held < |t.locks| && l == t.locks[t.held])
  {
    if Holds(Stepped(t), l) {
      var i :| 0 <= i < Stepped(t).held && i < |t.locks| && t.locks[i] == l;
    }
  }

  lemma StepKeepsOrder(threads: seq<Thread>, k: nat)
    requires Orderly(threads) && k < |threads| && CanStep(threads, k)
    ensures Orderly(threads[k := Stepped(threads[k])])
  {
    var after := threads[k := Stepped(threads[k])];
    forall i, j, l | 0 <= i < j < |after| && Holds(after[i], l) ensures !Holds(after[j], l) {
      HoldsAfter(threads[k], l);
      assert Holds(threads[i], l) ==> !Holds(threads[j], l);
    }
  }

  // ---- Progress ----

  predicate Waiting(t: Thread) {
    !t.releasing && t.held < |t.locks|
  }

  /** Among waiting threads one waits for a lock that no waiting thread waits beyond. */
  lemma {:induction false} HighestWaiter(threads: seq<Thread>)
    requires exists k :: 0 <= k < |threads| && Waiting(threads[k])
    ensures exists m :: 0 <= m < |threads| && Waiting(threads[m]) && Highest(threads, m)
    decreases |threads|
  {
    var n := |threads| - 1;
    var front := threads[..n];
    if j :| 0 <= j < n && Waiting(threads[j]) {
      assert Waiting(front[j]);
      HighestWaiter(front);
      var m :| 0 <= m < n && Waiting(front[m]) && Highest(front, m);
      if Waiting(threads[n]) {
        BeforeTotal(Next(threads[m]), Next(threads[n]));
        if Before(Next(threads[m]), Next(threads[n])) {
          forall k | 0 <= k < |threads| && Waiting(threads[k]) ensures !Before(Next(threads[n]), Next(threads[k])) {
            if k < n {
              assert !Before(Next(front[m]), Next(front[k]));
              BeforeTotal(Next(threads[m]), Next(threads[k]));
              BeforeTotal(Next(threads[n]), Next(threads[k]));
              if Before(Next(threads[k]), Next(threads[m])) {
                BeforeTransitive(Next(threads[k]), Next(threads[m]), Next(threads[n]));
              }
            } else {
              BeforeTotal(Next(threads[n]), Next(threads[n]));
            }
          }
          assert Highest(threads, n);
        } else {
          assert Highest(threads, m) by {
            forall k | 0 <= k < |threads| && Waiting(threads[k]) ensures !Before(Next(threads[m]), Next(threads[k])) {
              if k < n { assert !Before(Next(front[m]), Next(front[k])); }
            }
          }
        }
      } else {
        forall k | 0 <= k < |threads| && Waiting(threads[k]) ensures !Before(Next(threads[m]), Next(threads[k])) {
          assert !Before(Next(front[m]), Next(front[k]));
        }
        assert Highest(threads, m);
      }
    } else {
      forall k | 0 <= k < |threads| && Waiting(threads[k]) ensures !Before(Next(threads[n]), Next(threads[k])) {
        BeforeTotal(Next(threads[n]), Next(threads[n]));
      }
      assert Highest(threads, n);
    }
  }

  function Next(t: Thread): Lock
    requires Waiting(t)
  {
    t.locks[t.held]
  }

  predicate Highest(threads: seq<Thread>, m: nat)
    requires m < |threads| && Waiting(threads[m])
  {
    forall k :: 0 <= k < |threads| && Waiting(threads[k]) ==> !Before(Next(threads[m]), Next(threads[k]))
  }

  /** In an orderly state with unfinished threads, one of them can step. */
  lemma SomeoneCanStep(threads: seq<Thread>)
    requires Orderly(threads) && exists k :: 0 <= k < |threads| && !Finished(threads[k])
    ensures exists k :: 0 <= k < |threads| && !Finished(threads[k]) && CanStep(threads, k)
  {
    var k :| 0 <= k < |threads| && !Finished(threads[k]);
    if !CanStep(threads, k) {
      assert Waiting(threads[k]);
      HighestWaiter(threads);
      var m :| 0 <= m < |threads| && Waiting(threads[m]) && Highest(threads, m);
      if !CanStep(threads, m) {
        var l := Next(threads[m]);
        var h :| 0 <= h < |threads| && Holds(threads[h], l);
        var i :| 0 <= i < threads[h].held && i < |threads[h].locks| && threads[h].locks[i] == l;
        HolderCanStep(threads, m, h, i);
      }
    }
  }

  /** The holder of the highest lock anyone waits for waits for nothing itself. */
  lemma HolderCanStep(threads: seq<Thread>, m: nat, h: nat, i: nat)
    requires Orderly(threads) && m < |threads| && h < |threads| && Waiting(threads[m]) && Highest(threads, m)
    requires i < threads[h].held && threads[h].locks[i] == Next(threads[m])
    ensures !Finished(threads[h]) && CanStep(threads, h)
  {
    if threads[h].held < |threads[h].locks| { HeldBeforeNext(threads[h], i); }
  }

  lemma HeldBeforeNext(t: Thread, i: nat)
    requires Rising(t.locks) && i < t.held < |t.locks|
    ensures Before(t.locks[i], t.locks[t.held])
  {}

  // ---- Runs ----

  ghost predicate Takes(a: seq<Thread>, b: seq<Thread>) {
    exists k :: 0 <= k < |a| && CanStep(a, k) && b == a[k := Stepped(a[k])]
  }

  predicate Starts(threads: seq<Thread>) {
    forall k :: 0 <= k < |threads| ==> Rising(threads[k].locks) && threads[k].held == 0 && !threads[k].releasing
  }

  ghost predicate IsRun(states: seq<seq<Thread>>) {
    && states != [] && Starts(states[0])
    && forall k :: 0 <= k < |states| - 1 ==> Takes(states[k], states[k + 1])
  }

  lemma {:induction false} RunOrderly(states: seq<seq<Thread>>, k: nat)
    requires IsRun(states) && k < |states|
    ensures Orderly(states[k])
    decreases k
  {
    if k > 0 {
      RunOrderly(states, k - 1);
      assert Takes(states[k - 1], states[k]);
      var t :| 0 <= t < |states[k - 1]| && CanStep(states[k - 1], t) && states[k] == states[k - 1][t := Stepped(states[k - 1][t])];
      StepKeepsOrder(states[k - 1], t);
    }
  }

  /** No reachable state is a deadlock: as long as a thread is unfinished, some thread can step. */
  lemma NoDeadlock(states: seq<seq<Thread>>, k: nat)
    requires IsRun(states) && k < |states|
    ensures (forall t :: 0 <= t < |states[k]| ==> Finished(states[k][t])) || exists next :: Takes(states[k], next)
  {
    RunOrderly(states, k);
    if !forall t :: 0 <= t < |states[k]| ==> Finished(states[k][t]) {
      SomeoneCanStep(states[k]);
      var t :| 0 <= t < |states[k]| && !Finished(states[k][t]) && CanStep(states[k], t);
      assert Takes(states[k], states[k][t := Stepped(states[k][t])]);
    }
  }
}
