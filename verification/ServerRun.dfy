/** A server: connections come, each with a session of its own, and all of them share one node and its store. */
module ServerRuns {
  import opened Base
  import opened Model
  import opened NodeStates
  import opened SessionStates
  import opened SessionLaws
  import R = SessionRuns

  datatype Connection = Connection(peer: NodeID, session: SessionState)

  datatype Server = Server(node: NodeState, marks: StoreView, connections: seq<Connection>)

  /** A peer connects, something happens in one session, or the node is used outside all sessions. */
  datatype ServerEvent =
    | Connect(peer: NodeID)
    | InSession(i: nat, e: R.Event)
    | Outside(node: NodeState, marks: StoreView)

  function NewSession(): SessionState {
    SessionState(map[], map[], map[], map[], {}, 0)
  }

  /** The server as its i-th session sees it. */
  function SeenBy(s: Server, i: nat): R.State
    requires i < |s.connections|
  {
    R.State(s.connections[i].session, s.node, s.marks)
  }

  ghost predicate Serves(a: Server, e: ServerEvent, b: Server) {
    match e
    case Connect(peer) => b == a.(connections := a.connections + [Connection(peer, NewSession())])
    case InSession(i, own) =>
      && i < |a.connections| == |b.connections| && !own.Elsewhere?
      && b.connections == a.connections[i := Connection(a.connections[i].peer, b.connections[i].session)]
      && R.Steps(a.connections[i].peer, SeenBy(a, i), own, SeenBy(b, i))
    case Outside(node, marks) =>
      node.id == a.node.id && MarksKept(a.marks, marks) && b == a.(node := node, marks := marks)
  }

  ghost predicate IsRun(servers: seq<Server>, events: seq<ServerEvent>) {
    && |servers| == |events| + 1
    && servers[0].connections == []
    && forall k :: 0 <= k < |events| ==> Serves(servers[k], events[k], servers[k + 1])
  }

  ghost predicate AllInvariant(s: Server) {
    forall i :: 0 <= i < |s.connections| ==> Invariant(s.node.id, s.connections[i].peer, s.connections[i].session)
  }

  /** One session executes the trade with this identifier. */
  ghost predicate Executes(a: Server, e: ServerEvent, id: TxID) {
    e.InSession? && e.i < |a.connections| && R.Executes(a.connections[e.i].peer, SeenBy(a, e.i), e.e, id)
  }

  lemma ServesKeeps(a: Server, e: ServerEvent, b: Server)
    requires AllInvariant(a) && Serves(a, e, b)
    ensures AllInvariant(b) && b.node.id == a.node.id
    ensures b.node != a.node ==> e.Outside? || (e.InSession? && e.e.Receive? && Executes(a, e, e.e.m.payload.authId))
    ensures a.marks.Some? == b.marks.Some? && (a.marks.Some? ==> a.marks.value <= b.marks.value)
  {
    hide Invariant, R.Steps, R.Executes;
    if e.Connect? { EmptySession(a.node.id, e.peer, 0); }
    if e.InSession? {
      R.StepKeepsInvariant(a.connections[e.i].peer, SeenBy(a, e.i), e.e, SeenBy(b, e.i));
      R.StepMarks(a.connections[e.i].peer, SeenBy(a, e.i), e.e, SeenBy(b, e.i));
    }
  }

  /** In every state of every run of a server every session keeps the invariant, and what changes the node is
      the execution of a negotiated trade in one session, or happens outside all of them. */
  lemma {:induction false} ServerKeepsInvariant(servers: seq<Server>, events: seq<ServerEvent>, k: nat)
    requires IsRun(servers, events) && k < |servers|
    ensures AllInvariant(servers[k]) && servers[k].node.id == servers[0].node.id
    ensures k > 0 && servers[k].node != servers[k - 1].node ==>
      var e := events[k - 1];
      e.Outside? || (e.InSession? && e.e.Receive? && Executes(servers[k - 1], e, e.e.m.payload.authId))
  {
    hide Serves, AllInvariant, Executes;
    if k == 0 {
      assert AllInvariant(servers[0]) by { NobodyConnected(servers[0]); }
    } else {
      ServerKeepsInvariant(servers, events, k - 1);
      assert Serves(servers[k - 1], events[k - 1], servers[k]);
      ServesKeeps(servers[k - 1], events[k - 1], servers[k]);
    }
  }

  lemma NobodyConnected(s: Server)
    requires s.connections == []
    ensures AllInvariant(s)
  {}

  lemma {:induction false} ServerMarks(servers: seq<Server>, events: seq<ServerEvent>, j: nat, k: nat)
    requires IsRun(servers, events) && j <= k < |servers|
    ensures servers[j].marks.Some? == servers[k].marks.Some?
    ensures servers[j].marks.Some? ==> servers[j].marks.value <= servers[k].marks.value
    decreases k - j
  {
    hide Serves, AllInvariant;
    if j < k {
      ServerKeepsInvariant(servers, events, j);
      assert Serves(servers[j], events[j], servers[j + 1]);
      ServesKeeps(servers[j], events[j], servers[j + 1]);
      ServerMarks(servers, events, j + 1, k);
    }
  }

  lemma ServerExecutionMarks(a: Server, e: ServerEvent, b: Server, id: TxID)
    requires AllInvariant(a) && Serves(a, e, b) && Executes(a, e, id)
    ensures a.marks.Some? && id !in a.marks.value && b.marks == Some(a.marks.value + {id})
  {
    hide Invariant, R.Steps, R.Executes;
    R.ExecutionMarks(a.connections[e.i].peer, SeenBy(a, e.i), e.e, SeenBy(b, e.i), id);
  }

  /** No run of a server executes the same trade identifier twice, be it in one session or in two, with one
      peer or with different ones, and whatever happens outside the sessions. */
  lemma ServerExecutesOnce(servers: seq<Server>, events: seq<ServerEvent>, j: nat, k: nat, id: TxID)
    requires IsRun(servers, events) && j < k < |events|
    requires Executes(servers[j], events[j], id)
    ensures !Executes(servers[k], events[k], id)
  {
    hide Serves, AllInvariant, Executes;
    ServerKeepsInvariant(servers, events, j);
    ServerKeepsInvariant(servers, events, k);
    assert Serves(servers[j], events[j], servers[j + 1]) && Serves(servers[k], events[k], servers[k + 1]);
    ServerExecutionMarks(servers[j], events[j], servers[j + 1], id);
    ServerMarks(servers, events, j + 1, k);
    if Executes(servers[k], events[k], id) { ServerExecutionMarks(servers[k], events[k], servers[k + 1], id); }
  }

  /** What a session of a server goes through is a run of that session alone in which the rest of the server
      happens elsewhere. */
  lemma {:induction false} SessionSeesRun(servers: seq<Server>, events: seq<ServerEvent>, i: nat, j: nat, k: nat)
      returns (states: seq<R.State>, own: seq<R.Event>)
    requires IsRun(servers, events) && j <= k < |servers| && i < |servers[j].connections|
    ensures i < |servers[k].connections| && servers[k].connections[i].peer == servers[j].connections[i].peer
    ensures |own| == k - j && R.IsRun(servers[j].connections[i].peer, states, own)
    ensures states[0] == SeenBy(servers[j], i) && states[k - j] == SeenBy(servers[k], i)
  {
    hide Serves, Invariant, R.Steps;
    if j == k {
      states, own := [SeenBy(servers[j], i)], [];
      ServerKeepsInvariant(servers, events, j);
    } else {
      var before, done := SessionSeesRun(servers, events, i, j, k - 1);
      assert Serves(servers[k - 1], events[k - 1], servers[k]);
      ServerKeepsInvariant(servers, events, k - 1);
      var e := SeenEvent(servers[k - 1], events[k - 1], servers[k], i);
      states, own := before + [SeenBy(servers[k], i)], done + [e];
      forall n | 0 <= n < |own| ensures R.Steps(servers[j].connections[i].peer, states[n], own[n], states[n + 1]) {
        if n < |done| { assert states[n] == before[n] && states[n + 1] == before[n + 1] && own[n] == done[n]; }
      }
    }
  }

  lemma SeenEvent(a: Server, e: ServerEvent, b: Server, i: nat) returns (own: R.Event)
    requires Serves(a, e, b) && i < |a.connections| && AllInvariant(a)
    ensures i < |b.connections| && b.connections[i].peer == a.connections[i].peer
    ensures R.Steps(a.connections[i].peer, SeenBy(a, i), own, SeenBy(b, i))
  {
    hide Invariant;
    if e.InSession? && e.i == i {
      own := e.e;
    } else {
      own := R.Elsewhere(b.node, b.marks);
      ServesKeeps(a, e, b);
    }
  }
}
