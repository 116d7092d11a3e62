/** What the state files of a node hold, and when they agree with the node. */
module StateFiles {
  import opened Base
  import opened Files
  import opened Model
  import opened NodeStates
  import Inventory
  import C = Canonical
  import J = JSONStores
  import P = Preimages

  // ---- The texts ----

  /** Texts are written canonically: like the original's JSON they determine what they were made from. */
  function RowValue(row: map<UnitID, Amount>): C.Value {
    C.Map(map u | u in row :: u.preimage := C.Int(row[u]))
  }

  function RecordValue(r: FlowRecord): C.Value {
    C.List([C.Int(r.trade), C.Int(r.payment), C.Int(r.consumption), C.Int(r.demand)])
  }

  function FlowValue(flow: map<UnitID, FlowRecord>): C.Value {
    C.Map(map u | u in flow :: u.preimage := RecordValue(flow[u]))
  }

  lemma ValuesEncode(row: map<UnitID, Amount>, flow: map<UnitID, FlowRecord>)
    ensures C.Encodable(RowValue(row)) && C.Sized(RowValue(row))
    ensures C.Encodable(FlowValue(flow)) && C.Sized(FlowValue(flow))
  {
    forall k | k in FlowValue(flow).entries
      ensures C.Encodable(FlowValue(flow).entries[k]) && C.Sized(FlowValue(flow).entries[k])
    {
      var u :| u in flow && k == u.preimage;
      RecordEncodes(flow[u]);
    }
  }

  lemma RecordEncodes(r: FlowRecord)
    ensures C.Encodable(RecordValue(r)) && C.Sized(RecordValue(r))
  {}

  function RowText(row: map<UnitID, Amount>): Bytes
  {
    ValuesEncode(row, map[]);
    C.Enc(RowValue(row))
  }

  function FlowText(flow: map<UnitID, FlowRecord>): Bytes
  {
    ValuesEncode(map[], flow);
    C.Enc(FlowValue(flow))
  }

  lemma FlowTextInjective(a: map<UnitID, FlowRecord>, b: map<UnitID, FlowRecord>)
    ensures FlowText(a) == FlowText(b) <==> a == b
  {
    hide FlowValue, C.Enc, C.Encodable, C.Sized;
    if FlowText(a) == FlowText(b) {
      ValuesEncode(map[], a);
      ValuesEncode(map[], b);
      C.PrefixFree(FlowValue(a), FlowValue(b), [], []);
      FlowValueInjective(a, b);
    }
  }

  lemma FlowValueInjective(a: map<UnitID, FlowRecord>, b: map<UnitID, FlowRecord>)
    requires FlowValue(a) == FlowValue(b)
    ensures a == b
  {
    hide RecordValue;
    var x, y := FlowValue(a).entries, FlowValue(b).entries;
    forall u ensures u in a <==> u in b {
      assert u in a <==> u.preimage in x;
      assert u in b <==> u.preimage in y;
    }
    forall u | u in a ensures a[u] == b[u] {
      assert x[u.preimage] == RecordValue(a[u]) && y[u.preimage] == RecordValue(b[u]);
      SameRecord(a[u], b[u]);
    }
  }

  lemma SameRecord(a: FlowRecord, b: FlowRecord)
    requires RecordValue(a) == RecordValue(b)
    ensures a == b
  {
    var x, y := RecordValue(a).items, RecordValue(b).items;
    assert x[0] == y[0] && x[1] == y[1] && x[2] == y[2] && x[3] == y[3];
  }

  // ---- Nodes and their files ----

  function OwnRow(h: Inventory.Holdings, n: NodeID): map<UnitID, Amount> {
    if n in h then h[n] else map[]
  }

  /** What a node hands to the store; the printed prices are any text. */
  function Persisted(n: NodeID, b: Books, prices: Bytes): J.NodeState {
    J.NodeState(n, RowText(OwnRow(b.holdings, n)), FlowText(b.flow), prices)
  }

  /** The inventory and flow files of a node say what its books say. */
  predicate Holds(fs: FS, n: NodeID, b: Books) {
    && Files.Inventory(n) in fs && fs[Files.Inventory(n)] == StateDoc(n, true, RowText(OwnRow(b.holdings, n)))
    && Files.Flow(n) in fs && fs[Files.Flow(n)] == StateDoc(n, true, FlowText(b.flow))
  }

  /** A party whose books are in the store. */
  datatype Party = Party(node: NodeID, books: Books)

  function StatesOf(parties: seq<Party>, prices: seq<Bytes>): seq<J.NodeState>
    requires |prices| == |parties|
  {
    seq(|parties|, i requires 0 <= i < |parties| => Persisted(parties[i].node, parties[i].books, prices[i]))
  }

  predicate OfParty(parties: seq<Party>, p: Path) {
    exists i :: 0 <= i < |parties| && p in {Files.Inventory(parties[i].node), Files.Flow(parties[i].node),
                                            Files.Prices(parties[i].node)}
  }

  /** There is a price file of the node, under its name; what it prints is any text. */
  predicate HasPrices(fs: FS, n: NodeID) {
    Files.Prices(n) in fs && fs[Files.Prices(n)].StateDoc? && fs[Files.Prices(n)].node == n
  }

  function TradeText(auth: AuthorizedTrade): Bytes {
    DigestBytes(AuthorizedTradeID(auth))
  }

  /** The disk after a trade was written: its file, the files of the parties, and nothing else changed. */
  ghost predicate Written(before: FS, after: FS, id: TxID, auth: AuthorizedTrade, parties: seq<Party>) {
    && TradeFile(id) in after && after[TradeFile(id)] == TradeDoc(id, TradeText(auth))
    && (forall i :: 0 <= i < |parties| ==>
          Holds(after, parties[i].node, parties[i].books) && HasPrices(after, parties[i].node))
    && (forall p :: IsTarget(p) && p != TradeFile(id) && !OfParty(parties, p) ==>
          (p in after <==> p in before) && (p in after ==> after[p] == before[p]))
  }

  // ---- A batch, document by document ----

  lemma {:induction false} PutAppend(fs: FS, a: seq<Doc>, b: seq<Doc>)
    ensures Put(fs, a + b) == Put(Put(fs, a), b)
  {
    if b == [] {
      assert a + b == a;
    } else {
      PutAppend(fs, a, b[..|b| - 1]);
      assert (a + b)[..|a + b| - 1] == a + b[..|b| - 1];
    }
  }

  function PutNode(fs: FS, s: J.NodeState): FS {
    fs[Files.Inventory(s.node) := StateDoc(s.node, true, s.inventory)]
      [Files.Flow(s.node) := StateDoc(s.node, true, s.flow)]
      [Files.Prices(s.node) := StateDoc(s.node, true, s.prices)]
  }

  lemma PutNodeDocs(fs: FS, s: J.NodeState)
    ensures Put(fs, J.NodeDocs(s)) == PutNode(fs, s)
  {
    var docs := J.NodeDocs(s);
    PutSnoc(fs, docs, 0);
    PutSnoc(fs, docs, 1);
    PutSnoc(fs, docs, 2);
    assert docs[..0] == [] && docs[..3] == docs;
  }

  lemma PutOne(fs: FS, id: TxID, body: Bytes, s: J.NodeState)
    ensures Put(fs, J.BatchOf(id, body, [s])) == PutNode(fs[TradeFile(id) := TradeDoc(id, body)], s)
  {
    var first := [Doc(TradeFile(id), TradeDoc(id, body))];
    assert [s][..0] == [] && J.StateDocs([s]) == J.NodeDocs(s);
    PutAppend(fs, first, J.NodeDocs(s));
    assert first[..0] == [];
    PutNodeDocs(Put(fs, first), s);
  }

  lemma PutTwo(fs: FS, id: TxID, body: Bytes, s: J.NodeState, t: J.NodeState)
    ensures Put(fs, J.BatchOf(id, body, [s, t])) == PutNode(PutNode(fs[TradeFile(id) := TradeDoc(id, body)], s), t)
  {
    var first := [Doc(TradeFile(id), TradeDoc(id, body))];
    assert [s, t][..1] == [s];
    assert J.BatchOf(id, body, [s, t]) == J.BatchOf(id, body, [s]) + J.NodeDocs(t);
    PutAppend(fs, J.BatchOf(id, body, [s]), J.NodeDocs(t));
    PutOne(fs, id, body, s);
    PutNodeDocs(Put(fs, J.BatchOf(id, body, [s])), t);
  }

  /** The targets of one or two different parties come out as written. */
  lemma BatchWrites(before: FS, after: FS, id: TxID, auth: AuthorizedTrade, parties: seq<Party>, prices: seq<Bytes>)
    requires 1 <= |parties| <= 2 && |prices| == |parties|
    requires |parties| == 2 ==> parties[0].node != parties[1].node
    requires Targets(after) == Put(Targets(before), J.BatchOf(id, TradeText(auth), StatesOf(parties, prices)))
    ensures Written(before, after, id, auth, parties)
  {
    hide RowText, FlowText, TradeText, Put, J.BatchOf;
    var states, t, u := StatesOf(parties, prices), Targets(before), Targets(after);
    if |parties| == 1 {
      assert states == [states[0]];
      PutOne(t, id, TradeText(auth), states[0]);
      OneWrites(t, u, id, auth, parties[0], prices[0]);
      assert parties == [parties[0]];
    } else {
      assert states == [states[0], states[1]];
      PutTwo(t, id, TradeText(auth), states[0], states[1]);
      TwoWrite(t, u, id, auth, parties[0], parties[1], prices[0], prices[1]);
      assert parties == [parties[0], parties[1]];
    }
    TargetsWritten(before, after, id, auth, parties);
  }

  lemma OneWrites(t: FS, u: FS, id: TxID, auth: AuthorizedTrade, a: Party, x: Bytes)
    requires u == PutNode(t[TradeFile(id) := TradeDoc(id, TradeText(auth))], Persisted(a.node, a.books, x))
    ensures Written(t, u, id, auth, [a])
  {
    hide RowText, FlowText, TradeText;
    forall p | IsTarget(p) && p != TradeFile(id) && !OfParty([a], p)
      ensures (p in u <==> p in t) && (p in u ==> u[p] == t[p])
    {
      assert [a][0] == a;
    }
  }

  lemma TwoWrite(t: FS, u: FS, id: TxID, auth: AuthorizedTrade, a: Party, b: Party, x: Bytes, y: Bytes)
    requires a.node != b.node
    requires u == PutNode(PutNode(t[TradeFile(id) := TradeDoc(id, TradeText(auth))], Persisted(a.node, a.books, x)),
                          Persisted(b.node, b.books, y))
    ensures Written(t, u, id, auth, [a, b])
  {
    hide RowText, FlowText, TradeText;
    forall p | IsTarget(p) && p != TradeFile(id) && !OfParty([a, b], p)
      ensures (p in u <==> p in t) && (p in u ==> u[p] == t[p])
    {
      assert [a, b][0] == a && [a, b][1] == b;
    }
  }

  lemma TargetsWritten(before: FS, after: FS, id: TxID, auth: AuthorizedTrade, parties: seq<Party>)
    requires Written(Targets(before), Targets(after), id, auth, parties)
    ensures Written(before, after, id, auth, parties)
  {
    hide RowText, FlowText, TradeText, OfParty;
    forall p | IsTarget(p) ensures p in after <==> p in Targets(after) {}
    forall p | IsTarget(p) ensures p in before <==> p in Targets(before) {}
  }

  // ---- Agreement before and after ----

  ghost predicate Agrees(fs: FS, parties: seq<Party>) {
    forall i :: 0 <= i < |parties| ==> Holds(fs, parties[i].node, parties[i].books)
  }

  lemma HoldsTargets(fs: FS, after: FS, parties: seq<Party>)
    requires Targets(fs) == Targets(after)
    ensures Agrees(fs, parties) <==> Agrees(after, parties)
  {
    hide RowText, FlowText;
    forall i | 0 <= i < |parties|
      ensures Holds(fs, parties[i].node, parties[i].books) <==> Holds(after, parties[i].node, parties[i].books)
    {
      var n := parties[i].node;
      assert Files.Inventory(n) in fs <==> Files.Inventory(n) in Targets(fs);
      assert Files.Inventory(n) in after <==> Files.Inventory(n) in Targets(after);
      assert Files.Flow(n) in fs <==> Files.Flow(n) in Targets(fs);
      assert Files.Flow(n) in after <==> Files.Flow(n) in Targets(after);
    }
  }

  /** Files cannot agree with two flows. */
  lemma OneFlow(fs: FS, n: NodeID, a: Books, b: Books)
    requires Holds(fs, n, a) && Holds(fs, n, b)
    ensures a.flow == b.flow
  {
    FlowTextInjective(a.flow, b.flow);
  }

  // ---- Reading the files back ----

  /** What a state file of node n decodes to. */
  function ReadState(fs: FS, p: Path, n: NodeID): Option<map<Bytes, C.Value>> {
    if p !in fs || !fs[p].StateDoc? || fs[p].node != n then None
    else
      match C.Dec(fs[p].body)
      case None => None
      case Some((v, rest)) => if v.Map? && rest == [] then Some(v.entries) else None
  }

  /** The amount of a unit in an inventory file; a unit that is not listed is not held. */
  function ReadAmount(fs: FS, n: NodeID, u: UnitID): Option<int> {
    match ReadState(fs, Files.Inventory(n), n)
    case None => None
    case Some(entries) =>
      if u.preimage !in entries then Some(0)
      else match entries[u.preimage] case Int(amount) => Some(amount) case _ => None
  }

  /** Trade volume, payment volume, consumption and demand of a unit in a flow file. */
  function ReadFlow(fs: FS, n: NodeID, u: UnitID): Option<seq<C.Value>> {
    match ReadState(fs, Files.Flow(n), n)
    case None => None
    case Some(entries) =>
      if u.preimage !in entries then Some([C.Int(0), C.Int(0), C.Int(0), C.Int(0)])
      else match entries[u.preimage] case List(items) => Some(items) case _ => None
  }

  lemma TextsDecode(row: map<UnitID, Amount>, flow: map<UnitID, FlowRecord>)
    ensures C.Dec(RowText(row)) == Some((RowValue(row), []))
    ensures C.Dec(FlowText(flow)) == Some((FlowValue(flow), []))
  {
    hide C.Enc, C.Dec, C.Encodable, C.Sized, RowValue, FlowValue;
    ValuesEncode(row, flow);
    ValuesEncode(row, map[]);
    ValuesEncode(map[], flow);
    C.RoundTrip(RowValue(row), C.Enc(RowValue(row)), []);
    C.RoundTrip(FlowValue(flow), C.Enc(FlowValue(flow)), []);
    assert RowText(row) + [] == RowText(row) && FlowText(flow) + [] == FlowText(flow);
  }

  lemma StateReads(fs: FS, n: NodeID, b: Books)
    requires Holds(fs, n, b)
    ensures ReadState(fs, Files.Inventory(n), n) == Some(RowValue(OwnRow(b.holdings, n)).entries)
    ensures ReadState(fs, Files.Flow(n), n) == Some(FlowValue(b.flow).entries)
  {
    hide C.Dec, RowText, FlowText, OwnRow;
    TextsDecode(OwnRow(b.holdings, n), b.flow);
  }

  lemma RowEntry(row: map<UnitID, Amount>, u: UnitID)
    ensures u.preimage in RowValue(row).entries <==> u in row
    ensures u in row ==> RowValue(row).entries[u.preimage] == C.Int(row[u])
  {}

  lemma FlowEntry(flow: map<UnitID, FlowRecord>, u: UnitID)
    ensures u.preimage in FlowValue(flow).entries <==> u in flow
    ensures u in flow ==> FlowValue(flow).entries[u.preimage] == RecordValue(flow[u])
  {
    hide RecordValue;
  }

  /** Reading the files of a node gives what the node holds and has recorded, unit by unit: every holding is
      written, and nothing else is. */
  lemma FilesReadBack(fs: FS, n: NodeID, b: Books, u: UnitID)
    requires Holds(fs, n, b)
    ensures ReadAmount(fs, n, u) == Some(Inventory.Cell(b.holdings, n, u))
    ensures var r := FlowOf(b, u);
      ReadFlow(fs, n, u) == Some([C.Int(r.trade), C.Int(r.payment), C.Int(r.consumption), C.Int(r.demand)])
  {
    hide ReadState, RowValue, FlowValue, Holds;
    StateReads(fs, n, b);
    RowEntry(OwnRow(b.holdings, n), u);
    FlowEntry(b.flow, u);
  }

  /** So files that agree with two books agree on every amount and every record. */
  lemma FilesDetermine(fs: FS, n: NodeID, a: Books, b: Books, u: UnitID)
    requires Holds(fs, n, a) && Holds(fs, n, b)
    ensures Inventory.Cell(a.holdings, n, u) == Inventory.Cell(b.holdings, n, u) && FlowOf(a, u) == FlowOf(b, u)
  {
    hide Holds, ReadAmount, ReadFlow;
    FilesReadBack(fs, n, a, u);
    FilesReadBack(fs, n, b, u);
    var x, y := ReadFlow(fs, n, u).value, ReadFlow(fs, n, u).value;
    assert x[0] == y[0] && x[1] == y[1] && x[2] == y[2] && x[3] == y[3];
  }

  /** The trade file of a written trade hashes to the identifier it is filed under, so it determines trade, intents,
      keys and signatures. */
  lemma TradeFileHashes(before: FS, after: FS, id: TxID, auth: AuthorizedTrade, parties: seq<Party>)
    requires Written(before, after, id, auth, parties) && id == AuthorizedTradeID(auth)
    ensures var doc := after[TradeFile(id)];
      && doc.TradeDoc? && doc.authID == id && HashBytes(doc.body) == id
      && forall other :: HashBytes(doc.body) == AuthorizedTradeID(other) <==>
           P.BareDocument(P.AuthorizedDoc(other)) == P.BareDocument(P.AuthorizedDoc(auth))
  {
    hide Holds, HasPrices, OfParty, P.BareDocument, P.Preimage;
    forall other ensures AuthorizedTradeID(auth) == AuthorizedTradeID(other) <==>
      P.BareDocument(P.AuthorizedDoc(other)) == P.BareDocument(P.AuthorizedDoc(auth))
    {
      SameTrade(auth, other);
    }
  }

  lemma SameTrade(a: AuthorizedTrade, b: AuthorizedTrade)
    ensures AuthorizedTradeID(a) == AuthorizedTradeID(b) <==>
      P.BareDocument(P.AuthorizedDoc(b)) == P.BareDocument(P.AuthorizedDoc(a))
  {
    hide AuthorizedFields;
    P.AuthorizedInjective(a, b);
  }
}
