/** The files a JSON store keeps, and what they hold. */
module Files {
  import opened Base

  /** Every path the store touches. Temporary and backup names are drawn by CreateTemp, which never
      returns a name in use: `call` is a number no other call draws from. */
  datatype Path =
    | TradeFile(id: TxID)
    | Inventory(node: NodeID)
    | Flow(node: NodeID)
    | Prices(node: NodeID)
    | Executed(id: TxID)
    | Committed(id: TxID)
    | Manifest(id: TxID)
    | Reservation(id: TxID)
    | ManifestTmp(id: TxID)
    | Tmp(call: nat, slot: nat)
    | Backup(call: nat, slot: nat)

  datatype Phase = Preparing | Applying | Committing | Unknown

  /** File contents. A trade document carries the authorized trade id its JSON hashes to, and a state
      document the node id and whether all its unit keys parse. */
  datatype Content =
    | TradeDoc(authID: TxID, body: Bytes)
    | StateDoc(node: NodeID, unitsParse: bool, body: Bytes)
    | ManifestDoc(id: TxID, phase: Phase, targets: seq<Path>)
    | Record
    | Corrupt

  type FS = map<Path, Content>

  predicate IsTarget(p: Path) {
    p.TradeFile? || p.Inventory? || p.Flow? || p.Prices?
  }

  /** The part of the disk that holds trades and node state. */
  function Targets(fs: FS): FS {
    map p | p in fs && IsTarget(p) :: fs[p]
  }

  /** The evidence test: any one of four artifacts makes a trade count as executed. */
  predicate HasExecuted(fs: FS, id: TxID) {
    Executed(id) in fs || Committed(id) in fs || Reservation(id) in fs || Manifest(id) in fs
  }

  /** The trades that count as executed. */
  function Evidence(fs: FS): (r: set<TxID>)
    ensures forall id :: id in r <==> HasExecuted(fs, id)
  {
    (set p | p in fs && p.Executed? :: p.id) + (set p | p in fs && p.Committed? :: p.id)
    + (set p | p in fs && p.Reservation? :: p.id) + (set p | p in fs && p.Manifest? :: p.id)
  }

  datatype Doc = Doc(path: Path, content: Content)

  /** All documents written in order, later ones over earlier ones. */
  function Put(fs: FS, docs: seq<Doc>): FS {
    if docs == [] then fs
    else
      var last := docs[|docs| - 1];
      Put(fs, docs[..|docs| - 1])[last.path := last.content]
  }

  function PathsOf(docs: seq<Doc>): seq<Path> {
    seq(|docs|, i requires 0 <= i < |docs| => docs[i].path)
  }

  lemma TargetsOfWrite(fs: FS, p: Path, c: Content)
    ensures IsTarget(p) ==> Targets(fs[p := c]) == Targets(fs)[p := c]
    ensures !IsTarget(p) ==> Targets(fs[p := c]) == Targets(fs)
  {
  }

  lemma TargetsOfRemove(fs: FS, p: Path)
    ensures IsTarget(p) ==> Targets(fs - {p}) == Targets(fs) - {p}
    ensures !IsTarget(p) ==> Targets(fs - {p}) == Targets(fs)
  {
  }

  lemma PutSnoc(fs: FS, docs: seq<Doc>, i: nat)
    requires i < |docs|
    ensures Put(fs, docs[..i + 1]) == Put(fs, docs[..i])[docs[i].path := docs[i].content]
  {
    assert docs[..i + 1][..i] == docs[..i];
  }

  /** What a batch leaves at one path: the content of its last document there, or the old file. */
  lemma {:induction false} PutAt(fs: FS, docs: seq<Doc>, p: Path)
    ensures p in Put(fs, docs) <==> p in fs || exists i :: 0 <= i < |docs| && docs[i].path == p
    ensures (forall i :: 0 <= i < |docs| ==> docs[i].path != p) && p in fs ==> Put(fs, docs)[p] == fs[p]
    ensures forall i :: 0 <= i < |docs| && docs[i].path == p
              && (forall j :: i < j < |docs| ==> docs[j].path != p)
              ==> Put(fs, docs)[p] == docs[i].content
  {
    if docs != [] {
      var n := |docs| - 1;
      PutAt(fs, docs[..n], p);
      assert forall i :: 0 <= i < n ==> docs[..n][i] == docs[i];
    }
  }
}
