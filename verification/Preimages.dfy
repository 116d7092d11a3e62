/** A preimage determines the document it was made from: everything but the identifier and, where the
    document is signed, the signature. Documents of different kinds never share a preimage. */
module Preimages {
  import opened Base
  import opened Model
  import C = Canonical

  datatype Document =
    | ValueDoc(value: Value)
    | IssueDoc(issue: IssueTx)
    | TransferDoc(transfer: TransferTx)
    | TradeDoc(trade: TradeTx)
    | IntentDoc(intent: TradeIntent)
    | AuthorizedDoc(auth: AuthorizedTrade)
    | QuoteDoc(quote: QuoteResponse)
    | UnitDoc(unitIssuer: Bytes, unitName: Bytes)
    | MetadataUnitDoc(metadataIssuer: NodeID, metadata: Bytes)

  function Fields(d: Document): seq<C.Field> {
    match d
    case ValueDoc(v) => ValueFields(v)
    case IssueDoc(tx) => IssueFields(tx)
    case TransferDoc(tx) => TransferFields(tx)
    case TradeDoc(tx) => TradeFields(tx)
    case IntentDoc(i) => IntentFields(i)
    case AuthorizedDoc(a) => AuthorizedFields(a)
    case QuoteDoc(q) => QuoteFields(q)
    case UnitDoc(issuer, name) => UnitFields(issuer, name)
    case MetadataUnitDoc(issuer, metadata) => MetadataUnitFields(issuer, metadata)
  }

  function Preimage(d: Document): Bytes {
    C.EncFields(Fields(d))
  }

  // ---- What a preimage leaves out ----

  function Bare(v: Value): Value {
    v.(id := ZERO_TX_ID)
  }

  function BareAll(vs: seq<Value>): (r: seq<Value>)
    ensures |r| == |vs|
  {
    seq(|vs|, i requires 0 <= i < |vs| => Bare(vs[i]))
  }

  function BareTrade(tx: TradeTx): TradeTx {
    tx.(id := ZERO_TX_ID, inputsA := BareAll(tx.inputsA), inputsB := BareAll(tx.inputsB),
        outputsA := BareAll(tx.outputsA), outputsB := BareAll(tx.outputsB))
  }

  function BareTransfer(tx: TransferTx): TransferTx {
    tx.(id := ZERO_TX_ID, outputs := BareAll(tx.outputs), signature := NoSig)
  }

  function BareIssue(tx: IssueTx): IssueTx {
    tx.(id := ZERO_TX_ID, outputs := BareAll(tx.outputs), signature := NoSig)
  }

  /** The identifier of an authorized trade covers both signatures. */
  function BareDocument(d: Document): Document {
    match d
    case ValueDoc(v) => ValueDoc(Bare(v))
    case IssueDoc(tx) => IssueDoc(BareIssue(tx))
    case TransferDoc(tx) => TransferDoc(BareTransfer(tx))
    case TradeDoc(tx) => TradeDoc(BareTrade(tx))
    case AuthorizedDoc(a) => AuthorizedDoc(a.(tx := BareTrade(a.tx)))
    case QuoteDoc(q) => QuoteDoc(q.(quoteId := ZERO_TX_ID))
    case _ => d
  }

  // ---- The fields of every document are encodable ----

  predicate Plain(v: C.Value) {
    v.Str? || v.Blob? || (v.Int? && -TWO_63 <= v.n < TWO_63) || (v.Uint? && v.u < TWO_64)
  }

  predicate PlainOrList(v: C.Value) {
    Plain(v) || (v.List? && forall i :: 0 <= i < |v.items| ==> Plain(v.items[i]))
  }

  lemma PlainEncodable(v: C.Value)
    requires PlainOrList(v)
    ensures C.Encodable(v) && C.Sized(v)
  {
    if v.List? {
      forall i | 0 <= i < |v.items| ensures C.Encodable(v.items[i]) && C.Sized(v.items[i]) {
        assert Plain(v.items[i]);
      }
    }
  }

  predicate AllPlain(fields: seq<C.Field>) {
    forall i :: 0 <= i < |fields| ==> PlainOrList(fields[i].value)
  }

  predicate IsTransaction(d: Document) {
    d.ValueDoc? || d.IssueDoc? || d.TransferDoc? || d.TradeDoc?
  }

  lemma TransactionFieldsPlain(d: Document)
    requires IsTransaction(d)
    ensures AllPlain(Fields(d)) && |Fields(d)| >= 3
  {}

  lemma OtherFieldsPlain(d: Document)
    requires !IsTransaction(d)
    ensures AllPlain(Fields(d)) && |Fields(d)| >= 3
  {}

  lemma FieldsPlain(d: Document)
    ensures AllPlain(Fields(d)) && |Fields(d)| >= 3
  {
    if IsTransaction(d) { TransactionFieldsPlain(d); } else { OtherFieldsPlain(d); }
  }

  lemma PreimageFields(a: seq<C.Field>, b: seq<C.Field>)
    requires AllPlain(a) && AllPlain(b) && C.EncFields(a) == C.EncFields(b)
    ensures a == b
  {
    forall i | 0 <= i < |a| ensures C.Encodable(a[i].value) && C.Sized(a[i].value) { PlainEncodable(a[i].value); }
    forall i | 0 <= i < |b| ensures C.Encodable(b[i].value) && C.Sized(b[i].value) { PlainEncodable(b[i].value); }
    C.FieldsInjective(a, b);
  }

  /** No error path is left for a document: its encoding always exists. */
  lemma DocumentsEncode(d: Document)
    ensures C.FieldsEncodable(Fields(d)) && C.FieldsSized(Fields(d))
  {
    FieldsPlain(d);
    var f := Fields(d);
    forall i | 0 <= i < |f| ensures C.Encodable(f[i].value) && C.Sized(f[i].value) { PlainEncodable(f[i].value); }
  }

  // ---- Values ----

  lemma ValueInjective(a: Value, b: Value)
    ensures ValuePreimage(a) == ValuePreimage(b) <==> Bare(a) == Bare(b)
  {
    var f, g := ValueFields(a), ValueFields(b);
    if ValuePreimage(a) == ValuePreimage(b) {
      FieldsPlain(ValueDoc(a));
      FieldsPlain(ValueDoc(b));
      PreimageFields(f, g);
      assert f[1] == g[1] && f[2] == g[2] && f[3] == g[3] && f[4] == g[4] && f[5] == g[5] && f[6] == g[6] && f[7] == g[7];
    }
    if Bare(a) == Bare(b) {
      assert f == g;
    }
  }

  lemma BlobsInjective(a: seq<Bytes>, b: seq<Bytes>)
    requires Blobs(a) == Blobs(b)
    ensures a == b
  {
    assert |a| == |Blobs(a)| == |b|;
    forall i | 0 <= i < |a| ensures a[i] == b[i] { assert Blobs(a)[i] == Blobs(b)[i]; }
  }

  lemma ValuesInjective(a: seq<Value>, b: seq<Value>)
    ensures Blobs(ValuePreimages(a)) == Blobs(ValuePreimages(b)) <==> BareAll(a) == BareAll(b)
  {
    if Blobs(ValuePreimages(a)) == Blobs(ValuePreimages(b)) {
      BlobsInjective(ValuePreimages(a), ValuePreimages(b));
      assert |a| == |ValuePreimages(a)| == |b|;
      forall i | 0 <= i < |a| ensures BareAll(a)[i] == BareAll(b)[i] {
        assert ValuePreimages(a)[i] == ValuePreimages(b)[i];
        ValueInjective(a[i], b[i]);
      }
    }
    if BareAll(a) == BareAll(b) {
      assert |a| == |BareAll(a)| == |b|;
      forall i | 0 <= i < |a| ensures ValuePreimages(a)[i] == ValuePreimages(b)[i] {
        assert BareAll(a)[i] == BareAll(b)[i];
        ValueInjective(a[i], b[i]);
      }
      assert ValuePreimages(a) == ValuePreimages(b);
    }
  }

  lemma DigestListInjective(a: seq<Digest>, b: seq<Digest>)
    requires Blobs(DigestList(a)) == Blobs(DigestList(b))
    ensures a == b
  {
    BlobsInjective(DigestList(a), DigestList(b));
    assert |a| == |DigestList(a)| == |b|;
    forall i | 0 <= i < |a| ensures a[i] == b[i] { assert DigestList(a)[i] == DigestList(b)[i]; }
  }

  // ---- Each kind of document ----

  lemma TradeInjective(a: TradeTx, b: TradeTx)
    ensures TradeTxID(a) == TradeTxID(b) <==> BareTrade(a) == BareTrade(b)
  {
    var f, g := TradeFields(a), TradeFields(b);
    ValuesInjective(a.inputsA, b.inputsA);
    ValuesInjective(a.inputsB, b.inputsB);
    ValuesInjective(a.outputsA, b.outputsA);
    ValuesInjective(a.outputsB, b.outputsB);
    if TradeTxID(a) == TradeTxID(b) {
      FieldsPlain(TradeDoc(a));
      FieldsPlain(TradeDoc(b));
      PreimageFields(f, g);
      assert f[1] == g[1] && f[2] == g[2] && f[3] == g[3] && f[4] == g[4] && f[5] == g[5] && f[6] == g[6] && f[7] == g[7];
    }
    if BareTrade(a) == BareTrade(b) {
      assert f == g;
    }
  }

  lemma TransferInjective(a: TransferTx, b: TransferTx)
    ensures TransferPreimage(a) == TransferPreimage(b) <==> BareTransfer(a) == BareTransfer(b)
  {
    var f, g := TransferFields(a), TransferFields(b);
    ValuesInjective(a.outputs, b.outputs);
    if TransferPreimage(a) == TransferPreimage(b) {
      FieldsPlain(TransferDoc(a));
      FieldsPlain(TransferDoc(b));
      PreimageFields(f, g);
      assert f[1] == g[1] && f[2] == g[2] && f[3] == g[3];
      DigestListInjective(a.inputs, b.inputs);
    }
    if BareTransfer(a) == BareTransfer(b) {
      assert f == g;
    }
  }

  lemma IssueInjective(a: IssueTx, b: IssueTx)
    ensures IssueTxID(a) == IssueTxID(b) <==> BareIssue(a) == BareIssue(b)
  {
    var f, g := IssueFields(a), IssueFields(b);
    ValuesInjective(a.outputs, b.outputs);
    if IssueTxID(a) == IssueTxID(b) {
      FieldsPlain(IssueDoc(a));
      FieldsPlain(IssueDoc(b));
      PreimageFields(f, g);
      assert f[1] == g[1] && f[2] == g[2] && f[3] == g[3] && f[4] == g[4];
      assert f[5] == g[5] && f[6] == g[6] && f[7] == g[7] && f[8] == g[8];
    }
    if BareIssue(a) == BareIssue(b) {
      assert f == g;
    }
  }

  lemma IntentInjective(a: TradeIntent, b: TradeIntent)
    ensures IntentPreimage(a) == IntentPreimage(b) <==> a == b
  {
    var f, g := IntentFields(a), IntentFields(b);
    if IntentPreimage(a) == IntentPreimage(b) {
      FieldsPlain(IntentDoc(a));
      FieldsPlain(IntentDoc(b));
      PreimageFields(f, g);
      assert f[1] == g[1] && f[2] == g[2] && f[3] == g[3] && f[4] == g[4];
      assert f[5] == g[5] && f[6] == g[6] && f[7] == g[7] && f[8] == g[8];
    }
  }

  lemma QuoteInjective(a: QuoteResponse, b: QuoteResponse)
    ensures QuoteIDFor(a) == QuoteIDFor(b) <==> a.(quoteId := ZERO_TX_ID) == b.(quoteId := ZERO_TX_ID)
  {
    var f, g := QuoteFields(a), QuoteFields(b);
    if QuoteIDFor(a) == QuoteIDFor(b) {
      FieldsPlain(QuoteDoc(a));
      FieldsPlain(QuoteDoc(b));
      PreimageFields(f, g);
      assert f[1] == g[1] && f[2] == g[2] && f[3] == g[3] && f[4] == g[4] && f[5] == g[5] && f[6] == g[6];
      assert f[7] == g[7] && f[8] == g[8] && f[9] == g[9] && f[10] == g[10] && f[11] == g[11] && f[12] == g[12];
      assert |BoolText(true)| == 4 && |BoolText(false)| == 5;
    }
    if a.(quoteId := ZERO_TX_ID) == b.(quoteId := ZERO_TX_ID) {
      assert f == g;
    }
  }

  /** The identifier of an authorized trade fixes the trade, both intents, both keys and both signatures. */
  lemma AuthorizedInjective(a: AuthorizedTrade, b: AuthorizedTrade)
    ensures AuthorizedTradeID(a) == AuthorizedTradeID(b)
       <==> a.(tx := BareTrade(a.tx)) == b.(tx := BareTrade(b.tx))
  {
    var f, g := AuthorizedFields(a), AuthorizedFields(b);
    TradeInjective(a.tx, b.tx);
    IntentInjective(a.sellerAuth.intent, b.sellerAuth.intent);
    IntentInjective(a.buyerAuth.intent, b.buyerAuth.intent);
    if AuthorizedTradeID(a) == AuthorizedTradeID(b) {
      FieldsPlain(AuthorizedDoc(a));
      FieldsPlain(AuthorizedDoc(b));
      PreimageFields(f, g);
      assert f[1] == g[1] && f[2] == g[2] && f[3] == g[3] && f[4] == g[4] && f[5] == g[5] && f[6] == g[6] && f[7] == g[7];
      SignatureBytesInjective(a.sellerAuth.signature, b.sellerAuth.signature);
      SignatureBytesInjective(a.buyerAuth.signature, b.buyerAuth.signature);
    }
    if a.(tx := BareTrade(a.tx)) == b.(tx := BareTrade(b.tx)) {
      assert f == g;
    }
  }

  lemma UnitsInjective(d: Document, e: Document)
    requires d.UnitDoc? || d.MetadataUnitDoc?
    requires e.UnitDoc? || e.MetadataUnitDoc?
    ensures Preimage(d) == Preimage(e) <==> d == e
  {
    if Preimage(d) == Preimage(e) {
      FieldsPlain(d);
      FieldsPlain(e);
      PreimageFields(Fields(d), Fields(e));
      assert Fields(d)[1] == Fields(e)[1] && Fields(d)[2] == Fields(e)[2];
    }
  }

  // ---- All kinds together ----

  function KindName(d: Document): string {
    match d
    case ValueDoc(_) => "value"
    case IssueDoc(_) => "issue_tx"
    case TransferDoc(_) => "transfer_tx"
    case TradeDoc(_) => "trade_tx"
    case IntentDoc(_) => "trade_intent"
    case AuthorizedDoc(_) => "authorized_trade_tx"
    case QuoteDoc(_) => "quote_response"
    case UnitDoc(_, _) => "unit"
    case MetadataUnitDoc(_, _) => "unit"
  }

  lemma BareKeepsKind(d: Document)
    ensures KindName(BareDocument(d)) == KindName(d)
  {}

  lemma KindFirst(d: Document)
    ensures |Fields(d)| > 0 && Fields(d)[0] == TextField("kind", Text(KindName(d)))
  {}

  lemma KindNamesDiffer(d: Document, e: Document)
    requires Text(KindName(d)) == Text(KindName(e))
    ensures KindName(d) == KindName(e)
  {
    assert |KindName(d)| == |Text(KindName(d))| == |KindName(e)|;
    assert Text(KindName(d))[0] == KindName(d)[0] as int % 256;
    assert Text(KindName(e))[0] == KindName(e)[0] as int % 256;
  }

  /** Documents of different kinds never share a preimage. */
  lemma KindsNeverCoincide(d: Document, e: Document)
    requires KindName(d) != KindName(e)
    ensures Preimage(d) != Preimage(e)
  {
    if Preimage(d) == Preimage(e) {
      FieldsPlain(d);
      FieldsPlain(e);
      PreimageFields(Fields(d), Fields(e));
      KindFirst(d);
      KindFirst(e);
      KindNamesDiffer(d, e);
    }
  }

  /** Within one kind, fields and preimages say the same as the lemma of that kind. */
  lemma SameValue(a: Value, b: Value)
    ensures Preimage(ValueDoc(a)) == Preimage(ValueDoc(b))
       <==> BareDocument(ValueDoc(a)) == BareDocument(ValueDoc(b))
  {
    hide ValueFields;
    ValueInjective(a, b);
  }

  lemma SameIssue(a: IssueTx, b: IssueTx)
    ensures Preimage(IssueDoc(a)) == Preimage(IssueDoc(b))
       <==> BareDocument(IssueDoc(a)) == BareDocument(IssueDoc(b))
  {
    hide IssueFields;
    IssueInjective(a, b);
  }

  lemma SameTransfer(a: TransferTx, b: TransferTx)
    ensures Preimage(TransferDoc(a)) == Preimage(TransferDoc(b))
       <==> BareDocument(TransferDoc(a)) == BareDocument(TransferDoc(b))
  {
    hide TransferFields;
    TransferInjective(a, b);
  }

  lemma SameTrade(a: TradeTx, b: TradeTx)
    ensures Preimage(TradeDoc(a)) == Preimage(TradeDoc(b))
       <==> BareDocument(TradeDoc(a)) == BareDocument(TradeDoc(b))
  {
    hide TradeFields;
    TradeInjective(a, b);
  }

  lemma SameIntent(a: TradeIntent, b: TradeIntent)
    ensures Preimage(IntentDoc(a)) == Preimage(IntentDoc(b))
       <==> BareDocument(IntentDoc(a)) == BareDocument(IntentDoc(b))
  {
    hide IntentFields;
    IntentInjective(a, b);
  }

  lemma SameAuthorized(a: AuthorizedTrade, b: AuthorizedTrade)
    ensures Preimage(AuthorizedDoc(a)) == Preimage(AuthorizedDoc(b))
       <==> BareDocument(AuthorizedDoc(a)) == BareDocument(AuthorizedDoc(b))
  {
    hide AuthorizedFields;
    AuthorizedInjective(a, b);
  }

  lemma SameQuote(a: QuoteResponse, b: QuoteResponse)
    ensures Preimage(QuoteDoc(a)) == Preimage(QuoteDoc(b))
       <==> BareDocument(QuoteDoc(a)) == BareDocument(QuoteDoc(b))
  {
    hide QuoteFields;
    QuoteInjective(a, b);
  }

  lemma SameKind(d: Document, e: Document)
    requires KindName(d) == KindName(e)
    ensures Preimage(d) == Preimage(e) <==> BareDocument(d) == BareDocument(e)
  {
    if !d.UnitDoc? && !d.MetadataUnitDoc? { SameNamed(d, e); } else { UnitsInjective(d, e); }
  }

  lemma SameNamed(d: Document, e: Document)
    requires KindName(d) == KindName(e) && !d.UnitDoc? && !d.MetadataUnitDoc?
    ensures Preimage(d) == Preimage(e) <==> BareDocument(d) == BareDocument(e)
  {
    hide Preimage, BareDocument;
    match d
    case ValueDoc(_) => SameValue(d.value, e.value);
    case IssueDoc(_) => SameIssue(d.issue, e.issue);
    case TransferDoc(_) => SameTransfer(d.transfer, e.transfer);
    case TradeDoc(_) => SameTrade(d.trade, e.trade);
    case IntentDoc(_) => SameIntent(d.intent, e.intent);
    case AuthorizedDoc(_) => SameAuthorized(d.auth, e.auth);
    case QuoteDoc(_) => SameQuote(d.quote, e.quote);
  }

  /** A preimage determines its document up to identifier and signature, across all kinds. */
  lemma PreimageDetermines(d: Document, e: Document)
    ensures Preimage(d) == Preimage(e) <==> BareDocument(d) == BareDocument(e)
  {
    if KindName(d) == KindName(e) {
      SameKind(d, e);
    } else {
      KindsNeverCoincide(d, e);
      BareKeepsKind(d);
      BareKeepsKind(e);
    }
  }
}
