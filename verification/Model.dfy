/** The entities of core/model and core/node, and the preimages their identifiers and signatures cover. */
module Model {
  import opened Base
  import C = Canonical

  type Amount = int64

  datatype Value = Value(
    id: ValueID,
    unit: UnitID,
    amount: Amount,
    owner: NodeID,
    createdAt: int64,
    issuer: NodeID,
    expiryUnix: int64,
    depth: uint32)

  /** A signature is known by who made it and over what; variant leaves room for several signatures
      of one message that all verify. NoSig is the absent signature. */
  datatype Signature = NoSig | Sig(signer: NodeID, msg: Bytes, variant: nat)

  datatype IssueTx = IssueTx(
    id: TxID,
    unit: UnitID,
    outputs: seq<Value>,
    issuer: NodeID,
    timestamp: int64,
    unitName: Bytes,
    amount: Amount,
    owner: NodeID,
    expiryUnix: int64,
    signature: Signature)

  datatype TradeTx = TradeTx(
    id: TxID,
    inputsA: seq<Value>,
    inputsB: seq<Value>,
    outputsA: seq<Value>,
    outputsB: seq<Value>,
    partyA: NodeID,
    partyB: NodeID,
    timestamp: int64)

  datatype TransferTx = TransferTx(
    id: TxID,
    inputs: seq<ValueID>,
    outputs: seq<Value>,
    author: NodeID,
    signature: Signature)

  datatype TradeIntent = TradeIntent(
    party: NodeID,
    seller: NodeID,
    buyer: NodeID,
    sellUnit: UnitID,
    buyUnit: UnitID,
    sellAmount: Amount,
    buyAmount: Amount,
    timestamp: int64)

  datatype SignedIntent = SignedIntent(intent: TradeIntent, publicKey: Bytes, signature: Signature)

  datatype AuthorizedTrade = AuthorizedTrade(tx: TradeTx, sellerAuth: SignedIntent, buyerAuth: SignedIntent)

  /** A quote as a node holds it. */
  datatype Quote = Quote(
    seller: NodeID,
    buyer: NodeID,
    sellUnit: UnitID,
    buyUnit: UnitID,
    sellAmount: Amount,
    buyAmount: Amount,
    executable: bool,
    timestamp: int64)

  /** A quote as it travels between peers. A price is the text it is printed as. */
  datatype QuoteResponse = QuoteResponse(
    requestId: TxID,
    quoteId: TxID,
    seller: NodeID,
    buyer: NodeID,
    sellUnit: UnitID,
    buyUnit: UnitID,
    sellAmount: Amount,
    buyAmount: Amount,
    sellerAsk: Bytes,
    buyerBid: Bytes,
    executable: bool,
    reason: Bytes,
    expiryUnix: int64)

  // ---- Signatures ----

  /** A private key is known by the public key that belongs to it. Signing is deterministic. */
  function Sign(key: NodeID, msg: Bytes): Signature {
    Sig(key, msg, 0)
  }

  predicate Verify(publicKey: Bytes, msg: Bytes, sig: Signature) {
    sig.Sig? && sig.signer == publicKey && sig.msg == msg
  }

  function SignatureBytes(sig: Signature): Bytes {
    match sig
    case NoSig => []
    case Sig(signer, msg, variant) => C.Uvarint(variant) + (signer + msg)
  }

  lemma SignatureBytesInjective(a: Signature, b: Signature)
    requires SignatureBytes(a) == SignatureBytes(b)
    ensures a == b
  {
    if a.Sig? {
      C.UvarintRoundTrip(a.variant, a.signer + a.msg);
      assert (a.signer + a.msg)[..32] == a.signer && (a.signer + a.msg)[32..] == a.msg;
    }
    if b.Sig? {
      C.UvarintRoundTrip(b.variant, b.signer + b.msg);
      assert (b.signer + b.msg)[..32] == b.signer && (b.signer + b.msg)[32..] == b.msg;
    }
  }

  // ---- Fields ----

  function Text(s: string): Bytes {
    seq(|s|, i requires 0 <= i < |s| => s[i] as int % 256)
  }

  function TextField(name: string, s: Bytes): C.Field {
    C.Field(Text(name), C.Str(s))
  }

  function BytesField(name: string, b: Bytes): C.Field {
    C.Field(Text(name), C.Blob(b))
  }

  function IntField(name: string, n: int64): C.Field {
    C.Field(Text(name), C.Int(n))
  }

  function UintField(name: string, n: uint32): C.Field {
    C.Field(Text(name), C.Uint(n))
  }

  function ListField(name: string, parts: seq<Bytes>): C.Field {
    C.Field(Text(name), C.List(Blobs(parts)))
  }

  function Blobs(parts: seq<Bytes>): (r: seq<C.Value>)
    ensures |r| == |parts|
  {
    seq(|parts|, i requires 0 <= i < |parts| => C.Blob(parts[i]))
  }

  function ValueFields(v: Value): seq<C.Field> {
    [ TextField("kind", Text("value")),
      IntField("amount", v.amount),
      BytesField("unit", DigestBytes(v.unit)),
      BytesField("owner", v.owner),
      IntField("created_at", v.createdAt),
      BytesField("issuer", v.issuer),
      IntField("expiry_unix", v.expiryUnix),
      UintField("depth", v.depth) ]
  }

  function ValuePreimage(v: Value): Bytes {
    C.EncFields(ValueFields(v))
  }

  function ValuePreimages(vs: seq<Value>): (r: seq<Bytes>)
    ensures |r| == |vs|
  {
    seq(|vs|, i requires 0 <= i < |vs| => ValuePreimage(vs[i]))
  }

  function DigestList(ids: seq<Digest>): (r: seq<Bytes>)
    ensures |r| == |ids|
  {
    seq(|ids|, i requires 0 <= i < |ids| => DigestBytes(ids[i]))
  }

  function UnitFields(issuer: Bytes, unitName: Bytes): seq<C.Field> {
    [ TextField("kind", Text("unit")), BytesField("issuer", issuer), TextField("unit_name", unitName) ]
  }

  function MetadataUnitFields(issuer: NodeID, metadata: Bytes): seq<C.Field> {
    [ TextField("kind", Text("unit")), BytesField("issuer", issuer), BytesField("metadata", metadata) ]
  }

  function IssueFields(tx: IssueTx): seq<C.Field> {
    [ TextField("kind", Text("issue_tx")),
      TextField("unit_name", tx.unitName),
      BytesField("unit", DigestBytes(tx.unit)),
      IntField("amount", tx.amount),
      ListField("outputs", ValuePreimages(tx.outputs)),
      BytesField("issuer", tx.issuer),
      BytesField("owner", tx.owner),
      IntField("expiry_unix", tx.expiryUnix),
      IntField("timestamp", tx.timestamp) ]
  }

  function TransferFields(tx: TransferTx): seq<C.Field> {
    [ TextField("kind", Text("transfer_tx")),
      ListField("inputs", DigestList(tx.inputs)),
      ListField("outputs", ValuePreimages(tx.outputs)),
      BytesField("author", tx.author) ]
  }

  function TradeFields(tx: TradeTx): seq<C.Field> {
    [ TextField("kind", Text("trade_tx")),
      ListField("inputs_a", ValuePreimages(tx.inputsA)),
      ListField("inputs_b", ValuePreimages(tx.inputsB)),
      ListField("outputs_a", ValuePreimages(tx.outputsA)),
      ListField("outputs_b", ValuePreimages(tx.outputsB)),
      BytesField("party_a", tx.partyA),
      BytesField("party_b", tx.partyB),
      IntField("timestamp", tx.timestamp) ]
  }

  function IntentFields(intent: TradeIntent): seq<C.Field> {
    [ TextField("kind", Text("trade_intent")),
      BytesField("party", intent.party),
      BytesField("seller", intent.seller),
      BytesField("buyer", intent.buyer),
      BytesField("sell_unit", DigestBytes(intent.sellUnit)),
      BytesField("buy_unit", DigestBytes(intent.buyUnit)),
      IntField("sell_amount", intent.sellAmount),
      IntField("buy_amount", intent.buyAmount),
      IntField("timestamp", intent.timestamp) ]
  }

  function AuthorizedFields(auth: AuthorizedTrade): seq<C.Field> {
    [ TextField("kind", Text("authorized_trade_tx")),
      BytesField("tx_id", DigestBytes(TradeTxID(auth.tx))),
      BytesField("seller_intent_id", DigestBytes(TradeIntentID(auth.sellerAuth.intent))),
      BytesField("buyer_intent_id", DigestBytes(TradeIntentID(auth.buyerAuth.intent))),
      BytesField("seller_public_key", auth.sellerAuth.publicKey),
      BytesField("buyer_public_key", auth.buyerAuth.publicKey),
      BytesField("seller_signature", SignatureBytes(auth.sellerAuth.signature)),
      BytesField("buyer_signature", SignatureBytes(auth.buyerAuth.signature)) ]
  }

  function BoolText(b: bool): Bytes {
    if b then Text("true") else Text("false")
  }

  function QuoteFields(q: QuoteResponse): seq<C.Field> {
    [ TextField("kind", Text("quote_response")),
      BytesField("request_id", DigestBytes(q.requestId)),
      BytesField("seller", q.seller),
      BytesField("buyer", q.buyer),
      BytesField("sell_unit", DigestBytes(q.sellUnit)),
      BytesField("buy_unit", DigestBytes(q.buyUnit)),
      IntField("sell_amount", q.sellAmount),
      IntField("buy_amount", q.buyAmount),
      TextField("seller_ask", q.sellerAsk),
      TextField("buyer_bid", q.buyerBid),
      TextField("executable", BoolText(q.executable)),
      TextField("reason", q.reason),
      IntField("expiry_unix", q.expiryUnix) ]
  }

  // ---- Identifiers ----

  function ValueIDFor(v: Value): ValueID {
    HashBytes(ValuePreimage(v))
  }

  function IssueTxID(tx: IssueTx): TxID {
    HashBytes(C.EncFields(IssueFields(tx)))
  }

  function TransferPreimage(tx: TransferTx): Bytes {
    C.EncFields(TransferFields(tx))
  }

  function TransferTxID(tx: TransferTx): TxID {
    HashBytes(TransferPreimage(tx))
  }

  function TradeTxID(tx: TradeTx): TxID {
    HashBytes(C.EncFields(TradeFields(tx)))
  }

  function IntentPreimage(intent: TradeIntent): Bytes {
    C.EncFields(IntentFields(intent))
  }

  function TradeIntentID(intent: TradeIntent): TxID {
    HashBytes(IntentPreimage(intent))
  }

  function AuthorizedTradeID(auth: AuthorizedTrade): TxID {
    HashBytes(C.EncFields(AuthorizedFields(auth)))
  }

  function QuoteIDFor(q: QuoteResponse): TxID {
    HashBytes(C.EncFields(QuoteFields(q)))
  }

  // ---- Intents ----

  function IntentFromQuote(q: Quote, party: NodeID): TradeIntent {
    TradeIntent(party, q.seller, q.buyer, q.sellUnit, q.buyUnit, q.sellAmount, q.buyAmount, q.timestamp)
  }

  /** The signed intent of a party, for a quote with a positive timestamp. */
  function SignTradeIntent(key: NodeID, intent: TradeIntent): SignedIntent {
    SignedIntent(intent, key, Sign(key, IntentPreimage(intent)))
  }

  predicate VerifyTradeIntent(s: SignedIntent) {
    s.intent.timestamp > 0 && s.publicKey == s.intent.party && Verify(s.publicKey, IntentPreimage(s.intent), s.signature)
  }

  // ---- The transaction a quote stands for ----

  function TradeValue(unit: UnitID, amount: Amount, owner: NodeID, createdAt: int64): Value {
    var v := Value(ZERO_TX_ID, unit, amount, owner, createdAt, ZERO_NODE_ID, 0, 0);
    v.(id := ValueIDFor(v))
  }

  /** Timestamps count up by wrap-around addition. */
  function BuildTradeTx(q: Quote, now: int64): TradeTx {
    var tx := TradeTx(
      ZERO_TX_ID,
      [TradeValue(q.sellUnit, q.sellAmount, q.seller, now)],
      [TradeValue(q.buyUnit, q.buyAmount, q.buyer, Wrap64(now + 1))],
      [TradeValue(q.buyUnit, q.buyAmount, q.seller, Wrap64(now + 2))],
      [TradeValue(q.sellUnit, q.sellAmount, q.buyer, Wrap64(now + 3))],
      q.seller, q.buyer, now);
    tx.(id := TradeTxID(tx))
  }

  function Authorize(q: Quote, now: int64, sellerSig: SignedIntent, buyerSig: SignedIntent): AuthorizedTrade {
    AuthorizedTrade(BuildTradeTx(q, now), sellerSig, buyerSig)
  }
}
