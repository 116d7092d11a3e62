# Web4 in Dafny

Web4 is a bilateral trading system. Two nodes negotiate a quote, sign intents, execute the trade on both
sides at once and persist the result in a crash-safe file store. This project models its five connected
components and proves what they promise of every run.

**The JSON store** (`Files`, `Persist`, `PersistSafety`, `PersistRuns`, `PersistEvidence`, `CleanRuns`, `Recovery`,
`RecoveryVerdicts`, `CrashRuns`, `CrashEvidence`, `Interleaving`, `LateCalls`, `JSONStores`, `StateFiles`).
The disk is a map from paths to contents. `Persist.Step` is one file operation of one `PersistExecutedTrade`
call, answered with success or an I/O error; `JSONStores.JSONStore` performs the same operations imperatively and is proved to follow that
machine step by step; `StateFiles` says what its documents hold and when they agree with a node. Two fault
models are kept apart. In the first the process may crash between any two operations, including inside
recovery, and operations do not fail. In the second one operation fails, the process does not crash, and
undoing succeeds. Rename and exclusive create are atomic and durable in order.

**Canonical encoding** (`Canonical`, `CanonicalBytes`, `Encoders`, `Model`, `Preimages`). A value is a tree; its
encoding is a function on trees; the encoder that appends to one buffer is proved to produce it; a decoder shows
that nothing is lost, and the bytes themselves are stated. Preimages of nine kinds of document are built on it.

**Transactions** (`Inventory`, `Trades`, `Transfers`, `NewTransfers`, `Policies`). Validators are methods
with the loops of the original, proved against predicates that say what a valid transaction is rather than
how it is checked.

**Signed execution** (`NodeStates`, `NodeLaws`, `NodeRuns`, `BuiltTrades`, `Nodes`, `Locks`). `Execute` says
what an execution does to the two nodes; the classes of `Nodes` implement it with copies, reservation,
persist call and commit, with the file-level store as the store of a node; `NodeRuns` covers any sequence of
trades among any number of nodes and stores.

**The session** (`SessionStates`, `SessionLaws`, `SessionRuns`, `SessionVerdicts`, `ServerRuns`,
`AgreedTrades`, `Negotiations`, `Answerings`, `Sessions`, `Handlers`). Nine message
types change five maps in any order. `Handle` is the effect of one message, `SessionVerdicts` says condition by
condition what that is; the classes implement it; the invariant and the execution theorems hold over every
sequence of messages, local requests, prunings and changes made elsewhere, and over every server whose
connections share one node.

Cryptography is symbolic: a digest is known by the bytes it was computed from, a signature by its signer
and message, a node identifier is the public key. Several different signatures of one message may verify;
the one that signing produces is fixed. Amounts, times and depths have the original's widths, and sums that
can leave them are checked or wrap as the original's do.

## Results where the code needs a condition

* A call that tested for replay evidence before another call for the same trade finished can still reserve
  afterwards. It fails, but it leaves its own documents on disk unless a commit record stops it first
  (`Interleaving.LateCallOverwrites`), and any two calls have such an interleaving (`LateCalls.LateCallHappens`).
  However many calls there are, without I/O errors the documents of exactly the first two to reserve stay: the
  second leaves a commit record that stops the others (`LateCalls.FirstTwoStay`).
  Executing nodes exclude this with their process-wide mutex.
* A persist call whose executed marker cannot be created fails with the new files in place, and the executing
  nodes go back to their old books. With at most one I/O error this is the only failure after which disk and
  nodes disagree (`Nodes.ExecuteSignedTrade`, `PersistEvidence.FailureMeans`). It leaves a commit record without
  a manifest, so the store does not open again (`CrashEvidence.RefusedMarkerCloses`).
* A crash after the reservation and before the applying manifest recovers to the old targets, but the
  reservation stays: the trade counts as executed and never can be (`CrashEvidence.EarlyCrashBlocks`,
  `CrashEvidence.BlockedForever`).
* Giving the whole of a holding away leaves a stored zero, and combining inventories panics on it. Seller and
  buyer keep only positive holdings exactly when something is left of the unit each gave, or both units are the
  same (`NodeLaws.GivenAwayLeavesZero`); with a zero every execution the node is permitted to take part in
  aborts (`NodeLaws.ZeroAborts`).
* A node reopened from its store has flow but no history and no settled volume, so once a trade was recorded its
  settled volume and trade flow disagree (`NodeLaws.ReopenedLedger`); what they grow by in any run still agrees
  (`NodeRuns.RunGrowsTogether`).
* A pending quote is fresh until its timestamp and the node refuses to execute before it. With one clock
  reading per message a negotiated trade can execute at that one second only
  (`SessionRuns.ExecutesAtTheTimestamp`).
* The peer's shadow is given ten times what the peer pays, where that fits. When a unit is traded against
  itself the shadow may then have no room for what it receives, and a negotiated trade fails for that reason
  alone (`AgreedTrades.AgreedTradeRuns`).
* The search for the quote of an authorized trade compares terms only and stops at the first match. Whatever it
  settles on, a trade both parties signed executes exactly when it was negotiated under that very quote
  (`Negotiations.TradeDecided`) and node and surroundings allow it. So where they do, every search executes it
  if and only if every pending quote on the same terms is fresh and executable and has both intents
  (`Negotiations.EverySearchWhen`, `Negotiations.NegotiationExecutes`); a peer that answers one request twice and signs once leaves a quote that
  may stop it (`Negotiations.TwinArises`).
* A crash while targets are being replaced is not repaired: recovery reports it and the store does not open
  (`CrashRuns.ApplyingCrashStops`).

## Model

| member | source | states |
|---|---|---|
| Canonical.UvarintRoundTrip | core/canonical/encode.go:168-171 | Reading a varint back gives the number and exactly the bytes after it, for every natural number. |
| Canonical.UvarintFits | core/canonical/encode.go:168-171 | A 64-bit number takes between one and ten bytes, so the scratch buffer never overflows. |
| Canonical.ZigZagRoundTrip | core/canonical/encode.go:120-123 | Zigzag maps every 64-bit integer into the unsigned 64-bit numbers and can be undone. |
| Canonical.UnZigZagRoundTrip | core/canonical/encode.go:120-123 | Every unsigned 64-bit number is the zigzag of a 64-bit integer: the map is a bijection. |
| Canonical.SortSorts | core/canonical/encode.go:148-152 | Sorting distinct keys gives the same keys in strictly rising order. |
| Canonical.SortedUnique | core/canonical/encode.go:148-152 | Two strictly rising listings of the same keys are equal. |
| Canonical.IterationOrderForgotten | core/canonical/encode.go:148-163 | Whatever order a map is iterated in, its keys are encoded in the same order. |
| Canonical.RoundTrip | core/canonical/encode.go:45-166 | The decoder recovers any encodable nested value and exactly the bytes after its encoding. |
| Canonical.PrefixFree | core/canonical/encode.go:45-166 | If two encodings followed by anything agree, the values and what follows are equal. |
| Canonical.FieldsRoundTrip | core/canonical/encode.go:29-43 | The decoder recovers a sequence of fields, names, order and values, and the bytes after it. |
| Canonical.FieldsInjective | core/canonical/encode.go:29-43 | Equal preimages come from equal sequences of fields. |
| CanonicalBytes.UvarintBytes | core/canonical/encode.go:168-171 | A varint is the groups of seven bits, lowest first, with the high bit set on all but the last, and no longer than needed. |
| CanonicalBytes.ScalarBytes | core/canonical/encode.go:108-128 | The tag bytes of strings, bytes and the two kinds of integers, and what follows each: length and bytes, 2n or -2n-1, the number. |
| CanonicalBytes.LessFirstByte | core/canonical/encode.go:148-152 | Keys are ordered by the first byte in which they differ, a proper prefix first. |
| CanonicalBytes.ListBytes | core/canonical/encode.go:130-141 | A list is its tag byte, its length and its elements in order. |
| CanonicalBytes.MapBytes | core/canonical/encode.go:143-166 | A map is its tag byte, its size and, in rising order of keys, each key as a string and its value. |
| CanonicalBytes.FieldBytes | core/canonical/encode.go:29-43 | A preimage is its tag byte, the number of fields and, in order, each name as a string and each value. |
| Encoders.PutUvarint | core/canonical/encode.go:168-171 | The loop over seven-bit groups fills the scratch array with the varint of the number. |
| Encoders.Buffer.EncodeInt | core/canonical/encode.go:120-123 | Appends the tag and the zigzag varint of the integer, nothing else. |
| Encoders.Buffer.EncodeList | core/canonical/encode.go:130-141 | Succeeds exactly when every element is encodable, and then has appended the list's encoding. |
| Encoders.Buffer.EncodeMap | core/canonical/encode.go:143-166 | Succeeds exactly when every entry is encodable, and then has appended the map's encoding, whatever the iteration order. |
| Encoders.Buffer.EncodeValue | core/canonical/encode.go:45-106 | Succeeds exactly on encodable values, and then has appended the value's encoding. |
| Encoders.SortedMapKeys | core/canonical/encode.go:148-152 | Keys collected in any order and sorted are the one sorted listing of the map's keys. |
| Encoders.EncodeFields | core/canonical/encode.go:29-43 | Returns the encoding of the fields, or an error exactly when one of them is not encodable. |
| Preimages.DocumentsEncode | core/model/ids.go:66-165 | Every document can be encoded: the error paths of the preimage functions are never taken. |
| Preimages.ValueInjective | core/model/ids.go:89-100 | Two values have the same preimage exactly when they differ at most in their identifier. |
| Preimages.TransferInjective | core/model/ids.go:102-123 | A transfer preimage determines everything but identifiers and the signature. |
| Preimages.TradeInjective | core/model/ids.go:125-153 | A trade identifier determines everything but the identifiers inside the trade. |
| Preimages.IssueInjective | core/model/ids.go:66-87 | An issue identifier determines everything but identifiers and the signature. |
| Preimages.IntentInjective | core/node/intent.go:164-176 | An intent preimage determines the intent. |
| Preimages.QuoteInjective | core/handler/state.go:69-89 | A quote identifier determines every term of the quote response. |
| Preimages.AuthorizedInjective | core/node/intent.go:135-162 | An authorized trade identifier determines the trade, both intents, both keys and both signatures. |
| Preimages.UnitsInjective | core/model/ids.go:13-24 | Unit preimages by name and by metadata, which share a kind, never coincide, and each determines its arguments. |
| Preimages.KindsNeverCoincide | core/model/ids.go:66-153 | Preimages built with different kinds are different. |
| Preimages.PreimageDetermines | core/model/ids.go:66-153 | Across all nine kinds, two documents share a preimage exactly when they agree outside identifiers and signatures. |
| Inventory.CheckedAdd | core/model/amount.go:50-55 | Gives the exact sum, and an error exactly when it leaves the 64-bit range. |
| Inventory.SupplyAfterPut | core/model/protocol.go:105-137 | Writing one cell changes the supply of that unit by the difference and no other supply. |
| Inventory.InventoryState.AddChecked | core/model/protocol.go:105-121 | Adds a positive amount that fits to one cell, and otherwise fails changing nothing. |
| Inventory.InventoryState.Sub | core/model/protocol.go:123-137 | Takes a covered positive amount from one cell, and otherwise fails changing nothing. |
| Inventory.InventoryState.Copy | core/model/protocol.go:146-155 | The copy is a new object with the same holdings. |
| Trades.ValidateValueSet | core/model/protocol.go:310-330 | Accepts exactly positive values with the right owner and their own identifier. |
| Trades.CheckNoDuplicateValueIDs | core/model/protocol.go:332-343 | Accepts exactly values with pairwise different identifiers. |
| Trades.UnitTotals | core/model/protocol.go:293-301 | Gives every carried unit its total, and fails exactly when some total overflows. |
| Trades.CheckTradeConservation | core/model/protocol.go:345-371 | Accepts exactly when inputs and outputs have the same total, within 64 bits, in every unit. |
| Trades.CheckTradeInventoryCoverage | core/model/protocol.go:293-308 | Accepts exactly when the party holds the total of every unit it puts in. |
| Trades.ValidateTradeTx | core/model/protocol.go:243-291 | Accepts exactly the valid trades. |
| Trades.TakeAll | core/model/protocol.go:178-187 | No subtraction of covered values fails; the party's cells and the supplies drop by the totals, nothing else changes. |
| Trades.GiveAll | core/model/protocol.go:188-197 | Fails exactly when a holding would not fit; otherwise owners' cells and the supplies rise by the totals. |
| Trades.ApplyTradeTx | core/model/protocol.go:173-199 | Fails exactly on an invalid trade or a final holding that does not fit; otherwise every cell is old less inputs plus outputs, every unit's supply is unchanged, and the argument is untouched. |
| Trades.FinalNonNegative | core/model/protocol.go:173-199 | A valid trade makes no cell negative that was not. |
| Transfers.CanonicalInputsForTransfer | core/model/validate.go:159-194 | Succeeds exactly when the values can be listed in the transaction's order, each once, and returns that listing. |
| Transfers.ArrangedUnique | core/model/validate.go:159-194 | There is at most one such listing. |
| Transfers.ArrangedPermutation | core/model/validate.go:159-194 | The listing does not depend on the order the values are supplied in. |
| Transfers.NextTransferDepth | core/model/validate.go:204-215 | One more than the greatest input depth, and an error exactly when that does not fit. |
| Transfers.CheckConservation | core/model/validate.go:228-278 | Accepts exactly positive amounts, one issuer per unit, known output keys and equal totals within 64 bits. |
| Transfers.EarliestExpiries | core/model/validate.go:280-294 | Per unit and issuer the earliest expiry among the inputs that have one. |
| Transfers.CheckExpiryPropagation | core/model/validate.go:280-314 | Accepts exactly outputs of known keys that neither remove nor extend the expiry of any input of their key. |
| Transfers.NormalizeTransferOutputExpiries | core/model/validate.go:316-340 | Every output ends within all input expiries of its key, unchanged if it already was, else at one of them. |
| Transfers.ValidateTransferTx | core/model/validate.go:85-157 | Accepts exactly the valid transfers. |
| NewTransfers.SameConservation | core/model/validate.go:228-278 | Conservation does not look at identifiers, depths or expiries. |
| NewTransfers.FinishOutputs | core/model/transfer.go:43-54 | Fills in depth and identifier of every output, failing exactly when an owner is missing. |
| NewTransfers.SignedIsAuthentic | core/model/transfer.go:65-84 | Filling in identifier and signature leaves the preimage they were made from. |
| NewTransfers.NewTransferTx | core/model/transfer.go:10-87 | Succeeds exactly on constructible arguments, keeps inputs and output terms, keeps each expiry asked for or tightens it to the earliest of its key, sets the depth, and the validator accepts the result with the inputs in any permutation. |
| Policies.EvaluateTransfer | core/policy/policy.go:45-84 | Accepts exactly valid transfers whose inputs and outputs are unexpired and shallow enough and whose issuers are trusted enough; the score is the lowest trust if trust alone decides, and zero on any earlier rejection. |
| Policies.HopFacts | core/model/validate.go:117-147 | A valid transfer deepens every value it makes and keeps it within the expiry of every input of its key. |
| Policies.ChainDepth | core/model/validate.go:204-215 | Along any chain of valid transfers depth grows by at least one per hop. |
| Policies.ChainExpiry | core/model/validate.go:280-314 | Along any chain within one unit and issuer an expiry is never removed and never extended. |
| Policies.ExpiredForever | core/policy/policy.go:105-116 | What has expired stays expired along any such chain. |
| Policies.AcceptedChainBounded | core/policy/policy.go:45-84 | A chain of transfers one policy accepts has at most its maximum depth of hops. |
| Policies.AcceptedChainInTime | core/policy/policy.go:45-84 | The last hop of an accepted chain comes before the expiry of the value the chain started from. |
| NodeLaws.SwapFails | core/node/trade.go:309-323 | One party's exchange fails exactly on an amount that is not positive, an uncovered payment or a receipt that does not fit. |
| NodeLaws.RecordedEffect | core/node/trade.go:272-307 | What recording a trade adds to flow, payment, settled volume and history of each unit, also when both units are the same. |
| NodeLaws.RecordedHistory | core/node/flow.go:32-53 | Which observations recording appends to each history, in which order and at what time, and which last-trade times it sets. |
| NodeLaws.DoneConserves | core/node/trade.go:309-328 | A done execution conserves each unit over the two parties, keeps balances non-negative and touches no other row. |
| NodeLaws.DoneExchanges | core/node/trade.go:272-328 | A done execution moves exactly what was sold and paid, both parties record the same at the timestamp of the trade and remember it, and nothing else about them changes. |
| NodeLaws.DoneKeepsLedger | core/node/flow.go:8-53 | A done execution keeps settled volume, trade history and trade flow in agreement on both sides. |
| NodeLaws.ReopenedLedger | core/node/node.go:86-112 | A node reopened from its store has its flow but no history, so its ledger agrees with itself exactly if no flow was recorded. |
| NodeLaws.GivenAwayLeavesZero | core/node/trade.go:257-270 | After a done trade each party has only positive holdings exactly when something of what it gave is left or both units are the same. |
| NodeLaws.BothTradeAgain | core/node/trade.go:257-270 | The same two parties can combine their inventories again exactly when neither gave all it had of one unit for another. |
| NodeLaws.ZeroAborts | core/node/trade.go:257-270 | With a holding that is not positive no execution is done, and every permitted one aborts. |
| NodeRuns.RunConserves | core/node/trade.go:85-196 | Every run of trades among a fixed set of nodes conserves each unit and keeps balances from zero to the 64-bit maximum. |
| NodeRuns.RunKeepsLedgers | core/node/flow.go:8-53 | If the ledgers at the start and those of joining nodes agree with themselves, every ledger does in every reachable state. |
| NodeRuns.FreshRunKeepsLedgers | core/node/flow.go:8-53 | Among nodes that began fresh, whenever they joined, settled volume, history and trade flow agree in every reachable state. |
| NodeRuns.RunGrowsTogether | core/node/flow.go:8-53 | From any start, reopened nodes included, trade flow, settled volume and history of a node grow by the same amount in every run, and payment flow by no more. |
| NodeRuns.StepRemembers | core/node/trade.go:391-418 | No event makes a node forget an executed trade or a store lose a mark, failed persist calls included. |
| NodeRuns.AtMostOnce | core/node/trade.go:165-195 | Two commits of one trade identifier share neither a node object nor a store, also across fresh node objects. |
| NodeRuns.MarkedNeverCommits | core/store/json.go:153-156 | A trade a store has marked, even in a failed call, is never committed by a node using that store. |
| BuiltTrades.BuiltTradeValid | core/node/trade.go:213-245 | The trade built from a quote both parties can pay is valid exactly when parties are present and distinct, amounts positive and the total fits. |
| BuiltTrades.PermittedWhen | core/node/trade.go:85-173 | Field by field, when a signed execution passes every check before the inventories are combined. |
| BuiltTrades.RecordedWhen | core/node/flow.go:8-53 | Recording a trade succeeds exactly when trade flow, payment flow and settled volume each have room, whatever they were before. |
| BuiltTrades.DoneExactlyWhen | core/node/trade.go:85-196 | The exact conditions under which a signed execution is done, for any nodes, reopened ones included. |
| BuiltTrades.DoneBetweenAgreeing | core/node/trade.go:85-196 | Between nodes whose ledgers agree, a permitted execution whose persist call succeeds is done exactly if holdings are positive, terms good, receipts fit and trade flow fits. |
| BuiltTrades.DirectExactlyWhen | core/node/trade.go:19-59 | The exact conditions under which an execution without signatures is done, and under which it aborts. |
| BuiltTrades.DirectExchanges | core/node/trade.go:19-59 | What such an execution moves and records, and that nothing changes unless it is done. |
| BuiltTrades.BuiltTradeMoves | core/node/trade.go:213-245 | The transaction built from a quote, applied to an inventory, moves exactly what the execution moves. |
| Nodes.CombinedInventory | core/node/trade.go:257-270 | The two rows side by side, or added up for equal identifiers; aborts exactly on a holding that is not positive or an overflow. |
| Nodes.RecordSuccessfulTrade | core/node/trade.go:272-307 | Records on both nodes in the original's order, failing exactly when one of the records overflows. |
| Nodes.PreparedTradeState | core/node/trade.go:309-328 | Prepares both next states on fresh copies, leaving the nodes alone. |
| Nodes.CheckSigned | core/node/trade.go:99-173 | Passes exactly when every check before the inventories are combined holds. |
| StateFiles.BatchWrites | core/store/json.go:158-167 | The batch of a trade with one or two parties writes exactly its trade file and the state files of the parties. |
| StateFiles.FilesReadBack | core/store/json.go:274-293 | Reading the inventory and flow files of a node gives, unit by unit, what the node holds and has recorded. |
| StateFiles.FilesDetermine | core/store/json.go:274-293 | Files that agree with two books agree on every amount and record. |
| StateFiles.TradeFileHashes | core/store/json.go:158-160 | The trade file hashes to the identifier it is filed under and so determines trade, intents, keys and signatures. |
| Nodes.PersistSignedTrade | core/node/trade.go:330-350 | Hands the trade and the next state of each party with a store to that store, once; the disk and its marks come out as the store promises. |
| Nodes.AgreementAfter | core/store/json.go:196-202 | State files agree with the next books after a success, and after a failure with the old ones unless what failed was the executed marker. |
| Nodes.OnDiskReads | core/node/trade.go:352-359 | Files that agree with the nodes read back as the balance of each party with a store. |
| Nodes.ReservePersistCommit | core/node/trade.go:183-195 | All or nothing: either both nodes take the prepared books and the trade, and the disk has them, or both nodes are as they were. |
| Nodes.ExecuteSignedTrade | core/node/trade.go:85-196 | Nodes, outcome and disk are those of the planned execution; unless it is done neither node changes, and with at most one I/O error files that agreed with the nodes still do exactly when it is done or what failed was not the executed marker. |
| Nodes.ExecuteTrade | core/node/trade.go:19-59 | The same for an execution without signatures and without a store. |
| Locks.OrderedNodes | core/node/trade.go:450-460 | Two different node locks come out in rising order, the same two. |
| Locks.LocksOf | core/node/trade.go:436-448 | Every operation takes its locks, the mutex first, in rising order. |
| Locks.BeforeTotal | core/node/trade.go:450-460 | The lock order is total and irreflexive on distinct locks. |
| Locks.NoDeadlock | core/node/trade.go:23-26 | In every reachable state with unfinished threads some thread can step. |
| SessionLaws.OneQuotePerId | core/handler/state.go:69-89 | A quote identifier has one quote, so storing it again changes nothing. |
| SessionLaws.OnRequestKeeps | core/handler/handler.go:114-135 | A quote request keeps the session invariant. |
| SessionLaws.OnResponseKeeps | core/handler/handler.go:137-173 | A quote response keeps it, including the one local intent per quote. |
| SessionLaws.OnIntentKeeps | core/handler/handler.go:175-217 | A signed intent keeps it, including at most one peer intent per quote. |
| SessionLaws.OnTradeKeeps | core/handler/handler.go:219-255 | An authorized trade keeps it, whatever the search settles on and however execution ends. |
| SessionLaws.PruneKeeps | core/handler/session.go:55-70 | Pruning keeps it. |
| SessionLaws.HandleKeeps | core/handler/handler.go:34-82 | Handling any message keeps the invariant. |
| SessionVerdicts.EnvelopeVerdict | core/handler/handler.go:34-82 | Forged, foreign and repeated messages change nothing; an accepted one is remembered, and its time is noted if it means something. |
| SessionVerdicts.RepeatedMessageIgnored | core/handler/session.go:39-49 | In every run a message identifier of the peer has an effect once. |
| SessionVerdicts.ResponseVerdict | core/handler/handler.go:137-173 | A quote is stored exactly if it answers a pending request field by field, in time, with agreeing prices and under its own identifier; and what is signed, replied or cleared. |
| SessionVerdicts.SignVerdict | core/node/intent.go:105-129 | Exactly which quotes a node signs, and that it signs their terms as the party it is. |
| SessionVerdicts.IntentVerdict | core/handler/handler.go:175-217 | An intent is kept exactly if it is the peer's first for a fresh pending quote of the pair on its terms; only a quote out of time is cleared. |
| SessionVerdicts.LastOfIs | core/handler/state.go:212-224 | The intent of a party that is used is the last one held. |
| SessionVerdicts.ClearingVerdict | core/handler/session.go:85-101 | Exactly what clearing a negotiation takes and what it leaves. |
| SessionVerdicts.ClearRequestVerdict | core/handler/session.go:72-83 | Exactly what clearing a request takes and what it leaves. |
| SessionVerdicts.PruneVerdict | core/handler/session.go:55-70 | Exactly what pruning takes and what it leaves. |
| SessionVerdicts.TradeVerdict | core/handler/handler.go:231-255 | What is replied, kept and cleared after an execution that is done, fails or panics. |
| SessionVerdicts.RefusalVerdict | core/handler/handler.go:333-366 | A trade that is not agreed to changes nothing but for a quote found out of time, which is cleared; one agreed to becomes pending as rebuilt. |
| SessionVerdicts.SmallMessages | core/handler/handler.go:257-275 | What the other messages reply, and that they leave the session alone but for the time of a pong. |
| SessionRuns.AgreedIsNegotiated | core/handler/handler.go:333-390 | A session agrees only to a pending, fresh, executable quote with exactly the two intents it holds, and the node computes the identifier it was sent. |
| SessionRuns.OnlyNegotiatedTrades | core/handler/handler.go:219-255 | A message that changes the node is such an authorized trade, its identifier was neither executed nor marked, and it is what the node records. |
| SessionRuns.AcceptedMeansExecuted | core/handler/handler.go:235-255 | An accepted result is sent only for a trade that was executed, and then its quote, its intents and every pending trade on its terms are gone. |
| SessionRuns.ExecutionMarks | core/handler/handler.go:219-255 | An executed trade makes the store mark exactly the identifier in the message, which it had not marked before. |
| SessionRuns.NothingExpiredRemains | core/handler/session.go:55-70 | After pruning no request and no quote has expired, and no intents of an expired quote are left. |
| Negotiations.AgreedWhen | core/handler/handler.go:333-366 | A matching quote is agreed to exactly when it was pending, fresh and executable with both intents held and the identifier is that of the rebuilt trade. |
| Negotiations.BothAreOffered | core/handler/handler.go:207-216 | With both intents at hand the trade of the quote becomes pending under its identifier and is offered. |
| Negotiations.TradeDecided | core/handler/handler.go:219-255 | Whatever quote the search settles on, the trade executes exactly when it was negotiated under that quote, its identifier is the rebuilt one and node and surroundings allow it. |
| Negotiations.EverySearchWhen | core/handler/handler.go:333-366 | Every search executes the trade exactly when it is ready under one pending quote on its terms and was negotiated under all of them. |
| Negotiations.NegotiationExecutes | core/handler/handler.go:137-255 | Three messages of a peer that does as asked make the node sign and offer; then every search executes the trade exactly when node and surroundings allow it and every older quote on the same terms was negotiated too. |
| Answerings.RequestIsQuoted | core/handler/handler.go:114-135 | A request in role and in time is kept and answered by a quote on exactly its terms, at this second, executable exactly if priced so and covered. |
| Answerings.RequestIsRefused | core/handler/handler.go:115-121 | Any other request is refused, and a late one clears its negotiation. |
| Answerings.QuoteIsTaken | core/handler/handler.go:114-173 | The quote a seller answers with is stored by the requester while its second lasts and prices agree. |
| Answerings.IntentIsJoined | core/handler/handler.go:199-216 | The intent of the peer is joined by the local one, and the trade becomes pending and is offered. |
| Answerings.AnswerExecutes | core/handler/handler.go:114-255 | From a request to execution: the peer's three messages make the node quote, sign and offer, and then every search executes the trade under the exact condition. |
| Negotiations.TwinStops | core/handler/handler.go:333-366 | A search that settles on a quote with the same terms that lacks either intent refuses the trade. |
| Negotiations.TwinArises | core/handler/handler.go:137-255 | A peer that answers one request twice on the same terms and signs the first quote only brings this about. |
| AgreedTrades.AgreedTradeRuns | core/handler/handler.go:231-241 | The exact conditions, checkable beforehand, under which a trade the session has agreed to is executed on the local node and the peer's shadow. |
| SessionRuns.ExecutesAtTheTimestamp | core/handler/state.go:158-160 | With one clock reading a trade executes only at the timestamp of its quote. |
| SessionRuns.RunKeepsInvariant | core/handler/handler.go:34-82 | The invariant holds in every state of every run, whatever other sessions do to the node in between, and the session changes the node only where a negotiated trade executes. |
| SessionRuns.ExecutesOnce | core/handler/handler.go:219-255 | No run of a session executes the same trade identifier twice, whatever else happens to node and store in between. |
| ServerRuns.ServerKeepsInvariant | core/net/server.go:60-96 | With any number of connections sharing one node, every session keeps its invariant from connecting on, and the node changes only by a negotiated trade in one session or outside all of them. |
| ServerRuns.ServerExecutesOnce | core/net/server.go:60-96 | No run of a server executes the same trade identifier twice, in one session or across sessions with any peers. |
| ServerRuns.SessionSeesRun | core/net/server.go:82-93 | What one session of a server goes through is a run of that session alone with the rest happening elsewhere. |
| Sessions.Session.ClearNegotiation | core/handler/session.go:85-101 | Exactly the quote, its intents, its request and the trades with its terms are gone. |
| Sessions.Session.ClearRequest | core/handler/session.go:72-83 | Exactly the request and the negotiations of its quotes are gone, in whatever order they are found. |
| Sessions.Session.PruneExpired | core/handler/session.go:55-70 | Exactly expired requests with their quotes, and expired quotes, are gone, in whatever order they are found. |
| Handlers.SelectIntents | core/handler/state.go:212-224 | The last intent of each party. |
| Handlers.Handler.HandleQuoteRequest | core/handler/handler.go:114-135 | Session and reply are those of the request step. |
| Handlers.Handler.HandleQuoteResponse | core/handler/handler.go:137-173 | Session and reply are those of the response step. |
| Handlers.Handler.HandleSignedIntent | core/handler/handler.go:175-217 | Session and reply are those of the intent step. |
| Handlers.Handler.BindAuthorizedIntents | core/handler/handler.go:368-390 | Passes exactly when both intents are the ones held for the quote. |
| Handlers.Handler.AuthorizedNegotiation | core/handler/handler.go:333-366 | Some matching quote decides, and none only if none matches. |
| Handlers.Handler.HandleAuthorizedTrade | core/handler/handler.go:219-255 | Session, node, store marks and reply are those of the trade step. |
| Handlers.Handler.HandleMessage | core/handler/handler.go:34-82 | Session, node, store marks and reply are those of handling the message. |
| Files.PutAt | core/store/json.go:437-453 | After a batch is installed a path holds the content of its last occurrence in the batch. |
| Persist.StepProgress | core/store/json.go:153-208 | Every file operation brings a call closer to its end, whatever the answer. |
| PersistSafety.StepKeeps | core/store/json.go:153-208 | Every file operation, answered either way, keeps the protocol invariant: artifacts, targets and what is left to undo. |
| PersistRuns.ReturnContract | core/store/json.go:172-207 | With at most one I/O error a lone call ends with the new targets exactly when the trade counts as executed and the old ones otherwise, repeated target paths included. |
| PersistRuns.EvidenceOfChange | core/store/json.go:34-39 | At every moment of such a call, targets that differ from the old ones come with replay evidence. |
| PersistEvidence.EvidenceDuringRun | core/store/json.go:34-39 | From the moment a target is installed there is replay evidence, until the call has rolled back, restored every target and returned. |
| PersistEvidence.FailureMeans | core/store/json.go:196-202 | A failed call with at most one I/O error leaves new targets and evidence exactly when creating the executed marker failed. |
| PersistEvidence.OthersEvidence | core/store/json.go:153-208 | Whatever fails, a call leaves the evidence of other trades alone, and one that succeeds leaves its own. |
| CleanRuns.CleanRunLeaves | core/store/json.go:153-208 | A call that meets no I/O error leaves the disk it found plus exactly its batch and the executed marker: no backup, temporary file or other artifact. |
| Recovery.RecoveryRestarts | core/store/json.go:741-792 | Crashing anywhere inside recovery and recovering again gives the disk and outcome of one uninterrupted recovery. |
| Recovery.RecoveryIdempotent | core/store/json.go:741-792 | Recovering again changes nothing. |
| Recovery.ListingCoversIds | core/store/json.go:741-760 | Working through the directory listing, where one trade has several entries or none, amounts to recovering every trade once. |
| RecoveryVerdicts.CommittingVerdict | core/store/json.go:595-720 | Recovery marks a committing trade exactly if its manifest parses, names it and its trade file and every listed target exists, names its own trade or node and parses. |
| RecoveryVerdicts.OtherVerdicts | core/store/json.go:741-792 | What recovery does with a marked trade and with one that is not committing, errors included. |
| RecoveryVerdicts.OpensExactlyWhen | core/store/json.go:741-792 | The store opens exactly if no trade on its own stops recovery. |
| RecoveryVerdicts.BadTargetCloses | core/store/json.go:595-720 | One missing, mismatched or unreadable target of a committing trade keeps the store from opening. |
| CrashRuns.CommittedCrashRecovers | core/store/json.go:453-462 | A crash at or after the committed manifest always recovers to the trade executed. |
| CrashRuns.EarlyCrashRecovers | core/store/json.go:153-180 | A crash before the applying manifest recovers to the old targets and no marker. |
| CrashRuns.ApplyingCrashStops | core/store/json.go:779-790 | A crash while targets are being replaced makes recovery report an error. |
| CrashRuns.CrashRefinement | core/store/json.go:153-208 | Whatever was begun and wherever it crashed, an open idle store holds the effect of the committed trades in commit order, exactly those marked, each once. |
| CrashRuns.MarkerForever | core/store/json.go:755-778 | An executed marker survives every later call, crash and recovery. |
| CrashEvidence.EvidenceForever | core/store/json.go:755-778 | Evidence of any kind, once there, survives every later call, crash and recovery. |
| CrashEvidence.EarlyCrashBlocks | core/store/json.go:171-180 | After a crash before the applying manifest recovery opens the store with the old targets, and the trade counts as executed exactly if it had been reserved. |
| CrashEvidence.BlockedForever | core/store/json.go:153-156 | A trade with evidence but no marker on an open idle store is never executed, through any later calls, crashes and recoveries. |
| CrashEvidence.RefusedMarkerCloses | core/store/json.go:771-774 | After a failed call with at most one I/O error the next recovery opens the store exactly if what failed was not the executed marker. |
| Interleaving.AtMostOneSuccess | core/store/json.go:154-171 | In every interleaving of calls for one trade, with any I/O errors, at most one succeeds. |
| Interleaving.FirstToReserveSucceeds | core/store/json.go:331-339 | Without I/O errors and earlier evidence the first call to create the reservation is the one that succeeds. |
| Interleaving.LateCallOverwrites | core/store/json.go:154-205 | A call that reserves after another has finished fails, and puts its targets back exactly when a commit record is there. |
| LateCalls.LateCallHappens | core/store/json.go:154-205 | On every disk without evidence two calls have an interleaving without I/O errors in which the second fails and leaves its documents over those of the first. |
| LateCalls.FirstTwoStay | core/store/json.go:154-205 | In every interleaving without I/O errors, when no call is under way the targets are those of the first two calls to reserve, in that order, and a commit record is left exactly if there was a second. |
| JSONStores.BatchValid | core/store/json.go:158-167 | The documents of a call are its trade file and the state files of its nodes. |
| JSONStores.JSONStore.Rollback | core/store/json.go:469-485 | Undoes the installed files from the last to the first, one machine step per operation. |
| JSONStores.JSONStore.WriteBatch | core/store/json.go:409-462 | Stages and installs every document, or undoes what it installed. |
| JSONStores.JSONStore.PersistExecutedTrade | core/store/json.go:153-208 | The whole call follows the step machine; it adds no evidence but its own, and with at most one I/O error it has the return contract and leaves evidence on the way. |
| JSONStores.JSONStore.RecoverTransactions | core/store/json.go:741-792 | The loop over directory entries leaves the disk and outcome of recovering every trade. |

## Left out

- Failures combined with crashes: the store's two fault models are not mixed, because undoing after a failed commit record runs while the manifest still says committed.
- fsync, directory durability, leftover temporary files and backups after a crash, and directories in the place of target files.
- The check that target paths stay inside the store's root: paths are abstract names here, so none can leave it.
- Names of temporary files: a call's number stands for them, and different calls use different names.
- JSON text: a document is what it decodes to, and a document that does not decode is marked as such. The state
  documents of nodes are written in the canonical encoding, which also determines what was written.
- Stores that differ between the two parties: execution rejects them, so the model carries one persist call at most.
- Prices and everything computed from them in floating point: whether a party accepts a quote is a parameter together with the inventory check, a printed price is an opaque text, and the price cache of a node is not part of its state.
- Trust scores are real numbers, which are only compared.
- Policies.EvaluateTransfer: the reasons that come with a decision are not modelled, nor is a policy that is absent.
- NewTransfers.NewTransferTx: a private key of the wrong length is not representable, so that error is not modelled.
- Encoders.EncodeFields: the text of an error, which names the field or index, is not modelled.
- Error texts in general: a failed validation is one outcome.
- Issue transactions beyond their preimage, acceptance records, consumption and demand flow.
- Handlers.Handler.HandleMessage: signature and canonical form of the envelope, and decoding, are given as inputs; so is whether a reply can be signed.
- The payload of HELLO beyond the peer's identity.
- Two-party liveness of a negotiation: each handler needs the peer's intent through its own session, so the code promises safety per session, and an execution only to a peer that does as asked.
- The four file lookups of the evidence test are one step of a call. Lookups that are spread out give nothing new: a test that finds a file is one made at that moment, and one that finds none is one made before any call reserved, because the marker, which is looked up first, was not there yet.
- A message is one step of a session, since it touches the node in one locked operation.
- Locks: a read lock counts as an exclusive one.
- Locks.NoDeadlock: an address is the text the order compares, and different node objects are taken to have different texts.
- The simulator, the network runtime, the command line and the crypto primitives.
