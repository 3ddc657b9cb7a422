# 402Signal in Dafny

402Signal is a payment router: it probes paid HTTP endpoints, picks one for the caller, lets a
facilitator settle one payment, and keeps a durable record so that a payment authorization is never
used twice. This project models the parts of it whose correctness does not show in one function, and
proves what they are for.

* **Replay ledger and paid route** (`Outcome`, `Redaction`, `PaidRoute`, `SettleAnswer`, `UnpaidAnswers`,
  `LedgerClass`, `Replay`, `ReplayRules`, `ReplayProtocol`, `ReplayAgreement`, `WaitingRuns`, `LockRuns`,
  `LegacyRuns`, `LedgerTruth`, `ShortVec`, `AlgoReplay`). The object that guards a process is a class over its
  two maps and the shared ledger; the paid route is a class that writes its result and logs its effects. A
  step machine runs any number of requests, threads and processes over one ledger, where threads die,
  processes restart with empty memory, clocks move apart and ledger writes fail. A run is any sequence of
  steps; a step that is not enabled changes nothing. Over all runs an authorization is settled at most once,
  all its reports agree, and what its ledger row says is what the facilitator put on the wire. Signatures do
  not count for what an authorization is, on Solana and on Algorand.
* **MessagePack codec** (`Utf8`, `TextOrder`, `MsgPack`, `MsgPackStrict`, `WireForms`, `AlgoTx`,
  `EncoderRules`, `GroupPays`, `GroupBuilds`). The strict reader threads an index through mutually recursive
  loops; the wire value remembers whether bytes came from a str or a bin. Text is a sequence of Unicode scalar
  values and its bytes are UTF-8 (section 3 of RFC 3629).
* **Observation store** (`Recency`, `History`, `PayToRules`, `HistoryStore`, `HistoryRules`, `HistoryRuns`,
  `HistoryBatches`, `HistoryFacts`, `StoredRows`, `HistorySettle`). The sqlite tables are maps with ids that
  are never used again; the store is a class whose methods are proved against functions of the tables. `log`
  in the tables is no table: it records the trusted observations in the order in which they reached the URL
  state.
* **Catalog sweep** (`CatalogStore`, `CatalogRuns`, `CatalogHistory`, `ClaimEvents`, `CatalogEvents`,
  `CatalogSweep`, `SweepStates`). Listings, claims, generations, cursor, retirement and the event log, and one
  trickle step that fetches a page; then whole sweeps against an upstream that does not change, with failed
  fetches, dropped pages and any page limit.
* **Selection** (`Rails`, `Amounts`, `StableSort`, `SortStability`, `Selection`, `Ranking`, `CompareRules`,
  `CheapestPays`, `PaidOption`, `Shortlist`, `ShortlistRules`, `EnvelopeGate`, `EnvelopeRules`,
  `PickedPayment`, `WinnerGate`, `GateRules`). Python's sort with comparators that are not transitive, what
  the winner is best at, history reordering, and the gates that the picked payment meets up to the settle
  call.
* **Probe slots and rate limiter** (`Slots`, `SlotProtocol`, `SlotLookups`, `LookupRefines`, `SlotEviction`,
  `RateLimit`, `RateWindow`, `RateEviction`). Any number of threads over the slots: the bounds, that nobody
  waits forever while holders go on, and what eviction between a lookup and its acquire can do.

`Collections` holds optional values and insertion-ordered dictionaries, `Json` JSON values, `Text` the
text functions of the sanitizer. `dafny verify dfyconfig.toml` checks everything.

Six promises of the code do not hold on all inputs; the project gives inputs and states exactly when
they do:

* Encoding and strictly decoding a dictionary is the identity exactly without bools, nils, empty keys
  and lists of other things than bytes and integers, at most eight levels deep and within the size limit
  (`AlgoTx.DecodeEncodedIff`); `{"a": true}` encodes and is refused (`AlgoTx.BoolIsNotReadBack`).
* The cheapest winner pays the least exactly when the networks lock is missing, empty or complete, the
  bounds leave no room for two prices, or a bound on total cost, or on settlement below two seconds, lets
  nobody pass; the ranking ignores the lock that the payment obeys (`CheapestPays.CheapestPaysLeastIff`,
  with two candidates in `CheapestPays.LockBreaksCheapest`).
* An option that can be picked passes the envelope gate exactly when the envelope has an integer version
  and a list of accepts (`EnvelopeGate.PickedPassesGateIff`); with a version such as the text "2" an
  accept that brings its own version is picked and refused (`EnvelopeGate.TextVersionedPickIsRefused`).
* A picked payment is settled only if it pays the payee that the envelope names first
  (`WinnerGate.PickedIsSettledIff`); the cheapest option of an envelope with two payees can be picked and
  refused (`WinnerGate.SecondPayeeIsRefused`).
* A completed sweep has covered an upstream exactly when the upstream's pages are not longer than the 100
  listings stored of each and the completing page was not a dropped one (`CatalogSweep.CoverageIff`). The
  others are never stamped, and those still active are retired while they are still served
  (`CatalogSweep.ServedIsRetiredIff`, with inputs in `CatalogSweep.DroppedPageRetiresTheServed` and
  `CatalogSweep.LongPageIsNotCovered`).
* At most two probes run per host, in all runs over a set of hosts, exactly when there are at most 256
  hosts (`SlotEviction.HostsBoundedIff`); beyond that a looked-up semaphore can be evicted before it is
  acquired (`SlotEviction.ThreeHold`).

## Model

| member | source | states |
|---|---|---|
| `ReplayProtocol.SettledAtMostOnce` | live402/replay.py:640-819 | in every run from any ledger, with crashes, restarts, expiry, several processes and failed writes, the facilitator is asked to settle one fingerprint at most once |
| `ReplayProtocol.KnownNeverSettled` | live402/replay.py:640-661 | a fingerprint whose row is already in the ledger when the run starts is never settled in it |
| `LegacyRuns.LegacyNeverSettled` | live402/replay.py:759-766 | a payment whose legacy hash is in the ledger at the start is not settled again in any run in which its requests carry that fingerprint |
| `LegacyRuns.LegacyAnswersOnly` | live402/replay.py:759-766 | each such request is answered with what the legacy row reads as, in any scope, or refused, and the row stays as it was, if no other fingerprint shares the new hash |
| `LegacyRuns.LegacyIsReplayed` | live402/replay.py:759-766 | when the reads succeed it is answered exactly if that row reads as an outcome, and otherwise refused |
| `ReplayProtocol.RunsAreSafe` | live402/replay.py:730-819 | every reachable state: settle calls are for reserved rows and for different hashes, no two running threads share one, and a running thread called settle only if it is past that effect |
| `ReplayProtocol.StepSafe` | live402/replay.py:730-819 | every step of the protocol keeps that invariant |
| `ReplayAgreement.ReportsAgree` | live402/replay.py:708-809 | any two threads of a run that report an outcome of one fingerprint (own result, waiter, RAM hit, ledger read) report the same one after sanitizing |
| `ReplayAgreement.PersistedOutcomeIsTheAnswer` | live402/replay.py:597-637 | once an outcome is on disk, any process at any time, before or after expiry or restart, answers with it alone in the same scope and refuses otherwise |
| `ReplayAgreement.RunsAgree` | live402/replay.py:730-819 | the invariant behind that: threads, waiting slots, kept outcomes, entries and published rows agree in every reachable state |
| `ReplayAgreement.ReadIsSanitized` | live402/replay.py:468-547 | what is read from the ledger is a fixed point of sanitizing |
| `WaitingRuns.JoinersGetTheAnswer` | live402/replay.py:748-809 | in every reachable state, a request that joins a running one in its scope is answered with what that one ends with, redacted, whatever the ledger write does, and refused in another scope |
| `LockRuns.LockedByTheLiving` | live402/replay.py:742-771 | in every reachable state, whatever died or crashed, a process is locked only by one thread of its own that is there and about to reserve, and that thread's next step unlocks it |
| `Replay.ReplayGuard.Begin` | live402/replay.py:730-771 | the answer and the new maps and ledger: kept outcome, wait, refusal, or a fresh entry with the reservation made |
| `Replay.ReplayGuard.Finish` | live402/replay.py:789-809 | the entry carries the sanitized outcome, memory keeps or drops it, and the row is completed or removed |
| `Replay.ReplayGuard.Abandon` | live402/replay.py:812-819 | waiters are released without an outcome and the row says unknown |
| `Replay.ReplayGuard.PruneCompleted` | live402/replay.py:698-705 | kept outcomes lose the expired ones, then the oldest beyond the cap |
| `ReplayRules.RowAnswersIff` | live402/replay.py:597-637 | a row is replayed exactly if it can be read, has the caller's scope or the first version, and holds a readable outcome, of an unknown row only one that says unknown |
| `ReplayRules.ReservedIff` | live402/replay.py:640-661 | a caller may run exactly when the cutover is acknowledged, the hash is new and the write committed; the pending row is there also when the write was only reported lost |
| `ReplayRules.SettlingNeedsAReservation` | live402/replay.py:730-771 | in no run whose reservations all fail, for an unacknowledged cutover or a write that did not commit, does anyone run or is a settle call made |
| `ReplayRules.AbandonedRows` | live402/replay.py:685-695 | abandoning turns an open row of its own hash to unknown and leaves every other row alone |
| `ReplayRules.KeptIff` | live402/replay.py:698-705 | pruning keeps exactly the outcomes that are not expired and have fewer than 2048 such after them |
| `ReplayRules.FinishedIsRemembered` | live402/replay.py:789-809 | for 120 seconds a finished authorization is answered from memory with its sanitized outcome in its own scope and refused in any other |
| `ReplayRules.FinishedRows` | live402/replay.py:664-683 | finishing closes its own row, which then reads as the redacted outcome in the state that says, or deletes it after a 400, and leaves every other row alone |
| `ReplayRules.CorrectedMayRun` | live402/replay.py:789-809 | after a 400 whose row is deleted nothing is left of the request: a corrected one may run |
| `Outcomes.SanitizeIdempotent` | live402/replay.py:468-526 | sanitizing an outcome twice is sanitizing it once, for every status, body and extra |
| `Outcomes.CleanseIdempotent` | live402/replay.py:485-512 | cleansing any JSON value twice is cleansing it once, at every depth |
| `Outcomes.DecodeEncode` | live402/replay.py:529-547 | decoding an encoded outcome gives that outcome sanitized |
| `Outcomes.ReceiptIsFixed` | live402/payment.py:455-486 | a sanitized settlement receipt passes the sanitizer unchanged for its rail |
| `Outcomes.ReceiptIff` | live402/payment.py:455-486 | a receipt is accepted exactly if it says success true and has a transaction of at most 128 characters that is an id of the given rail, the exact network of that rail (of any of the three when none is given) and a fitting payer or none, and then exactly these fields are kept |
| `Redaction.RedactedIsHarmless` | live402/replay.py:485-512 | redacted JSON has none of the secret names at any depth, no list beyond 256 items and no level beyond the sixteenth, whatever goes in |
| `Redaction.OnlySecretsGo` | live402/replay.py:485-512 | a dictionary loses exactly its secret names and a list exactly its tail |
| `Redaction.BodyIsRedacted` | live402/replay.py:468-526 | the body of a stored or replayed outcome is harmless, and under a 402 an error says nothing of its own |
| `Redaction.KeptReceiptIsSettled` | live402/replay.py:468-526 | a receipt header that is kept stands under a bill that says attempted and settled, and is that of a receipt that says success |
| `Redaction.PaidReceiptIsKept` | live402/replay.py:468-526 | the answer of an accepted payment keeps its receipt when it is stored, replayed or handed on |
| `PaidRoute.RouteExecution.PaidExecute` | live402/route.py:411-557 | the outcome of the paid route and the exact sequence of its effects for every verify, probe and settle result |
| `PaidRoute.RouteExecution.SettleWinner` | live402/route.py:476-557 | the outcome and effects of the economic action and of what follows it |
| `PaidRoute.SettleIsGuarded` | live402/route.py:411-510 | at most one settle call, only third after verify and probe, and only with a successful verify and a billable, bound winner; promotion and log leaf exactly when money moved |
| `SettleAnswer.SettleCallIff` | live402/route.py:411-510 | a settle call is made exactly when verify answered with a literal true, no bad body came up, the winner is billable and bound if asked, and time is left, all on the raw fields |
| `PaidRoute.ClassifyReadsTheWire` | live402/facilitator.py:240-284 | the raw settle answer is accepted exactly with a literal true `success` and a valid receipt for the rail, refused exactly with a literal false and a reason that is none of the four ambiguous ones, and else, a lost answer above all, in doubt |
| `SettleAnswer.BillTellsTheWire` | live402/route.py:274-310 | after a settle call the bill is settled exactly for an accepted answer, rejected exactly for a refused one, and for every other answer unknown under a 503; without the call nothing is settled |
| `SettleAnswer.PaidAnswerShowsTheWinner` | live402/route.py:531-557 | a paid 200 shows the probe's own fields, and without the log leaf that was asked for the answer is a 503 that shows none |
| `SettleAnswer.RefusedWinnerIsZeroed` | live402/route.py:343-358 | a verified request without a billable winner: what looks like a winner is zeroed into a 503, everything else passes with nothing but its bill added |
| `UnpaidAnswers.DoneInTurn` | live402/route.py:411-557 | the effects of every request are verify, probe, settle, promotion and log leaf up to the first that the raw answers do not allow: each in turn, once, and none left out |
| `UnpaidAnswers.ToldWhy` | live402/route.py:274-304 | what every request without a payment is told: the challenge again with the reason, a bad body or bad probe as it is, and an answer in doubt offers nothing and warns of a second try |
| `UnpaidAnswers.UnboundIsTold` | live402/route.py:440-475 | a winner whose binding is missing answers 503 with its binding error and no binding |
| `PaidRoute.BadRequestsNeverSettle` | live402/route.py:411-440 | every 400 is returned before settle, so its reservation may be dropped |
| `PaidRoute.BillingIsTruthful` | live402/route.py:274-310 | the bill of every outcome but a 400 says of the payment what the facilitator's raw answers say, with whatever verify and settle returned, and exactly an accepted payment carries its receipt |
| `PaidRoute.AcceptedReceiptStands` | live402/facilitator.py:242-284 | a receipt that the classification accepted passes the route's own receipt check |
| `LedgerTruth.LedgerTellsWhatMoved` | live402/route.py:620-630 | over every run, for a hash not in the ledger at its start: a closed row says settled exactly when a settle answer heard under it was accepted on the wire, rejected only when every answer heard was a literal refusal, not settled only when no settle call was made, and while an answer is in doubt the row stays open or unknown |
| `LedgerTruth.RunsAreTrue` | live402/replay.py:789-819 | the invariant behind that: running rows are pending and know whether their settle call was accepted, and every row written by the run is true |
| `LedgerClass.PersistedStateTruth` | live402/replay.py:550-594 | for every answer of the probe, the persisted state is settled exactly when money moved and unknown exactly when that is in doubt |
| `SettleAnswer.StateTellsTheWire` | live402/replay.py:550-594 | after a settle call the persisted state is settled exactly for an answer accepted on the wire, rejected exactly for a refused one, and unknown for every other one |
| `LedgerClass.ClosedStatesMeanNoMoney` | live402/replay.py:550-594 | not settled is persisted only when no settle call was made, rejected only when no money moved, and nothing but a closed or unknown state is persisted |
| `ReplayRules.StateIff` | live402/replay.py:550-594 | for any outcome at all: unknown or not settled is stored exactly when its own bill says so, settled for every other 200 and 503, and rejected for every other code |
| `LedgerClass.RaisedIsUnknown` | live402/route.py:627-630 | an execution that raises is persisted as unknown |
| `LedgerClass.TruthNeedsTheMark` | live402/replay.py:550-594 | for any answers at all, the persisted state is true if and only if the outcome is no 503 miss without a literal false `live`, so it rests on the mark that run_probe always sets (`LedgerClass.UnmarkedMissIsRecordedSettled` is a miss without it) |
| `LedgerClass.BillSurvives` | live402/replay.py:468-526 | the bill the ledger state is computed from survives sanitizing |
| `AlgoReplay.AlgorandAuthorization` | live402/replay.py:184-213 | the loop over the group gives the payment index and the ids of the unsigned transactions, or fails |
| `AlgoReplay.AuthorizationIff` | live402/replay.py:184-213 | exactly groups of 1 to 16 decodable members with the payment index in range have an authorization, and it is the index and the list of the members' transaction ids |
| `AlgoReplay.WrappersDoNotCount` | live402/replay.py:184-213 | two groups have one authorization exactly when the payment index and all unsigned transactions are the same, with a hash without collisions: signatures and spelling do not count and everything else does |
| `AlgoReplay.ResigningChangesNothing` | live402/replay.py:197-212 | a member with another signature wrapper around the same transaction leaves the group's authorization, for any hash |
| `ShortVec.ReadShortvec` | live402/replay.py:149-165 | the loop reads a compact-u16 count with its length or refuses |
| `ShortVec.ReadIffWritten` | live402/replay.py:149-165 | a count is read exactly from byte strings that begin with its shortest form, for every count up to 65535 |
| `ShortVec.AuthorizationIff` | live402/replay.py:168-181 | exactly transactions with 1 to 32 signatures and a message have an authorization, and it is the hash of the message |
| `ShortVec.SignaturesDoNotCount` | live402/replay.py:168-181 | two transactions have one authorization exactly when their messages are equal, whatever and however many their signatures |
| `Utf8.DecodeEncode` | live402/algo_tx.py:57-64 | decoding the UTF-8 bytes of any text gives the text |
| `Utf8.EncodeDecode` | live402/algo_tx.py:192-197 | whatever decodes as UTF-8 is the encoding of the result: no second form is accepted |
| `MsgPack.MpRead` | live402/algo_tx.py:249-347 | the reader, loops included, returns the value and the index after it, inside the buffer and further on |
| `MsgPack.MpReadMap` | live402/algo_tx.py:221-236 | the map loop reads its pairs with the strict key checks |
| `MsgPack.MpReadArray` | live402/algo_tx.py:239-246 | the array loop reads its items |
| `MsgPackStrict.StrictReadingIffCanonical` | live402/algo_tx.py:137-167 | a stretch of bytes reads as a wire value if and only if the value is well formed, fits the depth left, and the bytes are its canonical form |
| `WireForms.CanonicalForm` | live402/algo_tx.py:43-99 | that canonical form, written out for every well-formed value: head byte, lengths and numbers in as few big-endian bytes as they fit in, and the parts in their order |
| `MsgPackStrict.EqualValuesMeanEqualBytes` | live402/algo_tx.py:221-371 | two strict readings have equal wire values exactly when they consumed equal bytes |
| `MsgPackStrict.KeyFitsMeansAscending` | live402/algo_tx.py:200-236 | after an ascending prefix the reader's duplicate and order checks mean strictly greater than the last key |
| `AlgoTx.MsgpackEncode` | live402/algo_tx.py:102-125 | the encoder loop writes the map of the kept pairs in key order, or fails |
| `AlgoTx.EncodeThenRead` | live402/algo_tx.py:43-125 | strict reading of an encoded dictionary followed by anything consumes exactly the encoding and gives the dictionary back |
| `AlgoTx.EncodingIsInjective` | live402/algo_tx.py:102-125 | plain, shallow dictionaries with one encoding are equal |
| `AlgoTx.DecodeEncodedIff` | live402/algo_tx.py:350-371 | encode then strict decode is the identity exactly on plain, shallow, short dictionaries |
| `EncoderRules.EncodesIff` | live402/algo_tx.py:43-125 | exactly these values are encoded: 64-bit numbers, short texts and keys, lists of numbers, bools and byte strings, dictionaries of such, none too long |
| `EncoderRules.NormalIsReadBack` | live402/algo_tx.py:102-125 | what strict decoding gives back of any dictionary that can be encoded is the dictionary without its None entries and with numbers for the bools of its lists, exactly when that holds no bool and no empty key, is shallow and short |
| `AlgoTx.BoolIsNotReadBack` | live402/algo_tx.py:107-109 | `{"a": true}` encodes to four bytes that strict decoding refuses |
| `AlgoTx.BuiltGroupCarriesItsId` | live402/algo_tx.py:399-497 | every group built from 32-byte addresses and hashes: both members strict-decode to dictionaries that carry the group id, and without it they give that id again |
| `GroupPays.BuiltGroupPays` | live402/algo_tx.py:480-497 | read back from its bytes, member 1 of every built group transfers the amount of the asset (both absent when 0) from the sender to the payee without a fee, member 0 is the fee payer's payment of nothing to itself with twice the larger of the minimum fee and 1000, and both carry their note, the rounds and the network |
| `GroupPays.BuiltGroupReads` | live402/algo_tx.py:480-497 | with 32-byte addresses and hashes both members do read back to such dictionaries |
| `GroupBuilds.BuildsIff` | live402/algo_tx.py:480-497 | with 32-byte addresses and hashes a group is built exactly if amount, asset, rounds and pooled fee are 64-bit numbers and the network's name is shorter than 256 bytes |
| `GroupBuilds.GroupIdIs` | live402/algo_tx.py:399-408 | the id of a built group is the hash of TG and the list of the hashes of TX and each member's encoding without the id |
| `AlgoTx.MembersFit` | live402/algo_tx.py:366-367 | such members are within the size limit of the reader, whatever the amounts, rounds and texts are |
| `AlgoTx.GroupMembersCarryTheirId` | live402/algo_tx.py:399-497 | the same for addresses, hashes and notes of any length, when the members are within the size limit |
| `UrlHistory.MoveTakesTwo` | live402/history.py:678-711 | one URL's trusted payTo moves only by two accepted observations of the new one with no payTo accepted in between |
| `PayToRules.PayToStep` | live402/history.py:678-711 | what one observation that is not late does to trusted payTo, pending payTo and time of change, in every case |
| `PayToRules.SecondSightingMoves` | live402/history.py:678-711 | two accepted observations of one new address with no payTo accepted in between do move the trusted payTo: the first is held back and dates the change, the second is taken over |
| `PayToRules.OtherColumnsStep` | live402/history.py:695-731 | the times of the other changes are set exactly when a known value is seen to change |
| `UrlHistory.PendingDiffers` | live402/history.py:678-711 | a pending payTo differs from the trusted one, after any observations on one rail |
| `UrlHistory.CheckedNeverDecreases` | live402/history.py:668-673 | last_checked never goes back, and an observation older than it changes nothing |
| `UrlHistory.ColumnsAreLast` | live402/history.py:706-731 | last_success is the last accepted live observation's time, amount and schema are those of the last accepted observation that shows one, and last_checked is the newest time of all |
| `UrlHistory.RowsDecideState` | live402/history.py:653-731 | what the probes table keeps of observations decides all columns but the time of the last price change |
| `HistoryRuns.TrustedMovesTakeTwo` | live402/history.py:653-782 | over every run of store operations the URL state is the fold of its trusted observations, moves take two, and a pending payTo differs |
| `HistoryRuns.RunsFoldTrusted` | live402/history.py:653-731 | after every run each URL's state is what its trusted observations make of it, in their order |
| `HistoryRuns.ChecksOnlyAdvance` | live402/history.py:859-1010 | no store operation moves any URL's last_checked backwards |
| `HistoryFacts.StoredRowsTellTheReading` | live402/history.py:734-838 | from any reachable state and in every later one, the observed rows of a recorded reading's probe say only what the reading said, of its batch, URL and time; right after the write they say all of it if they fit, and the probe stays if none is newer |
| `HistoryFacts.WriteStoresReading` | live402/history.py:734-838 | one write: under the new probe exactly what the reading says is stored as observed if the rows fit, and nothing else but its claims |
| `StoredRows.StoredProbe` | live402/history.py:734-790 | the probe row of a written reading has its URL, trust class, time, liveness, payTo, amount, schema and rail |
| `StoredRows.WriteStoresClaims` | live402/history.py:485-508 | the claims that come with a reading are stored beside it if the rows fit, not observed, and no others |
| `StoredRows.ClaimIsStored` | live402/history.py:1013-1040 | a recorded claim adds one row for each of its fields at the next ids, without a probe and not observed; beyond the cap the oldest rows of its URL go, and other URLs keep theirs |
| `StoredRows.AttestedIff` | live402/history.py:1829-1857 | exactly a batch with observed rows is attested, by their number and the digest of all of them, and attesting seals it |
| `HistoryRuns.RunsStayTidy` | live402/history.py:511-574 | after every run the per-URL and global probe caps and the observation cap hold, and every observation with a probe id refers to a stored probe of its URL |
| `HistoryRuns.StepTidies` | live402/history.py:734-838 | every operation keeps that |
| `Recency.OldestAreNotNewest` | live402/history.py:829-837 | deleting the oldest rows until the cap is left keeps exactly the newest ones |
| `Recency.DroppedIsOlder` | live402/history.py:519-527 | every row that retention drops is older than every row it keeps |
| `Recency.NewestCount` | live402/history.py:519-527 | the cap keeps exactly that many rows, or all when there are fewer |
| `HistoryBatches.AttestationIsStable` | live402/history.py:1829-1857 | after an attestation every later one of the batch counts no more rows, and with as many rows it has the same digest, whatever ran in between |
| `HistoryBatches.SealedRowsOnlyShrink` | live402/history.py:530-574 | the observed rows of a sealed batch only shrink, over every run |
| `HistoryBatches.RunForward` | live402/history.py:859-1040 | ids are never used again, stored rows never change but for settling, and a sealed batch gains no observed row and no probe |
| `HistoryBatches.TentativeRunsTellNothing` | live402/history.py:734-782 | tentative rows, claims, sealing and attesting never touch the URL state, in any run |
| `HistorySettle.SettlingLaterIsTrusting` | live402/history.py:930-1005 | a tentative batch settled later leaves a URL's state, but for the time of the last price change, as trusted writes of its rows oldest first would have left it |
| `HistorySettle.LaterRows` | live402/history.py:930-965 | settling selects exactly the batch's own stored rows, unchanged since they were written |
| `HistorySettle.PromotionOrder` | live402/history.py:939-948 | rows are promoted by timestamp, then in the order they were written |
| `HistoryStore.Store.ApplyTrustedUrlState` | live402/history.py:653-731 | the new state of the URL, whether it was written, and nothing else changed |
| `HistoryStore.Store.WriteProbeRow` | live402/history.py:734-838 | probe, observations, URL state and the three retention deletes together |
| `HistoryStore.Store.RecordProbe` | live402/history.py:859-879 | as above, and nothing for a sealed batch or without a URL |
| `HistoryStore.Store.PersistRouteBatch` | live402/history.py:882-927 | the rows with a URL are written for the batch, which is then sealed; a sealed or malformed batch is ignored |
| `HistoryStore.Store.MarkBatchSettled` | live402/history.py:930-1010 | the batch's tentative probes become settled and are applied oldest first |
| `HistoryStore.Store.RecordClaims` | live402/history.py:1013-1040 | claimed rows without a probe, capped, and the URL state untouched |
| `HistoryStore.Store.AttestationFor` | live402/history.py:1829-1857 | count and digest of the batch's observed rows, and the batch is sealed if it has any |
| `HistoryStore.Store.CapProbes` | live402/history.py:829-837 | the oldest probes and their observations go until the global cap is left |
| `HistoryRules.RecordTells` | live402/history.py:859-879 | a recorded reading reaches the URL state exactly if it has an URL, a trusted class and no sealed batch |
| `HistoryRules.PersistTells` | live402/history.py:882-927 | a fresh batch tells its trusted rows in order and is sealed, and persisting or recording for it again changes nothing |
| `HistoryRules.SettleTells` | live402/history.py:930-1010 | settling promotes exactly the batch's tentative probes, tells each once, oldest first, touches no observation, and settling again changes nothing |
| `HistoryRules.CapUrlIff` | live402/history.py:822-828 | a URL keeps exactly the probes with fewer than 500 newer ones of it, and with them their observations |
| `HistoryRules.CapAllIff` | live402/history.py:829-837 | the table keeps exactly the probes with fewer than 50000 newer ones |
| `HistoryRules.CapObsIff` | live402/history.py:519-527 | a URL keeps exactly the observations with fewer than 4000 newer ones of it |
| `CatalogRuns.RunsAreSound` | live402/shadow.py:512-731 | in every reachable state status is retired iff there is a retirement time, no stamp exceeds its source's generation, and replaying the event log gives each resource's and source's current rails |
| `CatalogRuns.StepSound` | live402/shadow.py:614-992 | every catalog operation keeps that |
| `CatalogRuns.ReplaceLogs` | live402/shadow.py:512-591 | replacing claims keeps it that replaying the log gives every resource's and source's current rails |
| `CatalogRuns.ChangesIff` | live402/shadow.py:540-577 | a price or payTo event is logged exactly for the rails with a claim before and after whose first claims differ in it |
| `ClaimEvents.ReplacedClaims` | live402/shadow.py:512-597 | replacing claims stores the new ones for this listing and source alone and logs, each exactly once and nothing else, the rails that came, those that went, and the price and payTo changes between the first claims of a rail |
| `CatalogEvents.UpsertShows` | live402/shadow.py:614-731 | one upsert: active and not retired, the listing's flags and claims, reappeared now exactly if it was retired, an arrival logged exactly if new, a schema change exactly if the flags differ |
| `CatalogEvents.LivesAreLogged` | live402/shadow.py:614-992 | over every run each resource has exactly one arrival in the log, an unknown URL none, and every retirement is logged once |
| `CatalogHistory.SightingsFollowTheRun` | live402/shadow.py:594-611 | over every run a source's row of a listing exists exactly if an act of it stored the listing, bears the time of the last such act, and has a stamp exactly if a page of it held the listing |
| `CatalogHistory.RetiredIff` | live402/shadow.py:945-992 | over every run an active listing is retired by an act exactly if the act ends its source's sweep, the source stored it before but neither in this sweep nor in this page, and no other source served it in a page and last saw it within the horizon |
| `CatalogHistory.RecentlyServedStays` | live402/shadow.py:960-972 | a listing that another source served in a page within the horizon stays active, whatever ends |
| `CatalogHistory.ForgottenIsRetired` | live402/shadow.py:945-992 | one that its source did not serve in the sweep that ends, and every other source only upserted or last saw before the horizon, is retired |
| `CatalogSweep.CoverageIff` | live402/catalog.py:1302-1361 | over every run from a reachable state, with failed and dropped fetches, any limit and distinct listings, a completed sweep has stamped exactly the upstream's listings if and only if its pages hold at most 100 listings and the completing page was not a dropped one |
| `CatalogSweep.CompletedSweepRetiresTheGone` | live402/shadow.py:777-992 | the step that completes a sweep leaves exactly the stored listings up to its end stamped and retires exactly the active ones of the source that are not among them and not exempt |
| `CatalogSweep.CoveringSweepRetiresTheGone` | live402/shadow.py:777-992 | on pages of at most 100 listings and without a dropped last one, whatever the URLs, exactly the upstream's listings are stamped and exactly those that are gone and not exempt are retired |
| `CatalogSweep.ServedIsRetiredIff` | live402/shadow.py:945-992 | a listing the upstream still serves is retired by the completing step exactly when it is active, of the source, not exempt and was not stored, because it stood beyond 100 of its page or after a dropped one |
| `CatalogSweep.LimitAboveThePageSkips` | live402/catalog.py:664-671 | a listing beyond the first 100 of its page is unstamped in every state of the sweep and when it completes |
| `CatalogSweep.DroppedPageRetiresTheServed` | live402/catalog.py:347-376 | one known and served listing and a sweep whose only page is dropped: the listing is retired |
| `CatalogSweep.LongPageIsNotCovered` | live402/catalog.py:664-671 | a page of 101 listings completes a sweep that never stamps the last of them |
| `CatalogSweep.SweepStep` | live402/catalog.py:1302-1361 | a step keeps the sweep going, with the stamped listings exactly the stored ones before the cursor, and a served page moves the cursor by the limit, or it completes |
| `CatalogSweep.BeginSweeps` | live402/shadow.py:915-942 | a new generation starts with no stamped listing |
| `CatalogSweep.TrickleIs` | live402/catalog.py:347-381 | of a served page the first 100 listings are stored, the cursor moves by the upstream's limit, and it is the last page exactly when the cursor reaches the end |
| `SweepStates.SweepMoves` | live402/shadow.py:777-992 | after every operation: which sweep of its source it is, where it goes on, the upstream's reported size, when it began and when one was last completed; the other sources' sweeps stay as they were |
| `CatalogSweep.FinishDoes` | live402/shadow.py:945-992 | retirement takes exactly the active, unstamped and not exempt listings of the source |
| `CatalogSweep.OthersUntouched` | live402/shadow.py:594-611 | need-scoped upserts and everything the other sources do leave a source's stamps and state alone |
| `CatalogSweep.EmptyPageEndsTheSweep` | live402/catalog.py:347-376 | a dropped page arrives empty and without pagination and completes the sweep with what was stored so far |
| `CatalogStore.Catalog.UpsertOne` | live402/shadow.py:614-731 | resource, claims with their events, and the source's row |
| `CatalogStore.Catalog.SwapClaims` | live402/shadow.py:512-591 | the claims are replaced and the rail, price and payTo events appended in order |
| `CatalogStore.Catalog.Ingest` | live402/shadow.py:777-867 | one page with its cursor, and retirement when it is the last |
| `CatalogStore.Catalog.IngestOnePage` | live402/catalog.py:1302-1361 | a sweep is begun if none runs, and a failed fetch changes nothing else |
| `CatalogStore.Catalog.RetireUnseenListings` | live402/shadow.py:945-992 | the loop over the candidates, each checked against the other sources |
| `StableSort.SortLeads` | live402/select.py:1053-1093 | the sort's result is ordered by every leading order its comparator respects, whatever the comparator does among ties |
| `SortStability.SortIsStable` | live402/select.py:1053-1093 | with a comparator that is a weak order, items that compare equal come out in the order they went in |
| `Ranking.FastestWins` | live402/select.py:921-925 | no selectable candidate has a lower known latency than the fastest winner, and no winner means none is selectable |
| `Ranking.MostReliableWins` | live402/select.py:928-938 | none has a higher mature reliability, then weak reliability, then lower known latency |
| `Ranking.BestWins` | live402/select.py:979-993 | no candidate that can be paid is readier, that is, invocable when the winner is not, or with payment options when it has none, or as ready with a higher mature reliability |
| `Ranking.BestIsInvocable` | live402/select.py:766-776 | if any candidate that is ranked and can be paid is invocable, the best winner is |
| `Ranking.LowestTotalCostWins` | live402/select.py:949-961 | none has a lower total cost |
| `Ranking.FastestSettlementWins` | live402/select.py:964-976 | none settles sooner |
| `Ranking.CheapestInOneAssetWins` | live402/select.py:812-838 | among candidates in one asset without a dollar price none needs a smaller amount |
| `Ranking.BestComparatorCycles` | live402/select.py:979-993 | the best comparator orders three payable candidates in a circle, so no total order can be claimed |
| `CompareRules.CompareIff` | live402/select.py:875-1002 | for every objective one candidate is ahead of another exactly as their own figures say, down to the last tie-break and with unknown figures placed as the objective places them |
| `CompareRules.OfTwo` | live402/select.py:1053-1093 | of two candidates that are ranked and can be paid the winner is the second exactly if it is ahead |
| `CompareRules.PassesIff` | live402/select.py:648-712 | exactly the live candidates within every bound are considered |
| `CompareRules.CheapestRankedIff` | live402/select.py:839-872 | ranked for the cheapest are exactly those with a dollar price if there are any, else those of the one asset that all in one asset share, else none |
| `CheapestPays.CheapestPaysLeastIff` | live402/select.py:812-918 | for all candidates with the economics of the source, the cheapest winner pays no more than any dollar price within the bounds exactly when the lock is idle, the bounds leave no room for two prices, or a bound on total cost or settlement lets nobody pass |
| `CheapestPays.LockBreaksCheapest` | live402/select.py:812-838 | for every lock and bounds that matter, two candidates with the economics of the source on which the winner pays more than the other would cost |
| `CheapestPays.NoTotalCost` | live402/economics.py:139-158 | no total cost is known: ranking by it finds no winner, and a bound on it leaves none whatever the ranking |
| `CheapestPays.DollarsRemain` | live402/select.py:839-872 | when any eligible candidate has a fitting dollar price, exactly those candidates are ranked |
| `CheapestPays.PickIsLeast` | live402/select.py:594-645 | the selected payment is the least dollar price among the candidate's fitting options |
| `PaidOption.PaidIff` | live402/select.py:594-645 | for every objective the selected payment is the option that may be paid with the least figure, then the least dollars, then the first in the list, and there is none exactly if no option may be paid |
| `Selection.OptionsForConstraints` | live402/select.py:482-506 | one pass per set bound keeps exactly the options within all bounds, in order |
| `Selection.CheapestComparableSubset` | live402/select.py:839-872 | the loop keeps the dollar candidates, else those of the one asset, else none |
| `Amounts.CanonicalIff` | live402/payment.py:938-954 | exactly one text is read as each amount up to 2^63 - 1: its decimal digits without a leading zero; every other text is refused |
| `EnvelopeGate.GateIff` | live402/payment.py:1219-1274 | the gate lets through exactly the validated entries of a versioned envelope's list |
| `EnvelopeGate.PickedPassesGateIff` | live402/payment.py:868-910 | an option that can be picked passes the gate exactly when the envelope has an integer version and a list |
| `EnvelopeGate.GateAddsOnlyTwins` | live402/payment.py:825-842 | beyond them the gate passes only entries that share rail, network, asset and amount with one that can be picked |
| `EnvelopeGate.TextVersionedPickIsRefused` | live402/payment.py:1219-1240 | an envelope whose version is there but no literal integer, around an accept that brings its own: the option can be picked and the gate refuses it |
| `EnvelopeGate.PaymentOptions` | live402/payment.py:868-910 | the observed options: validated, in order and deduplicated, from the first declared list, or one made from the top-level fields |
| `EnvelopeRules.ValidatedIff` | live402/payment.py:1114-1172 | exactly these accepts are validated, field by field, and to exactly this option |
| `EnvelopeRules.DedupeLast` | live402/payment.py:833-842 | deduplication keeps an option exactly if no earlier one shares rail, network, asset and amount, in order |
| `EnvelopeRules.OptionsComeFrom` | live402/payment.py:868-910 | options come from the first declared list of envelope, target and result, a declaration that is no list gives none, and the made-up accept counts only when none is declared |
| `PickedPayment.PickedPaymentPasses` | live402/select.py:715-757 | the selected payment passes the envelope gate exactly when the envelope has an integer version and a list, and the final option check of an eligible candidate exactly when its own cost and settlement time are within the bounds |
| `PickedPayment.WinnersPaymentPasses` | live402/select.py:715-757 | the winner is an eligible candidate whose selected payment passes both gates, on such an envelope and without those two bounds |
| `PickedPayment.RankedBoundIsMet` | live402/select.py:594-645 | ranking by total cost or settlement time picks an option within the bound on it whenever a considered option is |
| `WinnerGate.SettledPaymentIsValidated` | live402/route.py:314-341 | when the facilitator is asked to settle, whatever the probe returned, the selected payment is a validated entry of the result's own envelope with an integer version, within all bounds of the caller, and pays the payee the envelope names first |
| `WinnerGate.GateOpensIff` | live402/route.py:314-341 | for a picked payment the final gate opens exactly for an https URL, an envelope with an integer version and a list, the payment's own cost and settlement time within the bounds, and the first payee |
| `GateRules.OpensIff` | live402/route.py:314-341 | for any result and any selected payment the final gate opens exactly when the URL is https, the result is live, within the bounds and without an unaccepted payee change, and the payment is a validated entry of the versioned envelope's list and one of the candidate's own, is affordable figure by figure, and pays the address that the list names first, compared as its rail compares |
| `WinnerGate.PickedIsSettledIff` | live402/route.py:411-510 | a request in order otherwise makes its settle call exactly under those conditions |
| `WinnerGate.SecondPayeeIsRefused` | live402/route.py:336-338 | an envelope with two payees whose cheaper option is the second one's: it is picked and the gate refuses it |
| `EnvelopeGate.MatchesCurrentEnvelope` | live402/payment.py:1219-1274 | the gate's loop |
| `EnvelopeGate.DedupeKeeps` | live402/payment.py:833-842 | deduplication loses no rail, network, asset and amount and makes nothing up |
| `Shortlist.BoostIsCareful` | live402/probe.py:2302-2384 | reordering is a permutation, keeps the tail, puts preferred items first in its window, and never one before another of its group with a need score at least 20 higher |
| `Shortlist.EqualScoresByHistory` | live402/probe.py:2350-2380 | items of one group and equal score stand by history, then as ranked |
| `ShortlistRules.HistoryIsFollowed` | live402/probe.py:2350-2380 | an item stands before one of its group with a better history only if some item of the group with no lower score than the first has at least 20 more than the second |
| `ShortlistRules.RowSays` | live402/probe.py:2302-2349 | what a row says of the store's hint: bands of five minutes, an hour and a day, ten checks for a mature and three for a weak history |
| `Shortlist.ReorderGroup` | live402/probe.py:2350-2380 | the cluster loop |
| `Shortlist.HistoryBoostShortlist` | live402/probe.py:2302-2384 | the reordered window and the tail, and the input itself without hints |
| `SlotProtocol.PermitsAreBounded` | live402/probe.py:218-276 | with lookup and try-acquire as one step, in every reachable state at most 10 permits are out and 2 per host, each host semaphore is 2 minus its holders, and the cache stays within 256 hosts |
| `SlotProtocol.ReleaseReturnsToTheAcquired` | live402/probe.py:336-349 | a held host's semaphore is never evicted: release finds the one acquired, and the overflow semaphore is never touched |
| `SlotProtocol.BlockedIsFreed` | live402/probe.py:300-349 | in every reachable state a blocked thread holds no permit, all permits are out, and any holder frees one for it within three steps of its own: no deadlock |
| `SlotProtocol.PermitsComeBack` | live402/probe.py:300-349 | whatever the other threads do in between, a thread's third step with a permit has given it back |
| `SlotProtocol.RunsAreSafe` | live402/probe.py:218-349 | the invariant behind them, over every run of any number of threads |
| `SlotEviction.HostsBoundedIff` | live402/probe.py:257-333 | with lookup and try-acquire as two steps, at most two permits of a host are out in all runs over a set of hosts exactly when there are at most 256 of them |
| `SlotEviction.ThreeHold` | live402/probe.py:257-276 | a run over 257 hosts after which three threads probe one host |
| `LookupRefines.LookupIsTouch` | live402/probe.py:257-276 | the lookup over shared semaphore objects is that of the cache that owns them: the same entries in the same order, the same evictions, and the host's own semaphore or the shared one |
| `LookupRefines.TakeAndGive` | live402/probe.py:300-349 | taking and giving back a cached host's semaphore change that entry by one and nothing else |
| `SlotLookups.FewHostsAreBounded` | live402/probe.py:257-333 | over at most 256 hosts no host is evicted and no run has three permits of one out |
| `SlotLookups.PermitsAreCounted` | live402/probe.py:300-349 | over any hosts, in every reachable state the process-wide permits that are out and those left are 10 together |
| `SlotProtocol.LookupKeeps` | live402/probe.py:257-276 | a lookup keeps the counts and never needs the overflow semaphore |
| `Slots.ProbeSlots.HostSemaphore` | live402/probe.py:257-276 | the cache after lookup, eviction and creation, and whether the host has its own semaphore |
| `Slots.LookupIs` | live402/probe.py:257-276 | a cached host moves to the end with its semaphore, a new one joins there with two permits, in a full cache in the place of the least recently used host that nobody holds, and shares the overflow semaphore exactly when all are held |
| `Slots.ProbeSlots.TryAcquire` | live402/probe.py:317-333 | one round without waiting: acquired exactly when a process permit is free and the host admits, and a busy host leaves the permits as they were |
| `Slots.ProbeSlots.EnterHost` | live402/probe.py:321-333 | the host's permit is taken, or the process permit goes back at once |
| `Slots.ProbeSlots.ReleaseProbeSlot` | live402/probe.py:336-349 | both permits go back |
| `RateWindow.WindowHoldsLimit` | live402/server.py:112-159 | any stretch of calls shorter than one window holds at most the limit of admitted calls of a key not evicted in it |
| `RateWindow.AdmittedExactlyBelowLimit` | live402/server.py:139-159 | for a key never evicted a call is admitted exactly when the window before it holds fewer admitted calls than the limit |
| `RateEviction.AdmittedIff` | live402/server.py:120-159 | for a key never evicted a call is admitted exactly if the limit is positive and fewer than that many of its admitted calls are less than a window old |
| `RateEviction.DropsIff` | live402/server.py:120-159 | a live key is dropped exactly when a call for a key that is not there finds the map full of live keys, and then it is the first one |
| `RateEviction.CalledIsNewest` | live402/server.py:120-159 | with a positive limit every call, a rejected one too, leaves its key the newest of the map with its recent hits, and nothing else moves unless the map is full without the key |
| `RateWindow.RejectedUseNothing` | live402/server.py:139-159 | a rejected call evicts no key and changes no key's recent hits |
| `RateWindow.StaysBounded` | live402/server.py:127-159 | the map never exceeds its maximum and has no key twice |
| `RateLimit.RateLimiter.Allow` | live402/server.py:139-159 | admission and the new map |
| `RateLimit.RateLimiter.Evict` | live402/server.py:127-137 | stale keys are pruned in order until there is room, then the oldest live ones go |

## Left out

- ReplayProtocol.SettledAtMostOnce: the fingerprint of a payload and the hash of a fingerprint are any functions; that different spellings of one authorization give one fingerprint is shown for Solana and Algorand; the normalized fields of Base authorizations are left out.
- ReplayProtocol.RunsAreSafe: a ledger write either happens or fails as a whole, and a settle call is one step; a transaction that sqlite leaves open after an error is not modelled.
- ReplayAgreement.PersistedOutcomeIsTheAnswer: the lookup succeeds; a failed read refuses, which the step machine covers.
- Outcomes.DecodeEncode: JSON text is any pair of functions with loads after dumps the identity; the status field of a stored outcome is an integer.
- Outcomes.CleanseIdempotent: floats are their printed text.
- WaitingRuns.JoinersGetTheAnswer: a waiter whose deadline passes before the owner finishes is refused, which the step machine allows at any time.
- LegacyRuns.LegacyAnswersOnly: fingerprints whose durable hashes collide.
- LedgerTruth.LedgerTellsWhatMoved: an execution that died or raised leaves its row open or unknown whatever happened to the money; rows that were there before the run are not its own.
- LedgerClass.PersistedStateTruth: rails are the three supported ones; an unhashable rail value in a body, which raises, does not occur.
- PaidRoute.RouteExecution.PaidExecute: verify, probe, settle and the trust attachment are parameters, and the gate's checks beyond the status are one flag.
- PaidRoute.SettleIsGuarded: what that flag stands for is in `WinnerGate`.
- WinnerGate.SettledPaymentIsValidated: the scheme of the URL is a flag, and bounds that are neither about rail, price, cost nor settlement are one flag of a candidate.
- AlgoReplay.WrappersDoNotCount: base64 around the members and base32 around the ids.
- AlgoTx.MsgpackEncode: list items are bytes or integers; texts with lone surrogates, which raise in the source, do not exist here.
- AlgoTx.GroupMembersCarryTheirId: the hash is any function and the base64 around the members is left out.
- AlgoTx.BuiltGroupCarriesItsId: the hash is any function with results of 32 bytes, and a genesis hash from the network is shorter than 256 bytes.
- GroupPays.BuiltGroupPays: the hash is any function; the addresses and the genesis hash are bytes, their base32 and base64 texts are left out.
- MsgPack.MpRead: reading without strict mode, with signed integers, bools, nil and 32-bit sizes.
- UrlHistory.MoveTakesTwo: address comparison and price comparison are any functions; all observations of the URL are on one rail, because the comparison depends on it.
- HistoryStore.Store.WriteProbeRow: the flags returned to the caller, the source and rail columns of observations, and the trust class of observations, which no modelled operation reads.
- HistoryStore.Store.RecordProbe: the flags returned to the caller, the catalog's verification clock, and the default timestamp.
- HistoryStore.Store.PersistRouteBatch: the flags returned per URL and copied into the results.
- HistoryStore.Store.AttestationFor: the choice of the latest batch of a URL and the creation time.
- HistorySettle.SettlingLaterIsTrusting: the time of the last price change, which depends on envelope details that the probes table does not keep.
- HistoryBatches.AttestationIsStable: the digest is any function of the rows; the choice of the latest batch and the time of the first row are left out.
- CatalogRuns.RunsAreSound: the event log is not trimmed to its newest 5000 rows; text fields, hashes and the full-text index of a resource are left out.
- CatalogHistory.RecentlyServedStays: the clock does not go back between the operations; the other lemmas there do not need that.
- CatalogStore.Catalog.UpsertOne: names, descriptions and the other text fields of a resource, its row hash and the full-text index.
- CatalogSweep.CoverageIff: an upstream that changes while it is swept, and one that pages by something else than offset and limit.
- CatalogSweep.CompletedSweepRetiresTheGone: unknown sources and addresses that are not allowed are refused before anything and do not occur; sqlite leaves the order of retirement events open, here they are in URL order.
- StableSort.SortLeads: lists of 64 items and more, which Python merges from several runs; a request probes at most 20 candidates.
- Selection.OptionsForConstraints: candidates list options that are already validated and deduplicated; bounds that are not about rail or price are one flag of a candidate.
- Ranking.LowestTotalCostWins: the economics of candidates and options are given; the source's tables know no fee in dollars at present, so that no total cost is ever known there (`CheapestPays.NoTotalCost`).
- PaidOption.PaidIff: the economics that the source attaches to the selected payment afterwards.
- PickedPayment.RankedBoundIsMet: says nothing about total cost today, for the same reason.
- CheapestPays.CheapestPaysLeastIff: dollar prices are exact, not binary floats.
- EnvelopeGate.PickedPassesGateIff: texts are trimmed and missing when blank; address and asset tests are any functions.
- SlotProtocol.PermitsAreBounded: lookup and try-acquire are one step; what happens between them is in `SlotLookups` and `SlotEviction`. The counter of running probes and its peak are left out.
- RateLimit.RateLimiter.Allow: the eviction after an admitted call, which cannot be reached, and the refusal on an internal error.
- The tranche loop of a request, the first ranking of catalog items by need score and the query walk over first pages: loops that stop at fixed ceilings.
- Sockets, TLS, DNS, redirects, facilitator requests, thread pools and clocks: their results are parameters or steps.
- Column migration, file modes, the identity cutover and the legacy hash formats of the ledger.
- Discovery documents, the site, MCP, packaging and scripts.
- Policy text, fee tables, deadlines and reputation weights: short arithmetic.
