# A verified model of the Taifoon solver

The solver watches cross-chain intents, fills the profitable ones, claims its reward and accounts for what it
earned. This project models its stateful and arithmetic core in Dafny and proves what that core keeps.

| file | models |
|---|---|
| `common.dfy` | optional values, text scanning, reading and writing numbers, truncating division |
| `wallet.dfy` | the wallet ledger: intent states, reservations, revenue |
| `guards.dfy` | intents, spread, message, deadline and deposit-id guards |
| `builders.dfy` | what the Across builders and the Solana lanes ask of an intent |
| `lifecycle.dfy` | one fill run as a script of wallet moves, submissions and log rows, given every outside answer |
| `lifecycle_proofs.dfy` | the legal order of steps as an independent automaton, the budget, the recorded state, the log, what reaches the wire |
| `fills.dfy` | what a deBridge, Mayan, operator or Solana fill has been through, and sending a finished intent again |
| `enrichment.dfy` | the lookup of a deposit, undoing whatever the event left out of it |
| `settlement.dfy` | what a reported fill rests on, when the record agrees with the chain, and what a run leaves alone |
| `reasons.dfy` | why a run ended as it did |
| `claims.dfy` | the claim and retry state machine, and what is earned |
| `solvency.dfy` | the budget over whole histories of runs and claims |
| `controller.dfy` | the controller object that acts on the wallet and the log in place, proved against the scripts |
| `sse.dfy` | the event-stream reader over arbitrary chunks |
| `dedup.dfy` | the consumer's bounded memory, loop and counters |
| `poller.dfy` | the block-window scanner, and which orders it emits |
| `abi.dfy`, `dln_orders.dfy` | the head/tail encoding of the Contract ABI Specification, and the hand-written order decoder |
| `calendar.dfy`, `iso_time.dfy` | closed-form day counting against RFC 3339, section 5.7 and Appendix C, and reading ISO times |
| `lexicographic.dfy`, `canonical_json.dfy` | slice order and canonical JSON |
| `hex.dfy` | the spellings of a signature |
| `attestations.dfy` | attestations, their canonical JSON, the hash chain |
| `low_s.dfy` | the low-s check against SEC 2, section 2.4.1 |
| `adapters.dfy` | naming the adapter that earns a fill's donut |
| `donut.dfy`, `adjudicator.dfy` | redistribution in 64-bit arithmetic, attesting, verifying, the registry |
| `mempool.dfy` | the in-flight set under every interleaving of watchers and timers |

Whatever a run learns from outside (RPC nodes, the spinner, Solana, clocks, prices, receipts) is a parameter, and
the lemmas quantify over all of it. The script of a run is a pure function; the controller class performs the same
steps in place and is proved to do exactly what the script says, so lemmas about the script are lemmas about the
controller. Hashing and signatures are parameters with the stated ideal properties.

`dafny verify dfyconfig.toml` checks everything.

## Findings

Where the code does not do what its comments or its callers expect, the exact condition is proved:

- A live run against an RPC URL that does not parse returns an error and keeps its reservation
  (`LifecycleProofs.NoLeakIffUrlsParse`).
- A run never looks at the recorded state: on every wired chain a live controller can send an order it has already
  claimed (`Fills.TerminalNotResentIff`), and a second run can take a CONFIRMED intent out of reach of its claim
  (`Claims.ConfirmedKeptIff`, `Claims.RerunForfeitsClaim`).
- A fill mined while its receipt could not be had is recorded REVERTED and never claimed
  (`Settlement.RecordAgreesIff`, `Claims.UnheardFillForfeits`); a claim mined unheard can be submitted again
  (`Claims.ClaimAgreesIff`).
- A negative reservation lets the budget be overdrawn (`Wallet.NegativeReservationOverdraws`).
- The deadline guard keeps the low 32 bits of the clock (`Guards.DeadlineGuardExact`).
- The pre-check and the builders can read different deposit ids when the last part that yields one has a slash in it
  (`Guards.ReadingsAgreeIff`, with two such ids in `Guards.SlashDisagreement`).
- The consumer's documentation promises to drop the oldest intent on overflow; the code drops the new one, and a
  replay does not recover it inside the window (`Dedup.ReplayRefusedIff`).
- An order log cut inside the external call decodes as if there were none, so the guard against external calls
  does not see it (`DlnOrders.CutCallReadsAbsent`). Numbers wider than 64 and 128 bits are silently cut
  (`DlnOrders.RoundTripIff`).
- Deadlines with a UTC offset other than zero are read as if it were zero (`IsoTime.OffsetIgnored`).
- The comment on the redistribution constants says verification re-derives the shares; it only checks their sum
  (`Adjudicator.SplitNotChecked`). With an overflowing donut the builder can get nothing and verification accepts
  (`Adjudicator.OverflowStarvesBuilder`). A registered adapter with no reviewers has a share nobody receives
  (`Adjudicator.WhoIsPaid`).
- A signature has several accepted spellings with different chain hashes (`Adjudicator.AcceptedRespelled`,
  `Attestations.SpellingDecidesChain`).
- A mark lasts its TTL only if no earlier timer of the id is pending; marking again does not extend that one
  (`Mempool.MarkLastsIff`).

## Model

| member | source | states |
|---|---|---|
| LifecycleProofs.LegalLifecycle | crates/executor/src/lambda_controller.rs:93-1456 | every run, for every configuration, wallet, intent and set of answers, walks detected, profitability check, optional proof fetch, calldata build, broadcast, optional pending confirmation, then one end state; nothing but the release and one fitting log row follows it, and the outcome returned decides which end state, hash and row it was |
| Controller.LambdaController.LambdaExecute | crates/executor/src/lambda_controller.rs:93-1456 | the in-place controller does to wallet, log and trace exactly what the script says, from any wallet, on the intent completed from the deposit (which is `Enrichment.LookupRestores`); a run that returns a verdict leaves the reservations as before when the intent held none; one executed row per confirmed fill, none otherwise; its part of the trace is legal |
| LifecycleProofs.BudgetRestored | crates/executor/src/lambda_controller.rs:93-1456 | after any verdict every other intent's reservation is untouched and this intent's is as before or gone; with none held before, the reservations are unchanged exactly when the run did not stop at an unparsable RPC URL, which leaves the hold in place |
| LifecycleProofs.NoLeakIffUrlsParse | crates/executor/src/lambda_controller.rs:1311-1318 | no run of any intent under any answers leaks a reservation exactly when the controller is dry or every wired RPC URL parses |
| LifecycleProofs.RecordedState | crates/executor/src/lambda_controller.rs:1695-1705 | the wallet state after a run is the one its outcome stands for, with the hash of the fill, unless the record was already terminal, and then nothing changes |
| LifecycleProofs.ConfirmedRecordedIff | crates/executor/src/lambda_controller.rs:1416-1427 | a fill reported as confirmed is recorded CONFIRMED exactly when the intent was new or not yet terminal |
| Fills.TerminalNotResentIff | crates/executor/src/lambda_controller.rs:153-170 | no run submits anything for an intent already in a terminal state exactly when the controller is dry or the destination is not wired: on every wired chain a live controller can send again a Solana order it has recorded CLAIMED |
| LifecycleProofs.ExecutedRowIffFilled | crates/executor/src/lambda_controller.rs:1387-1455 | one executed row with the fill's hash for every run returning a confirmed fill, at every broadcast site, and none for any other run |
| LifecycleProofs.SpokePoolFillIff | crates/executor/src/lambda_controller.rs:933-1011 | a run submits a direct SpokePool fill exactly when it is live, within the cap, wired without an operator, reserved, completed (which is `Enrichment.LookupRestores`), claimable, outside foreign exclusivity, without message, at least 30 s before its deadline, with a spread of at least one in ten thousand whenever the guard can judge it, paying in native coin or out of a balance that covers it, with readable addresses, calldata, estimate and native value; then it submits the completed intent to the chain's SpokePool |
| Enrichment.LookupRestores | crates/executor/src/lambda_controller.rs:432-503 | whatever of a deposit's nine fields an event lacks, a run that looks the deposit up, by a real transaction hash or else by its id, works on the deposit as it was made: what it submits pays the deposit's recipient the deposit's amount of the deposit's token, and a direct SpokePool fill is sent exactly when that deposit may be filled |
| Enrichment.WithoutLookup | crates/executor/src/lambda_controller.rs:432-503 | without need or means of a lookup a run submits the intent as it came; a lookup nobody answers ends the run without a submission |
| Reasons.VerdictIsTrue | crates/executor/src/lambda_controller.rs:93-1456 | every verdict a run returns is true: a skip's reason holds of the intent it worked on, a failed stage did fail, and a fill's hash and gas are the receipt's, or the Solana signature and its units |
| Fills.DlnFillIff | crates/executor/src/lambda_controller.rs:262-377 | a run fulfils a deBridge order on an EVM chain exactly when it is live, capped, wired and reserved, not reserved for another taker, carries no call, has an exact spread of one in ten thousand and the balance to pay, goes to a known DLN destination, and its estimate is green with no hidden revert |
| Fills.MayanFillIff | crates/executor/src/lambda_controller.rs:565-610 | a run sends a Mayan Swift fill exactly when it is live, capped, wired and reserved, names a recipient and a full order id, is half a minute from its deadline, has auction mode zero and a green estimate |
| Fills.OperatorFillIff | crates/executor/src/lambda_controller.rs:196-420 | a fill goes through the Universal Operator exactly when the live run is capped, wired and reserved, the spinner's test run is profitable at or above the threshold, a proof is there under some key, the Across checks pass, the relay's addresses read, a deposit id resolves, and calldata, estimate and native value are in order |
| Fills.SolanaFillIff | crates/executor/src/lambda_controller.rs:620-905 | a fill is sent on a Solana lane exactly when the live run was cleared and the lane's own needs are met (program deployed, auction mode zero, the intent projects onto the lane's order, key), and then it is the completed intent on the lane that takes it |
| LifecycleProofs.LaterRunsAgreeIff | crates/executor/src/lambda_controller.rs:432-503 | every later run of a completed intent works on that same intent, whatever it is answered, exactly when no lookup was needed at first or the deposit supplied the deadline, the output amount and the deposit id where they were missing |
| LifecycleProofs.AcrossClear | crates/executor/src/lambda_controller.rs:933-1060 | on the direct lane the Across checks let through exactly the intents with no message, a live deadline, an exact spread, the balance to pay and, for Across, an EVM depositor and a deposit id |
| LifecycleProofs.ExecuteSubmission | crates/executor/src/lambda_controller.rs:96-170 | nothing is submitted before the cap, the wiring, the record and the reservation have been passed |
| LifecycleProofs.CheckSubmission | crates/executor/src/lambda_controller.rs:172-620 | what a run submits is what its dispatch submits for the completed intent, and only if every earlier check approved |
| LifecycleProofs.DispatchSubmission | crates/executor/src/lambda_controller.rs:620-1350 | an intent a Solana lane takes is submitted, on that lane, exactly when the lane is clear; any other on its EVM lane exactly when the EVM checks are clear |
| Settlement.SingleSubmission | crates/executor/src/lambda_controller.rs:670-1350 | no run submits two transactions |
| Settlement.FilledIffLanded | crates/executor/src/lambda_controller.rs:670-1455 | a run reports a fill exactly when it submitted a transaction and the chain answered that it went through, under the hash of that answer; a missing or reverted receipt is never a fill |
| Settlement.RecordAgreesIff | crates/executor/src/lambda_controller.rs:1355-1395 | the wallet's record of a submitted intent agrees with what was mined exactly when the run heard back or nothing was mined: a fill mined while its receipt could not be had is recorded REVERTED |
| Settlement.RecordedFacts | crates/executor/src/lambda_controller.rs:153-162 | a run changes nothing but its own intent's record and hold: no other intent and no revenue; a new intent is recorded with its destination and its value in dollars unless it is over the cap, unwired or not recordable, and an intent already recorded keeps those it was recorded with |
| Controller.LambdaController.FetchProof | crates/executor/src/lambda_controller.rs:379-420 | the proof is the one under the first key that has one, tried in the code's order; none is returned only if no key has one |
| Controller.LambdaController.SolanaLane | crates/executor/src/lambda_controller.rs:620-905 | the four Solana lanes run as the script says, checks in the code's order |
| Controller.LambdaController.AwaitReceipt | crates/executor/src/lambda_controller.rs:1355-1455 | a missing receipt, a revert and a success move the intent, log and release as the script says |
| Controller.ExecutedInLog | crates/executor/src/lambda_controller.rs:1727-1761 | the executed rows of the log are those of the trace, in order, each carrying its hash |
| Guards.AcrossSpreadExact | crates/executor/src/lambda_controller.rs:2204-2235 | when both amounts parse, the input is not zero and the output is at most a thousand times it, the guard passes exactly the fills whose spread is at least 0.01 % in exact arithmetic; otherwise it passes everything |
| Guards.DebridgeSpreadExact | crates/executor/src/lambda_controller.rs:280-330 | the deBridge spread check passes exactly the orders whose take is below the give by at least one part in ten thousand, whenever the two are comparable |
| Guards.TakerGuardExact | crates/executor/src/lambda_controller.rs:264-280 | for well-formed addresses the taker guard refuses exactly the orders reserved for a nonzero address other than the solver's, whatever case or leading zeros |
| Guards.CarriesCallIff | crates/executor/src/lambda_controller.rs:286-298 | a deBridge order carries a call exactly when some digit of the call is not zero |
| Guards.KnownProtocols | crates/executor/src/lambda_controller.rs:181-183 | each known protocol, in any letter case, is taken for itself alone, except that Mayan Flash is also a Mayan protocol |
| Guards.DeadlineGuardExact | crates/executor/src/lambda_controller.rs:2251-2264 | the guard means at least 30 seconds ahead, for every deadline, exactly while the clock plus the margin fits in 32 bits |
| Guards.CoarseImpliesLegacy | crates/executor/src/lambda_controller.rs:984-995 | whenever splitting on colon and underscore finds an integer, the builders' split on colon, underscore and slash finds one too, and the same one if there is no slash |
| Guards.PrecheckSound | crates/executor/src/across_executor.rs:354-359 | an intent admitted by the deposit-id pre-check always resolves to a deposit id in the calldata builders |
| Guards.ReadingsAgreeIff | crates/executor/src/across_executor.rs:570-574 | pre-check and builders read the same id exactly when no part between colons and underscores has an integer among its slash-separated pieces, or the last such part has no slash, or the parts before it happen to end in the same number |
| Guards.DepositIdWritten | crates/executor/src/across_executor.rs:354-357 | the deposit id the builders write is the intent's own, or else the last integer part of the intent's id, or else that of its transaction hash |
| Guards.FineRefinesCoarse | crates/executor/src/across_executor.rs:570-574 | the builders' split is the pre-check's split with every part split further |
| Guards.CleanPartSurvives | crates/executor/src/across_executor.rs:570-574 | a part free of the finer delimiters is still a part of the finer split |
| Wallet.WalletManager.RecordDetected | crates/wallet-manager/src/lib.rs:212-258 | inserts exactly the new record, detected, with its chain and value, and leaves a table that has the id alone |
| Wallet.WalletManager.Transition | crates/wallet-manager/src/lib.rs:263-318 | refused, and changing nothing, exactly for unknown records and the five terminal states; otherwise moves the state, keeps chain, value and the hash unless one is given, and drops the reservation on entering a terminal state |
| Wallet.WalletManager.Reserve | crates/wallet-manager/src/lib.rs:323-357 | holds the amount once per intent, raising the reserved total by exactly it, and refuses exactly when the total would pass the budget |
| Wallet.WalletManager.TotalReserved | crates/wallet-manager/src/lib.rs:333-342 | the sum over all reservations |
| Wallet.WalletManager.Release | crates/wallet-manager/src/lib.rs:385-392 | drops this intent's hold and nothing else |
| Wallet.WalletManager.RecordRevenue | crates/wallet-manager/src/lib.rs:396-407 | enters exactly this profit for this intent in the revenue table, replacing what was there, and drops its hold; other entries stay |
| Wallet.WalletManager.ReleaseStaleReservations | crates/wallet-manager/src/lib.rs:368-380 | drops exactly the aged holds of recorded intents that are neither CLAIM_PENDING nor CLAIMED, and says how many |
| Wallet.WalletManager.ListIntents | crates/wallet-manager/src/lib.rs:457-487 | returns only intents in the asked state, as many as there are up to the clamped limit |
| Wallet.ListingComplete | crates/wallet-manager/src/lib.rs:463-474 | a listing misses a matching intent exactly when more match than the limit |
| Wallet.NeverOverdrawn | crates/wallet-manager/src/lib.rs:320-407 | over any sequence of wallet operations the reserved total stays within the budget, provided no negative amount is reserved |
| Solvency.HistoryNeverOverdraws | crates/executor/src/lambda_controller.rs:153-170 | over any history of fill runs, claims and expiries on one wallet, with any answers, the budget is never overdrawn as long as no intent is priced below zero |
| Wallet.NegativeReservationOverdraws | crates/wallet-manager/src/lib.rs:344-350 | the sign condition is needed: after any negative reservation and its release another intent holds more than the budget |
| Claims.ClaimHistory | crates/executor/src/lambda_controller.rs:1459-1693 | over any sequence of claims with any failures a CONFIRMED intent stays CONFIRMED, CLAIM_PENDING or CLAIMED, is claimed at most once and CLAIMED then and only then, only after a successful receipt, earns at most once, and never rests in CLAIM_PENDING after a submission |
| Claims.CallRevenue | crates/executor/src/lambda_controller.rs:1459-1693 | a claim goes through exactly when the listing shows the intent, a live controller can build and submit it, and the receipt reports success; then the revenue table holds the measured fee for that intent, unless it was a deBridge claim and the fee is not positive; any other call leaves the table unchanged |
| Claims.RevenueHistory | crates/executor/src/lambda_controller.rs:1459-1693 | over any sequence of claims with any failures, an open intent's revenue entry is in the end the fee of the one call that completed its claim, or, if none did or that was a deBridge claim without a positive fee, what it was before |
| Claims.ClaimAgreesIff | crates/executor/src/lambda_controller.rs:1607-1640 | after a call that submitted a claim the record agrees with what was mined exactly when the call heard back or nothing was mined; a claim mined unheard leaves the intent CONFIRMED and claimable a second time |
| Claims.NeverClaimed | crates/executor/src/lambda_controller.rs:1538-1570 | an intent in any other state is never submitted, never earns and never changes, whatever else is claimed |
| Claims.RestsConfirmed | crates/executor/src/lambda_controller.rs:1617-1640 | from CONFIRMED no sequence of claims leaves an intent in CLAIM_PENDING: every failure rolls back |
| Claims.CallMoves | crates/executor/src/lambda_controller.rs:1538-1693 | one call changes at most its own intent: to CLAIMED with the claim's hash and no hold when done, back to CONFIRMED when it submitted and failed, not at all otherwise |
| Claims.ConfirmedKeptIff | crates/executor/src/lambda_controller.rs:93-170 | a CONFIRMED intent stays CONFIRMED under every possible second run exactly when its destination is not wired |
| Claims.UnheardFillForfeits | crates/executor/src/lambda_controller.rs:1355-1375 | a fill whose receipt could not be had is never claimed, whatever is claimed later |
| Controller.LambdaController.IsListed | crates/executor/src/lambda_controller.rs:1541-1556 | the listing shows only claimable intents, and all of them while at most 1000 are in each state |
| Controller.LambdaController.LambdaClaim | crates/executor/src/lambda_controller.rs:1459-1536 | the in-place claim, on the destination chain of the listed record, does to the wallet what its script says; the revenue table gets exactly the fee for this intent when the claim goes through, and is unchanged otherwise |
| Controller.LambdaController.LambdaClaimDebridge | crates/executor/src/lambda_controller.rs:1538-1693 | the in-place claim does to the wallet what the script says, for an intent the listing shows; the revenue table gets exactly the fee for this intent when the claim goes through and the fee is positive, and is unchanged otherwise |
| Sse.ChunkingIrrelevant | crates/genome-client/src/lib.rs:2002-2032 | with no discard, the events and the leftover depend only on the concatenated text, never on how it was cut |
| Sse.CleanIffFits | crates/genome-client/src/lib.rs:2010-2016 | a text survives every way of cutting it exactly when each event and the unfinished rest fit the buffer |
| Sse.LeftoverBounded | crates/genome-client/src/lib.rs:2002-2032 | in every run, discards or not, the leftover holds no blank line and is no longer than 512 KiB or the last chunk |
| Sse.SplitConcat | crates/genome-client/src/lib.rs:2018-2021 | cutting a text and then its continuation is cutting the whole |
| Sse.SseReader.Feed | crates/genome-client/src/lib.rs:2006-2031 | the in-place loop takes exactly the events of buffer plus chunk, and discards exactly on overflow |
| Sse.SseReader.ReadStream | crates/genome-client/src/lib.rs:2002-2032 | over a whole connection without discard the reader returns the events of the concatenated text and keeps its rest |
| Sse.FindSeparator | crates/genome-client/src/lib.rs:2019-2019 | the first blank line, or none |
| Dedup.BoundedDedupeState.CheckAndInsert | crates/genome-client/src/hardened_consumer.rs:88-101 | answers seen exactly when the id is among the last accepted ones, as many as the cap (one if the cap is zero); set and queue keep the same distinct ids, never more than that many |
| Dedup.RunSpaced | crates/genome-client/src/hardened_consumer.rs:176-193 | over a whole run an id is forwarded twice only if at least cap other ids were accepted in between |
| Dedup.ReplayRefusedIff | crates/genome-client/src/hardened_consumer.rs:190-204 | an accepted id that comes again is refused as a duplicate exactly while its last acceptance is inside the window, even if the channel was full and dropped it the first time |
| Dedup.BalancedReceive | crates/genome-client/src/hardened_consumer.rs:176-212 | every received intent is counted exactly once as duplicate, dropped or quoted, or is the one that stopped the loop |
| Dedup.ForwardedIff | crates/genome-client/src/hardened_consumer.rs:176-212 | over any run each received id is forwarded exactly when the loop has not stopped, the id is outside the window and the channel took it; it is counted as dropped exactly when the channel was full, as duplicate exactly inside the window, and the loop stops exactly at a closed channel; a new id is remembered whatever the channel answers |
| Dedup.HardenedConsumer.Run | crates/genome-client/src/hardened_consumer.rs:176-212 | the loop forwards what the history says, in order, and stops at the first closed channel |
| Poller.AdvanceAccounted | crates/genome-client/src/lib.rs:837-857 | after every poll each block from the first scanned one up to the last is covered by a successful query or given up, and only blocks more than five batches behind the head are given up |
| Poller.FirstScan | crates/genome-client/src/lib.rs:837-857 | the first poll of a chain covers exactly the last batch of blocks up to the head |
| Poller.AdvanceLossless | crates/genome-client/src/lib.rs:837-846 | a poll gives nothing up exactly when the head is at most five batches past the last scanned block |
| Poller.DeBridgePoller.Poll | crates/genome-client/src/lib.rs:830-887 | a failed head or log request changes nothing; otherwise the window advances, and the poll emits exactly the orders of its logs that were unseen before and could be filled when first sighted |
| Poller.DeBridgePoller.EmitNew | crates/genome-client/src/lib.rs:859-887 | an id is emitted by a call exactly when it was unseen before and the first decoded log that carries it can be filled; everything emitted so far is those ids, each once, in the order of their first sightings |
| Poller.DeBridgePoller.Run | crates/genome-client/src/lib.rs:829-893 | over any polls in any order with any failures, an order is emitted if and only if its first sighting in the whole run could be filled, each once, in the order of those sightings; coverage is never lost |
| Poller.FirstFillableSum | crates/genome-client/src/lib.rs:859-887 | over two stretches of logs the first stretch that has an order decides whether it is emitted |
| Abi.TupleLayout | tools/create_debridge_self_fill_order.py:84-120 | in an encoded tuple every head word and every tail lies where the head/tail rule puts it |
| Abi.WordReads | crates/genome-client/src/lib.rs:1078-1081 | reading a 32-byte word keeps the low 64 or 128 bits of the number in it |
| Abi.ReadBytesRelative | crates/genome-client/src/lib.rs:1084-1098 | the slot-by-slot copy yields the length-prefixed bytes, and fails exactly when a slot is missing |
| Abi.EncodedBytesRead | tools/create_debridge_self_fill_order.py:33-37 | an encoded byte string reads back whole wherever it lies on a slot boundary |
| DlnOrders.DecodeEncoded | crates/genome-client/src/lib.rs:1049-1202 | for every order with byte fields of any length, decoding the encoded event returns every field, numbers cut to 64 and 128 bits, a zero give chain replaced by the polled one |
| DlnOrders.RoundTripIff | crates/genome-client/src/lib.rs:1049-1202 | the round trip is exact exactly when the ids are below 2^64, the amounts below 2^128 and the give chain is not zero (or the polled one is zero too) |
| DlnOrders.CutCallReadsAbsent | crates/genome-client/src/lib.rs:1065-1069 | a log cut inside the external call still decodes with every other field, and the call is seen exactly when its last slot is whole |
| DlnOrders.DecodesIff | crates/genome-client/src/lib.rs:1063-1072 | whatever bytes a log carries, it is taken for an order exactly when it has 22 words and the struct its first word points at has room for 14 |
| DlnOrders.UnreadableDefaults | crates/genome-client/src/lib.rs:1084-1202 | in such a log a token or receiver that cannot be read becomes the zero address, and a reserved taker or call that cannot be read is absent |
| Calendar.ClosedFormCounts | crates/genome-client/src/lib.rs:687-692 | the closed form is the number of days counted year by year and month by month, for every valid date but those of January and February of the year 0, where it is one day late |
| Calendar.CountedNext | crates/genome-client/src/lib.rs:687-692 | the count is zero at 1970-01-01 and one more for each next day under the month table and leap rule |
| Calendar.EpochIsZero | crates/genome-client/src/lib.rs:691-696 | the epoch's timestamp is zero |
| Calendar.NextDaySeconds | crates/genome-client/src/lib.rs:691-697 | the next day adds exactly 86400 seconds, for every date but 29 February of the year 0 |
| Calendar.SecondsMonotone | crates/genome-client/src/lib.rs:691-697 | timestamps order exactly as date and time of day do |
| IsoTime.ReadsBack | crates/genome-client/src/lib.rs:669-700 | a written date and time of a year from 1 to 9999 reads back as its counted seconds, whatever follows the seconds |
| IsoTime.RawIntegerReads | crates/genome-client/src/lib.rs:669-674 | a raw integer reads as itself over the whole signed 64-bit range, and one out of range does not read at all |
| IsoTime.OffsetIgnored | crates/genome-client/src/lib.rs:669-700 | with a UTC offset the instant read is right exactly when the offset is zero |
| CanonicalJson.Canonical | crates/donut-adjudicator/src/lib.rs:387-404 | two values without duplicate keys have the same sorted form exactly when they are equal up to member order at every depth |
| CanonicalJson.SortKeeps | crates/donut-adjudicator/src/lib.rs:387-404 | sorting only moves members: the result is the same value up to member order and has no duplicate keys |
| CanonicalJson.SortIdempotent | crates/donut-adjudicator/src/lib.rs:387-404 | sorting twice is sorting once |
| CanonicalJson.SortedMembers | crates/donut-adjudicator/src/lib.rs:390-399 | the sorted object has its keys in ascending order and exactly the original members, each sorted |
| CanonicalJson.SortedItems | crates/donut-adjudicator/src/lib.rs:401-401 | arrays keep their order |
| Attestations.SigningFormFaithful | crates/donut-adjudicator/src/lib.rs:409-416 | the signing pre-image of two attestations is the same exactly when they agree on everything but the signature |
| Attestations.ChainFormInjective | crates/donut-adjudicator/src/lib.rs:421-435 | the chaining pre-image decides the whole attestation, the signature's text included |
| Attestations.SpellingDecidesChain | crates/donut-adjudicator/src/lib.rs:853-859 | two attestations alike in all that is signed, with the same signature bytes, chain alike exactly when their signature texts agree on the prefix and on the case of every letter |
| Attestations.HeadDecidesLedger | crates/donut-adjudicator/src/lib.rs:93-96 | two linked ledgers from the zero hash with the same head hash are equal record for record, the hash being injective and never zero |
| Attestations.LinkDecidesPrefix | crates/donut-adjudicator/src/lib.rs:238-241 | two records of linked ledgers carry the same previous hash exactly when everything before them is the same |
| LowS.LexIsNumeric | crates/donut-adjudicator/src/lib.rs:885-887 | comparing equal-length byte strings lexicographically compares the big-endian numbers |
| LowS.HalfIsHalf | crates/donut-adjudicator/src/lib.rs:878-884 | the 32 bytes of the constant are the secp256k1 order halved |
| LowS.ExactlyOneLow | crates/donut-adjudicator/src/lib.rs:868-892 | for every s between 0 and the order, the check accepts exactly one of s and the order minus s |
| Donut.ExactIff | crates/donut-adjudicator/src/lib.rs:443-454 | the wrapping 64-bit result is the exact one exactly when inflow times numerator fits and 70 times the donut fits |
| Donut.ExactShares | crates/donut-adjudicator/src/lib.rs:437-454 | exact shares add up to the donut; builder and reviewers get 70 and 20 percent rounded down, the ecosystem at least a tenth and less than two micro-dollars more |
| Donut.CutsNeverOverflow | crates/donut-adjudicator/src/lib.rs:450-452 | whatever the donut, even a wrapped one, taking the two cuts away never overflows |
| Donut.SharesAddUp | crates/donut-adjudicator/src/lib.rs:443-454 | whenever the division is defined the three shares fit and add up to the donut, overflow or not; it is undefined only for a denominator that is not positive |
| Donut.PanicsIff | crates/donut-adjudicator/src/lib.rs:443-454 | the division panics exactly on a zero denominator, and on -1 under the least 64-bit number |
| Adjudicator.AttestVerifiesIff | crates/donut-adjudicator/src/lib.rs:672-851 | attesting builds something verification accepts exactly when the registry's fraction has a non-negative numerator and a positive denominator |
| Adjudicator.Verify | crates/donut-adjudicator/src/lib.rs:798-905 | the loop accepts exactly the acceptable attestations: fraction, donut (which is `Adjudicator.AcceptedDonut`), keys, sums, one residual, signature, low s, signer; a donut mismatch is objected to exactly when the fraction is sound and the donut is another, and every other objection names a fault the attestation has |
| Adjudicator.AcceptedDonut | crates/donut-adjudicator/src/lib.rs:807-818 | the donut of an accepted attestation is the positive inflow times the fraction, rounded down, whenever that product fits 64 bits; past that it is, rounded toward zero, the quotient of the one 64-bit number the product wraps to; any other donut is refused |
| Adjudicator.AttestPays | crates/donut-adjudicator/src/lib.rs:672-778 | while nothing overflows the donut is the fee, or the profit where no fee is known, times the adapter's fraction, rounded down; the builder and the reviewers listed for the adapter get 70 and 20 per cent of it, rounded down, the ecosystem the rest, each at its own address |
| Adjudicator.FillIdsApart | crates/donut-adjudicator/src/lib.rs:928-937 | fills with hashes of one length share a fill id exactly when they are one intent's and one transaction's |
| Adapters.AdapterByName | crates/donut-adjudicator/src/lib.rs:341-379 | which adapter a protocol's name leads to, by the words that occur in it in any letter case: Mayan before Wormhole before deBridge, Across and LiFi by their whole name, Solana at either end deciding between the two adapters of Mayan, Mayan Flash and deBridge |
| Adapters.UnknownAdaptersApart | crates/donut-adjudicator/src/lib.rs:379-379 | two fills of unknown protocols share an adapter exactly when protocol, letter case aside, and destination chain are the same |
| Adjudicator.SplitNotChecked | crates/donut-adjudicator/src/lib.rs:820-851 | from any accepted attestation its signer can make another accepted one giving the whole donut to any address |
| Adjudicator.AcceptedRespelled | crates/donut-adjudicator/src/lib.rs:853-866 | acceptance never fixes the chain hash: every accepted attestation has a twin spelled with or without the prefix, accepted too, that chains differently |
| Adjudicator.WhoIsPaid | crates/donut-adjudicator/src/lib.rs:699-753 | an unregistered adapter's whole donut goes to the ecosystem address; for a registered one nothing lacks an address, except the share of the reviewers when none are listed |
| Adjudicator.OverflowStarvesBuilder | crates/donut-adjudicator/src/lib.rs:450-452 | with the largest inflow the builder gets nothing and verification still accepts |
| Adjudicator.RegistryReloads | crates/donut-adjudicator/src/lib.rs:552-636 | publishing and loading a registry keeps the payees, and a listed adapter's fraction exactly when its denominator is positive |
| Adjudicator.AttestWellFormed | crates/donut-adjudicator/src/lib.rs:720-778 | what attesting builds has its recipients in key order and carries the given previous hash |
| Adjudicator.LedgerGrows | crates/donut-adjudicator/src/lib.rs:672-796 | attesting each fill on top of the head keeps the ledger linked |
| Mempool.MarkedIsCovered | crates/mempool-monitor/src/lib.rs:180-195 | over every interleaving of watchers, timers and callers, an id a handler marked and that has not left the set has a task pending that will take it out |
| Mempool.NoLeak | crates/mempool-monitor/src/lib.rs:187-194 | with a prompt scheduler such an id never stays past its last mark plus that handler's TTL |
| Mempool.MarkLastsIff | crates/mempool-monitor/src/lib.rs:187-194 | a handler's mark lasts its TTL over every interleaving that neither clears the id nor finds it for a shorter TTL, exactly when no other task of the id pending at the mark ends sooner: later timers do no harm, marking again does not extend an earlier one |
| Mempool.MarkHolds | crates/mempool-monitor/src/lib.rs:98-104 | a mark holds until the first deadline among the id's tasks, over every interleaving that does not clear it |
| Mempool.InspectIff | crates/mempool-monitor/src/lib.rs:206-226 | a transaction is a competing fill exactly when it calls the operator with calldata beginning with a watched four-byte selector |
| Mempool.PayloadIdentifies | crates/mempool-monitor/src/lib.rs:228-245 | for any watched selector the id of an operator call is the hash of its payload; with a hash that does not collide two such calls get one id exactly when they carry one payload |
| Mempool.FoundIsMarked | crates/mempool-monitor/src/lib.rs:180-195 | once the handler that found a call is first scheduled, the hash of its payload is in flight, on top of whatever was, with a task that will take it out after the TTL |
| Mempool.MempoolMonitor.HandlePendingTx | crates/mempool-monitor/src/lib.rs:166-198 | a handler goes on exactly for calls to the operator with a watched selector, under the hash of the payload (which are `Mempool.InspectIff` and `Mempool.PayloadIdentifies`) |
| Mempool.MempoolMonitor.Run | crates/mempool-monitor/src/lib.rs:180-195 | one scheduling of a task does to the shared set what the step says, and keeps every marked id covered by a pending task |
| Mempool.MempoolMonitor.ClearInFlight | crates/mempool-monitor/src/lib.rs:102-104 | removes the id and touches no timer |

## Left out

- SQLite faults: wallet calls after the first record do not fail for I/O reasons; the controller only logs such failures.
- f64 rounding: amounts, prices and fees are exact (reals in the wallet, integers elsewhere), so the 0.01 % guards are proved in exact arithmetic and amounts enter the adjudicator already in micro-dollars.
- USD price heuristics, token decimals, WETH and token tables: their results are parameters.
- Of the builders: the Mayan Swift and DLN calldata on EVM chains and amounts of more than 128 bits (one parameter), deriving a Mayan vault account and reading a Mayan amount as a float (two parameters).
- Placeholder program ids: whether the Flash and DLN programs are deployed on Solana is a parameter; the NTT lane checks no such thing, and with its placeholder id every send it makes fails, which the model leaves to the answer.
- Calldata bytes, signing, gas price, and the contract addresses of the lanes other than SpokePool and operator.
- Reason strings, log fields other than intent, decision and hash, and feedback messages.
- Concurrent runs or claims of the same intent: runs are sequential, as the visible code decides nothing else.
- Wallet.WalletManager.ListIntents: which rows survive the limit (most recently updated first) is left open.
- Wallet.NeverOverdrawn: the age of a reservation is not stored; which ones are stale is a parameter of each step.
- UTF-8 decoding of chunks, the grammar inside an event, and a receiver that goes away in the middle of a chunk.
- Reconnect back-off, the metrics heartbeat and the inner channel of the consumer.
- Poller.DeBridgePoller.Poll: decoding the logs is a parameter here (it is modelled in `dln_orders.dfy`), and a receiver that goes away in the middle of a poll is not modelled.
- Across and WebSocket pollers: the same seen-set pattern without block windows.
- DlnOrders.DecodeEncoded: starts from bytes, not hexadecimal text; rendering addresses as hexadecimal or base58 is not modelled, only whether the order goes to Solana; allocating a huge claimed length is not modelled.
- IsoTime.ReadsBack: text is characters, so slicing inside a multi-byte character is not modelled.
- CanonicalJson.Canonical: duplicate keys cannot occur in the parsed value the code sorts, so values without them are the domain; writing the sorted value out as text is not modelled, and the hash is taken of the value itself.
- Attestations.ChainFormInjective: addresses and timestamps stand as the text they serialize to; that serialization, one to one, is not modelled.
- Reading the registry file and its JSON, and the fallback to an empty registry.
- Mempool.NoLeak: time is counted in whole ticks and the scheduler is prompt; without promptness only `Mempool.MarkedIsCovered` and `Mempool.MarkHolds` hold.
- Inventory, estimates, skip rules, routing tables, the dashboard and the fixture scripts: only easy members would come of them.
