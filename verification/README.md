# Verified model of the reserve-data core

This project models the parts of the KyberNetwork reserve-data service that
keep money-moving state, and proves what each of them is relied upon for:

* the **activity ledger**: trades, deposits, withdrawals and set_rates are
  recorded, polled and settled by the fetcher (`Activities`,
  `ActivityStorage`, `ReserveCore`, `StatusPolling`, `NonceRule`,
  `AuthSnapshot`, `Lifecycle`);
* the **two-hop Huobi deposit**, a persisted state machine (`HuobiDeposit`);
* the **compact-rate encoding** and the bulk update sent to the pricing
  contract (`CompactRates`, `RateUpdate`);
* the **rate history**: versioned storage, range scans, run-length compression
  and the forward sweep of the rate comparison tool, cmd/comparerates (`OrderedKeys`, `VersionStore`,
  `RateHistory`, `RateCheck`);
* **log ingestion and aggregation**: grouping raw events, the block cursor, the
  watermark and the time buckets (`LogGrouping`, `LogFetcher`, `BucketStats`,
  `Aggregation`, `Pipeline`);
* the **activity id** and its text and key forms (`ActivityIds`).

`dafny verify dfyconfig.toml` checks everything. Methods with loops are proved
against specification functions; the main results are statements about those
functions over all inputs, all runs or all interleavings.

## How the parts are modelled

* **Reads in time.** An exchange or the chain is a family of answers indexed by
  moment. Every remote read happens at its own moment, so the environment may
  change between any two reads of a poll. "Status, balance, status again" is
  the source's loop over such reads.
* **Storage** is the value that bolt keeps. Version buckets are sequences of
  entries in the order of their keys; `OrderedKeys` and the seek lemmas of
  `VersionStore` justify computing positions on numbers instead of on
  big-endian bytes. The activity buckets are maps from timepoints, because
  `ActivityID.ToBytes` keeps only the timepoint (`ActivityIds.KeyIsTimepoint`).
* **Runs.** A run of the ledger interleaves recorded activities, `Deposit` and
  `SetRates` calls with the individual updates of a tick
  (`AuthSnapshot.TickIsRun` shows that what a tick stores is such a run). Calls
  come one at a time, timepoints are distinct, and a fresh nonce is not below
  the mined nonce; these are the only conditions on events.
* **Numbers.** `uint64` and `int64` conversions, wrapping differences and
  saturating parses are written out where the source does them. Floats are
  reals; `CompactRates.FloatingPointIsNear` carries a relative error of one
  part in 10^12 per operation through the encoding, which covers `big.Float`
  at 53 bits.
* **Address of a loop variable.** `getLastPendingSetrate` keeps `&act` of its
  loop variable (data/storage/bolt.go:592-597). Godeps/Godeps.json names go1.9,
  where one variable is shared by all iterations, so the record read through
  the address is the last of the listing, that is, the oldest pending activity
  of whatever action. The ledger has a field `variable` that says which kind of
  variable the service is built with; all results hold for both kinds unless
  they name one.
* **Laws of the chain.** The double check is proved for chains on which the
  mined nonce and the clock never go back and a transaction once answered mined,
  failed or lost is always answered so. A query that fails with a network error
  after such an answer is excluded by this law, because the source treats it
  like an unconfirmed transaction; so is a mined nonce that reads as zero after
  an error.
* **Failing reads and writes of the Huobi storage.** A bucket may be unreadable,
  and a write may succeed, be refused with an error, or be lost silently.
  `HuobiDeposit.SendsAccount` accounts for the second transactions under every
  pattern of them.
* **Log store.** Raw logs below the reorganisation margin are final and ordered
  by block and index, the logs of a transaction share a block, and block times
  increase. Timestamps, the keys of the log store, are block time plus index as
  in common/blockchain/blocktime.go.
* **Statistics.** The nested maps key, frequency, timestamp are flattened into
  one map from cells. A storage call adds the batch and sets the watermark in
  one transaction. One pass is atomic with respect to log arrivals, although
  the source reads the log store twice in a pass.

## Findings

Where the code does less than it seems to, the exact condition is proved:

* With a loop variable shared by all iterations, as in go1.9, replacements do
  not outbid each other: three calls in a row send the prices 50.1, 60.1 and
  60.1 gwei on one nonce (`Lifecycle.SharedVariableBreaksOutbidding`). Behind a
  pending deposit a set_rates is sent with the deposit's nonce
  (`Lifecycle.SharedVariableTakesDepositNonce`), and behind a pending trade or
  withdrawal, whose result has no nonce, every replacement panics and nothing is
  recorded (`Lifecycle.OldestWithoutNonceBlocks`).
  `Lifecycle.RunsOutbidExactly` gives the exact condition over whole runs and
  `Lifecycle.SharedOutbidsExactly` that on the oldest pending activity.
* With a variable per iteration the order of prices is lost exactly when a
  replacement price does not fit an `int64` and wraps
  (`Lifecycle.PerIterationRunsOutbid`, `Lifecycle.OverflowBreaksOutbidding`); no
  run of fewer than 922337198 steps gets there
  (`Lifecycle.PerIterationOutbidsInShortRuns`).
* The double check can be wrong: a replaced transaction that is dropped within
  15 minutes of its submission is reported failed, then not at all, then failed
  again, and two equal polls may hide the report in between
  (`StatusPolling.EarlyLossIsMissed`). `StatusPolling.SandwichExactly` proves
  that nothing else goes wrong.
* The failed verdict by nonce is final only if the mined nonce is read first and
  the status answer carries no error (`NonceRule.StatusFirstIsUnsound`,
  `NonceRule.ErroringAnswerIsUnsound`).
* `Record` and `UpdateActivity` keep the pending index exactly under the
  conditions of `ActivityStorage.RecordAgreement` and `UpdateAgreement`.
* A permanent Huobi entry that is lost without an error lets the next poll send
  a second transaction again (`HuobiDeposit.LostWriteSendsTwice`), and so does a
  pending bucket that cannot be read once (`HuobiDeposit.FailedReadSendsTwice`).
* The forward pass of cmd/comparerates misses an activity exactly when a former activity
  of the list lies below the interval (`RateCheck.CompareRates`,
  `RateCheck.WrongOrderIsMissed`).
* `GetLogs` drops the last trade of a range exactly when the entry emitted last
  is a category log of the same transaction (`LogGrouping.GroupingIsExact`).
* The block window ignores the reorganisation margin exactly while the known
  head is below the margin, as it is before the first block was fetched
  (`LogFetcher.WindowIsSafe`). A node with nothing to answer yet then moves the
  cursor 1441 blocks ahead, and the logs that will appear there are never stored
  (`LogFetcher.LowHeadSkips`).
* Store times that go back may make stored block numbers go back
  (`RateHistory.StoreKeepsBlocks`, `RateHistory.StoreInThePast`).

## Model

| member | source | states |
|---|---|---|
| OrderedKeys.RoundTrip | data/storage/bolt.go:151-159 | reading back a big-endian key gives the number, for every number that fits the width |
| OrderedKeys.OrderPreserved | data/storage/bolt.go:151-155 | `bytes.Compare` on keys orders exactly as the numbers, in both directions |
| OrderedKeys.Uint64Keys | data/storage/bolt.go:151-159 | the 8-byte keys of two `uint64` values round-trip and compare as the values |
| ActivityIds.MarshalRoundTrip | common/types.go:228-265 | for every `uint64` timepoint and every EID, also one with separators, parsing the printed id returns it |
| ActivityIds.UnmarshalAccepts | common/types.go:248-265 | a text whose first separator is at a given place parses if and only if the part before it is a decimal `uint64`; the EID is everything behind |
| ActivityIds.DecimalRoundTrip | common/types.go:243-246 | decimal printing of a number has digits only and parses back to it |
| ActivityIds.JoinSplit | common/types.go:248-258 | joining the split parts restores the text, however many separators it has |
| ActivityIds.KeyIsTimepoint | common/types.go:219-226 | two ids have the same 64-byte key if and only if their timepoints are equal, and the keys are ordered by timepoint |
| VersionStore.ByteOrderIsVersionOrder | data/storage/bolt.go:151-183 | a bucket ordered by bytes is one ordered by versions, and conversely |
| VersionStore.ByteSeekIsVersionSeek | data/storage/bolt.go:161-183 | seeking the encoded timepoint finds the position of the first version not below it |
| VersionStore.ReverseSeekIsFloor | data/storage/bolt.go:161-183 | `reverseSeek` returns the greatest stored version not above the timepoint, and an error exactly when there is none |
| VersionStore.InsertIsPut | data/storage/bolt.go:389-407 | a put keeps the order, stores the value and leaves all other versions as they were |
| VersionStore.InsertAbove | data/storage/bolt.go:426-446 | a put above all stored versions appends |
| VersionStore.Bucket.Put | data/storage/bolt.go:389-407 | the bucket becomes the one with the entry put, still in order |
| VersionStore.Bucket.NumberOfVersion | data/storage/bolt.go:240-249 | the cursor walk counts the entries |
| VersionStore.Bucket.PruneOutdatedData | data/storage/bolt.go:251-267 | pruning terminates and leaves exactly the newest versions, one short of the cap |
| VersionStore.Newest | data/storage/bolt.go:251-267 | a bucket below the cap is untouched, any other keeps its newest 999 versions |
| VersionStore.Bucket.StorePrice | data/storage/bolt.go:389-407 | after every call the bucket holds at most 1000 versions, the new one among them |
| VersionStore.Bucket.Scan | data/storage/bolt.go:348-371 | the cursor loop lists the values in the range, latest first |
| VersionStore.SplitRange | data/storage/bolt.go:348-371 | the entries between the sought position and the first key above the range are the filter of the bucket by time |
| VersionStore.RangeSplit | data/storage/bolt.go:348-371 | a range scan is the concatenation of the scans of its two parts |
| VersionStore.Bucket.GetRates | data/storage/bolt.go:348-371 | a range is refused exactly if its wrapped length exceeds the limit, otherwise the answer is the reversed filter by time |
| VersionStore.Bucket.GetAllRecords | data/storage/bolt.go:537-562 | the same for records, where a zero bound stands for the first or last key |
| Activities.LaterTransitive | common/types.go:282-322 | a settled side stays settled over any number of merges |
| Activities.SettleIsLater | data/fetcher/fetcher.go:439-486 | merging any reportable statuses into a pending record never changes a side that has left its pending values |
| Activities.SettledExactly | common/types.go:304-322 | for each action, the combinations of exchange and mining status in which an activity is no longer pending |
| Activities.ReportIsTaken | data/fetcher/fetcher.go:439-486 | a pending side takes the reported status, the chain side seeing the exchange side's report first; the transaction of a withdrawal is taken once, and block and error are those of the last reports |
| ActivityStorage.RecordAgreement | data/storage/bolt.go:448-510 | `Record` keeps the pending bucket equal to the filtered activity bucket if and only if it does not settle a key still pending |
| ActivityStorage.UpdateAgreement | data/storage/bolt.go:645-677 | `UpdateActivity` keeps it if and only if it does not make pending a key outside the pending bucket |
| ActivityStorage.PutsStore | data/storage/bolt.go:448-510 | `Record` and `UpdateActivity` store the record under its timepoint and leave every other key of both buckets |
| ActivityStorage.DescendingLists | data/storage/bolt.go:625-643 | the listing holds exactly the pending records |
| ActivityStorage.DescendingOrder | data/storage/bolt.go:625-643 | it is sorted by strictly decreasing timepoint, so no record occurs twice |
| ActivityStorage.BoltStorage.Record | data/storage/bolt.go:448-510 | the new state of both buckets |
| ActivityStorage.BoltStorage.UpdateActivity | data/storage/bolt.go:645-677 | the new state of both buckets |
| ActivityStorage.BoltStorage.GetPendingActivities | data/storage/bolt.go:625-643 | the prepending cursor loop returns the descending listing |
| ActivityStorage.BoltStorage.HasPendingDeposit | data/storage/bolt.go:679-695 | true if and only if some pending deposit is for that token and exchange |
| ReserveCore.LastPendingSetrate | data/storage/bolt.go:564-603 | the scan, which keeps the address of its loop variable, returns what is read through that address: the selected record, or the last one of the list if the variable is shared |
| ReserveCore.ScanPicksMaximum | data/storage/bolt.go:564-603 | it is the first lexicographic maximum of (nonce, gas price) among pending set_rates not below the mined nonce, and none exactly when none exceeds (0, 0) |
| ReserveCore.LastIsOldest | data/storage/bolt.go:625-643 | the last record of the listing is the pending activity with the least timepoint |
| ReserveCore.SharedVariableShowsOldest | data/storage/bolt.go:564-603 | with a shared variable the scan finds a record exactly when it should, and it is the oldest pending activity of any action |
| ReserveCore.SharedVariableAgrees | data/storage/bolt.go:590-598 | on the pending bucket the two kinds of variable give the same record if and only if nothing is selected or the selected set_rates is the oldest pending activity |
| ReserveCore.HighestRival | core/reserve_core.go:285-303 | the highest price among the listed set_rates of a nonce |
| ReserveCore.ReplacementOutbids | core/reserve_core.go:235-247 | the replacement price exceeds the old one if and only if the old one fits an `int64` |
| ReserveCore.DepositExactly | core/reserve_core.go:136-178 | the record of a deposit is submitted with hash, nonce and price of its transaction exactly if the token is supported, the amount acceptable, no such deposit pending and the broadcast successful; else failed with zeros |
| ReserveCore.SetRatesExactly | core/reserve_core.go:268-336 | the record of a set_rates: when it is submitted, and with which hash, nonce and price |
| ReserveCore.Core.Deposit | core/reserve_core.go:121-184 | a transaction is sent exactly if the token is supported, no deposit of it to that exchange is pending and the amount is acceptable; the record stored and the success |
| ReserveCore.Core.SetRates | core/reserve_core.go:235-342 | a panic exactly when the record shown has no nonce or gas price, and then nothing is sent or stored; otherwise a transaction is sent exactly if the call is accepted and the mined nonce known, and the record stored has the nonce and the bumped price of the record shown, or a fresh nonce and the first price |
| StatusPolling.FetchStatusFromBlockchain | data/fetcher/fetcher.go:313-381 | the map of reports, the mined nonce being read before every status |
| StatusPolling.ChainReports | data/fetcher/fetcher.go:313-381 | the report of each record is the judgement of its own reads, and no other id is reported |
| StatusPolling.JudgeExactly | data/fetcher/fetcher.go:319-378 | which answers make an activity mined, failed or unreported, for which activities, with which hash, block and error |
| StatusPolling.FetchStatusFromExchange | data/fetcher/fetcher.go:528-566 | the map of reports of an exchange poll |
| StatusPolling.ExchangeReports | data/fetcher/fetcher.go:528-566 | the report of each record is the answer to its own query, and no other id is reported |
| StatusPolling.AskExactly | data/fetcher/fetcher.go:530-563 | only the destination is asked, only about a pending exchange side, a trade by its order, a deposit and a withdrawal by their own queries, and what is reported of the answer |
| StatusPolling.Unchanged | data/fetcher/fetcher.go:383-400 | the one-sided walk plus the size test is exact equality of the maps on the compared fields |
| StatusPolling.WeightClimbs | data/fetcher/fetcher.go:263-295 | if no report goes back, the summed rank of the reports does not decrease, and is bounded |
| StatusPolling.RoundGains | data/fetcher/fetcher.go:263-295 | a round whose two polls differ strictly increases it |
| StatusPolling.PhaseClimbs | data/fetcher/fetcher.go:313-381 | on a lawful chain the judgement of a transaction goes through its phases, waiting, superseded, lost early, final, in this order only, and changes only with them |
| StatusPolling.StableExactly | data/fetcher/fetcher.go:313-381 | on a lawful chain a report once made is always repeated if and only if a superseded transaction is later neither mined nor lost early |
| StatusPolling.SandwichExactly | data/fetcher/fetcher.go:263-295 | on a lawful chain two equal polls always tell the truth of every moment between them, presence and absence alike, if and only if a superseded transaction is not answered lost within 15 minutes of its submission |
| StatusPolling.EarlyLossIsMissed | common/blockchain/base_blockchain.go:370-372 | a lawful chain on which both polls report nothing although the transaction is superseded at the moment between them |
| StatusPolling.LaterPhases | data/fetcher/fetcher.go:263-295 | on a lawful chain the summed phases of a poll never decrease, are at most 3n, and increase whenever two polls differ |
| StatusPolling.ChainSandwich | data/fetcher/fetcher.go:263-295 | two equal polls around a moment tell the truth of that moment for every activity to which the double check applies |
| StatusPolling.FetchAuthDataFromBlockchain | data/fetcher/fetcher.go:263-295 | for n pending activities on a lawful chain the loop ends within 3n + 1 rounds, within n + 1 if reports are stable, and every returned status and absence of an activity whose reports are stable or whose superseded transaction is not lost early was true when the returned balances were read |
| StatusPolling.ExchangeSandwich | data/fetcher/fetcher.go:494-526 | the same sandwich for an exchange whose answers only progress |
| StatusPolling.FetchAuthDataFromExchange | data/fetcher/fetcher.go:494-526 | the same loop and guarantee against an exchange, with a bound on the rounds by the number of status steps |
| NonceRule.NonceFirstIsSound | data/fetcher/fetcher.go:313-348 | with the nonce read first and a status without error, the transaction declared failed is never included, at any moment |
| NonceRule.PollVerdictIsFinal | data/fetcher/fetcher.go:313-348 | so it is for every poll, at every start and position in the list |
| NonceRule.StatusFirstIsUnsound | data/fetcher/fetcher.go:314-340 | with the two reads swapped the rule fires on a transaction that is mined |
| NonceRule.ErroringAnswerIsUnsound | data/fetcher/fetcher.go:328-348 | an unconfirmed answer with an error makes the poll report a mined transaction as failed |
| AuthSnapshot.AdoptThenSettle | data/fetcher/fetcher.go:402-486 | adopting a withdrawal's transaction before the chain is asked does not change what is stored |
| AuthSnapshot.PersistSnapshot | data/fetcher/fetcher.go:402-492 | the store after the loop of updates, and the pending list and validity of the snapshot |
| AuthSnapshot.PollVenues | data/fetcher/fetcher.go:177-184 | for every exchange there is a moment at which its balances were read and each activity destined for it has the report or absence of that moment, or its balances failed and none has a report; only such activities have reports |
| AuthSnapshot.FetchAllAuthData | data/fetcher/fetcher.go:159-213 | the exchanges told as above, then the chain was asked about the activities with the transactions they told, and its statuses were true when its balances were read, or there are none because the balances failed; stored is the merge of exactly these reports |
| AuthSnapshot.MergesAreStored | data/fetcher/fetcher.go:439-486 | after a tick every listed activity is stored as the merge of its own reports, and left the pending bucket if that is settled |
| AuthSnapshot.MinedIsStored | data/fetcher/fetcher.go:263-295 | a pending set_rates answered mined throughout a tick with readable balances is stored as mined with an answered block and is no longer pending |
| AuthSnapshot.SnapshotLists | data/fetcher/fetcher.go:477-490 | the snapshot lists exactly the merges that are still pending |
| AuthSnapshot.TickIsRun | data/fetcher/fetcher.go:159-213 | the store left by the first n updates of a tick is reached by a run of ledger events |
| Lifecycle.RunIsSound | data/storage/bolt.go:448-510 | every state of every run is sound: index agreement, current queue, one deposit, covering order |
| Lifecycle.PendingIndexAgrees | data/storage/bolt.go:645-677 | in every run the pending bucket is the activity bucket filtered by `IsPending`, contents included |
| Lifecycle.SinglePendingDeposit | core/reserve_core.go:136-178 | in every run at most one pending deposit exists per token and exchange |
| Lifecycle.StepIsLater | data/fetcher/fetcher.go:439-486 | one step leaves every stored activity a later version of itself |
| Lifecycle.SettledStatusesAreFrozen | common/types.go:282-322 | between any two states of a run, a side that has left its pending values keeps them, and an activity that is not pending is not touched |
| Lifecycle.NewPriceIsHighest | core/reserve_core.go:235-315 | a submitted set_rates outbids every pending one of its nonce if and only if its replacement price exceeds the highest rival of the listing |
| Lifecycle.OutbiddingKeptExactly | core/reserve_core.go:235-315 | for either kind of loop variable, one step keeps prices increasing per nonce if and only if its replacement, if any, outbids every rival of the listing |
| Lifecycle.RunsOutbidExactly | core/reserve_core.go:235-315 | for either kind of loop variable, prices are in order at every moment of a run if and only if every replacement on the way outbid its rivals |
| Lifecycle.SharedOutbidsExactly | data/storage/bolt.go:564-603 | with a shared variable the replacement takes the nonce of the oldest pending activity and keeps the order if and only if, for a set_rates, its price fits and its rivals bid less than a bump above it, or, for any other action, the set_rates of its nonce bid less than its bumped price |
| Lifecycle.OldestWithoutNonceBlocks | core/reserve_core.go:240-243 | with a shared variable and an oldest pending activity without nonce or price, a replacing call panics and changes nothing |
| Lifecycle.SharedVariableBreaksOutbidding | data/storage/bolt.go:590-598 | with a shared variable three calls in a row already break the order |
| Lifecycle.SharedVariableTakesDepositNonce | data/storage/bolt.go:590-598 | with a shared variable a set_rates is sent with the nonce of a pending deposit |
| Lifecycle.PerIterationOutbidsExactly | core/reserve_core.go:235-247 | with a variable per iteration a replacement outbids its rivals if and only if the replaced price fits an `int64` |
| Lifecycle.PerIterationRunsOutbid | core/reserve_core.go:235-315 | with a variable per iteration, pending set_rates of one nonce have strictly increasing prices in submission order throughout a run if and only if all replaced prices fit |
| Lifecycle.PerIterationOutbidsInShortRuns | core/reserve_core.go:289-303 | with a variable per iteration, the same with no condition on prices for the first 922337198 steps of every run |
| Lifecycle.OverflowBreaksOutbidding | core/reserve_core.go:241-243 | a sound ledger whose pending price does not fit an `int64`, with a variable per iteration, and the call that breaks the order |
| HuobiDeposit.Huobi.FindTx2InPending | exchange/huobi.go:412-425 | the walk over the pending map finds the entry of the id, if there is one and the bucket can be read |
| HuobiDeposit.Huobi.StorePendingIntermediateTx | exchange/huobi/bolt.go:73-89 | the tracker after a write that is done, refused or lost |
| HuobiDeposit.Huobi.CloseIntermediateTx | exchange/huobi.go:485-543 | the entry is stored permanently, then dropped from the pending map; a refused write stops in between |
| HuobiDeposit.SendsExactly | exchange/huobi.go:441-474 | a call sends if and only if it sees no entry, the first transaction is answered mined without error, token and address are known and sending succeeds; then it notes the transaction as submitted |
| HuobiDeposit.AnswersExactly | exchange/huobi.go:451-551 | exactly when a call answers "done", "failed" or an error |
| HuobiDeposit.WritesExactly | exchange/huobi.go:485-543 | exactly what a call that sees an entry writes to the two buckets |
| HuobiDeposit.Huobi.DepositStatus | exchange/huobi.go:427-551 | the answer, the new tracker and the second transaction sent, for every combination of observations, failing reads and writes included, and exactly when one is sent |
| HuobiDeposit.OtherPollsDoNotInterfere | exchange/huobi/bolt.go:73-153 | a poll of a deposit with another timepoint changes neither bucket for this one |
| HuobiDeposit.OwnPoll | exchange/huobi.go:438-551 | a poll sends only if nothing is found, and afterwards an entry is known unless a write forgot it |
| HuobiDeposit.OwnPollTracks | exchange/huobi.go:438-551 | a poll that does not overlook an entry keeps both buckets at the hash sent last |
| HuobiDeposit.SendsAccount | exchange/huobi.go:438-551 | for every sequence of polls and failing reads and writes: sends equal the times the entry was forgotten or overlooked, plus one if it is known; if none was overlooked both buckets hold the last hash |
| HuobiDeposit.AtMostOneSecondTransaction | exchange/huobi.go:438-551 | with a storage that works at most one second transaction per deposit, and the tracked hash is that transaction's |
| HuobiDeposit.DoneMeansSettled | exchange/huobi.go:465-508 | "done" only if the one transaction is mined and confirmed in the exchange's history, its entry permanent and no longer pending |
| HuobiDeposit.LostWriteSendsTwice | exchange/huobi.go:485-508 | a run in which, all else succeeding, the permanent write at "done" is lost silently and the next poll sends again |
| HuobiDeposit.FailedReadSendsTwice | exchange/huobi.go:412-417 | a run in which all writes succeed and one unreadable pending bucket makes the deposit send again |
| CompactRates.RoundHalfEven | blockchain/compact_rate.go:37-39 | rounding to a nearest integer, and to the even one at a tie |
| CompactRates.ByteRoundTrip | blockchain/compact_rate.go:40-44 | a compact value sent as a byte and read as `int8` is itself |
| CompactRates.EncodeDecodes | blockchain/compact_rate.go:19-51 | decoding gives the rate exactly on overflow, else to within half a thousandth of the base, plus the computation error |
| CompactRates.OverflowRange | blockchain/compact_rate.go:40-50 | with exact arithmetic a rate keeps its base if and only if it lies in the exact interval of the signed byte, edges and ties included |
| CompactRates.NoFalseAlarm | cmd/comparerates/main.go:121-149 | no encoded rate trips the 0.001 threshold; the difference is at most 0.0005/0.872 plus the computation error |
| CompactRates.WorstCase | cmd/comparerates/main.go:70-72 | the bound is reached, at compact -128 |
| CompactRates.WrongByteIsDetected | cmd/comparerates/main.go:121-149 | a stored byte that is off by two or more always raises the alarm |
| CompactRates.FloatingPointIsNear | blockchain/compact_rate.go:33-37 | relative errors of each floating-point operation add up to a computed value near the exact one |
| RateUpdate.FillBulks | blockchain/compact_rate.go:58-74 | in any iteration order each touched bulk holds the bytes of its tokens and zeros elsewhere |
| RateUpdate.BuildCompactBulk | blockchain/compact_rate.go:58-82 | the three result slices are aligned, with one entry per touched bulk |
| RateUpdate.TokenFindsItsBytes | blockchain/compact_rate.go:58-82 | with distinct slots every token finds its own two bytes in the entry of its bulk |
| RateUpdate.RebasedExactly | blockchain/blockchain.go:169-185 | a token gets new bases if and only if one of its computed values rounds outside the signed byte, or a nonzero rate meets a zero base |
| RateUpdate.RebasedByRates | blockchain/compact_rate.go:31-50 | with exact quotients, if and only if buy or sell lies at least 12.85 % below or 12.75 % above its base |
| RateUpdate.StoredExactly | blockchain/blockchain.go:175-184 | what the contract stores: requests and zero bytes for a token with new bases, else the old bases with both values rounded |
| RateUpdate.SetRates | blockchain/blockchain.go:151-190 | new bases list exactly the tokens that overflow on a side, in order and with both sides, and the bulks are packed with every token's bytes |
| RateUpdate.BasesAfterUpdate | blockchain/blockchain.go:169-184 | after the update a token has the request as base if either side overflowed, and its old base otherwise |
| RateUpdate.UpdateServesRequests | blockchain/blockchain.go:151-190 | the updated contract serves each token a buy and a sell within base/2000 of the request, and exactly the request on both sides when either overflows |
| RateUpdate.UpdateStoresQuotes | blockchain/blockchain.go:169-190 | what the updated contract stores for a token: the requests with zero bytes on both sides if either overflowed, else the old bases with the two bytes |
| RateHistory.StoreRate | data/storage/bolt.go:426-446 | the bucket after a store that may be dropped |
| RateHistory.StoreKeepsBlocks | data/storage/bolt.go:426-446 | a stored entry keeps block numbers increasing if and only if its time is not before the last stored one |
| RateHistory.StoreInThePast | data/storage/bolt.go:426-446 | a bucket and a store in the past after which block numbers go back |
| RateHistory.StoredBlocksIncrease | data/storage/bolt.go:426-446 | with increasing store times, stored block numbers strictly increase |
| RateHistory.Compress | data/reserve_data.go:145-176 | the loop that extends the last interval computes the specified compression |
| RateHistory.GetRates | data/reserve_data.go:145-176 | the compression of the stored range, or the storage's error; for increasing blocks the intervals are disjoint and every stored entry in range with data lies in one that shows its bases and compact values for every token it lists |
| RateHistory.IntervalsDescend | data/reserve_data.go:145-176 | the intervals of descending entries are disjoint and descending |
| RateHistory.DuplicatedExactly | data/reserve_data.go:101-143 | an entry is a duplicate of an interval if and only if the interval shows each of its tokens with equal bases and compact values on both sides |
| RateHistory.NewIntervalExactly | data/reserve_data.go:153-173 | a new interval starts exactly at an entry that disagrees with the last one on such a field; any other entry only lengthens it |
| RateHistory.RepeatedRatesShareInterval | data/reserve_data.go:153-173 | consecutive entries with the same rates lie in one interval |
| RateHistory.EntriesAreRepresented | data/reserve_data.go:101-176 | every entry with data is covered by an interval that shows both its bases and both its compact values for every token it lists |
| RateHistory.IntervalsStartAtEntries | data/reserve_data.go:126-176 | every interval starts at an entry and shows exactly its tokens with their values |
| RateHistory.CoveredOnce | data/reserve_data.go:145-176 | no block lies in two intervals |
| RateHistory.ServedBlocksDecrease | data/storage/bolt.go:348-371 | the entries served for a time range have strictly decreasing blocks |
| RateHistory.ServedRatesAreFaithful | data/reserve_data.go:101-176 | end to end: for stores at increasing times, every served interval list is disjoint and descending, and each stored entry in range with data lies in exactly one interval, which agrees with it |
| RateCheck.Find | cmd/comparerates/main.go:151-170 | naive search: the first interval that covers the block, and none exactly when none covers it |
| RateCheck.CompareRates | cmd/comparerates/main.go:151-170 | the verdict of the forward pass for every activity: skipped exactly if it is no mined set_rates with a block, else that of naive search, except not found exactly for an activity whose interval an earlier one lies below |
| RateCheck.SweepRefinesSearch | cmd/comparerates/main.go:151-170 | for disjoint descending intervals and mined set_rates in non-increasing block order the pass gives every activity the verdict of naive search |
| RateCheck.SweepMissesExactly | cmd/comparerates/main.go:151-170 | the lemma behind that exception, for disjoint descending intervals and activities in any order |
| RateCheck.WrongOrderIsMissed | cmd/comparerates/main.go:157-162 | a list in ascending order is really missed |
| RateCheck.StoredBlockIsCompared | cmd/comparerates/main.go:151-170 | an activity mined at the block of a stored entry with data is compared with an interval that agrees with that entry |
| RateCheck.CompareRate | cmd/comparerates/main.go:121-149 | warns if and only if some listed token that is shown differs on a side |
| RateCheck.WarnsExactly | cmd/comparerates/main.go:70-72 | that is, if and only if a requested buy or sell is more than a thousandth of the shown rate away from it |
| RateCheck.UpdatedTokenIsQuiet | cmd/comparerates/main.go:121-149 | a token of an update, shown as the updated contract stores it, differs on no side, also where only one side overflowed |
| RateCheck.UpdateIsQuiet | cmd/comparerates/main.go:121-149 | whatever update `SetRates` built, the comparison does not warn of the activity that requested it |
| LogGrouping.GroupOne | blockchain/blockchain.go:456-550 | one turn of the loop, which fails exactly when a timestamp it asks for cannot be told |
| LogGrouping.GetLogs | blockchain/blockchain.go:447-559 | the fold over the logs that are not removed, failing exactly when one of its timestamps cannot be told |
| LogGrouping.RunsAreMaximal | blockchain/blockchain.go:460-484 | the runs concatenate to the input, each has one transaction, and neighbours have different ones |
| LogGrouping.GroupedOnTrack | blockchain/blockchain.go:456-550 | after every log, emitted entries plus the one in hand are the category logs and the trade logs of the runs so far, in order |
| LogGrouping.GroupingIsExact | blockchain/blockchain.go:552-557 | all trade logs of the runs are yielded if and only if the last run is not shadowed by a category log of its transaction, else all but the last |
| LogGrouping.GroupingIsComplete | blockchain/blockchain.go:447-559 | if no transaction emits both kinds: one trade log per maximal run and one category log per category event, in order |
| LogGrouping.TradeFields | blockchain/blockchain.go:477-548 | a trade log has transaction, position and time of the first log of its run and every other field from the last event of the kind that sets it, blank if there is none |
| LogGrouping.CatFields | blockchain/blockchain.go:495-519 | the category logs are the category events one by one, with all their fields |
| LogGrouping.MixedTxLosesTrade | blockchain/blockchain.go:552-557 | a category event before a trade of its own transaction loses the trade |
| LogFetcher.MaxBlock | stat/fetcher.go:655-678 | the greatest block of the entries, zero if there are none |
| LogFetcher.BoltLogStorage.StoreTradeLog | stat/storage/log_bolt.go:142-161 | stored unless not after the last trade log, and the new store |
| LogFetcher.BoltLogStorage.StoreCatLog | stat/storage/log_bolt.go:122-140 | the same test, also against the last trade log, and the new store |
| LogFetcher.PutExactly | stat/storage/log_bolt.go:122-161 | an entry at or before the last stored trade log is refused, any other one is put under its timestamp |
| LogFetcher.StoredTwiceIsRefused | stat/storage/log_bolt.go:142-161 | a stored trade log that is offered again is refused |
| LogFetcher.BoltLogStorage.UpdateLogBlock | stat/storage/log_bolt.go:163-168 | the cursor is set and nothing else |
| LogFetcher.Fetcher.StoreLogs | stat/fetcher.go:655-679 | all entries are offered to the store in order, and the greatest block is returned |
| LogFetcher.Fetcher.FetchLogs | stat/fetcher.go:643-684 | nothing changes on an error; otherwise the entries are stored and the next block is told |
| LogFetcher.Fetcher.LogTick | stat/fetcher.go:560-599 | one tick, from the window to the new cursor |
| LogFetcher.WindowIsSafe | stat/fetcher.go:571-574 | the window ends 1441 blocks further or 7 blocks below the head, whichever is less, and respects that margin if and only if the head is not below it |
| LogFetcher.SelectedSplit | blockchain/blockchain.go:418-444 | the kept logs of consecutive block ranges concatenate |
| LogFetcher.GroupedTidy | blockchain/blockchain.go:447-559 | a trade log is never yielded before an earlier trade log or after a later entry of another trade, and all entries carry the position and time of a log |
| LogFetcher.AllAreStored | stat/storage/log_bolt.go:122-161 | no entry of a window is refused: all are appended in order |
| LogFetcher.GroupedAgrees | common/blockchain/blocktime.go:14-39 | a grouping whose block headers may fail is, if it does not fail, the true one |
| LogFetcher.HonestIsReliable | blockchain/blockchain.go:447-559 | so a query below the margin either fails or yields the true result |
| LogFetcher.LastBlockOfResult | stat/fetcher.go:675-679 | the greatest block of the result is that of the last kept log |
| LogFetcher.ExpectedExtends | blockchain/blockchain.go:447-559 | grouping a longer block range adds the grouping of the blocks between, because transactions do not span ranges |
| LogFetcher.TickIsExact | stat/fetcher.go:560-599 | a tick keeps the store equal to the grouping of the logs up to the cursor, which moves forward exactly if a window is open and answered, and not past the margin |
| LogFetcher.CursorExactly | stat/fetcher.go:575-592 | an answered tick leaves the cursor at the block of the last log kept in its window, or at the end of a window without logs |
| LogFetcher.RunIsExact | stat/fetcher.go:560-599 | after every run of ticks the stored logs are exactly the grouping of the raw logs in (deployBlock, cursor], the cursor never closer to a head than the margin |
| LogFetcher.CatchUp | stat/fetcher.go:560-599 | with answering queries the cursor reaches the margin, after at most as many ticks as there are blocks to go |
| LogFetcher.ArrivalsComeLater | stat/storage/log_bolt.go:142-161 | a tick only appends trade logs, later than all stored before |
| LogFetcher.LowHeadSkips | stat/fetcher.go:571-592 | with a head below the margin an empty answer moves the cursor 1441 blocks ahead, and the store stays exact if and only if no log is kept in those blocks |
| BucketStats.BucketCovers | stat/fetcher.go:695-704 | a bucket starts at a multiple of 60, 3600 or 86400 seconds, and the time lies within that width behind it |
| BucketStats.Batch.Aggregate | stat/fetcher.go:919-969 | the loop over the frequencies adds the amounts to the minute, the hour and the day that the time lies in, and to nothing else |
| BucketStats.CellIsSum | stat/fetcher.go:919-969 | a minute, hour or day cell of a key holds, for each amount, the sum over the items of that key within that minute, hour or day |
| BucketStats.VolumeOfTrade | stat/fetcher.go:794-835 | what each key gains from a trade in asset, ETH and fiat volume |
| BucketStats.FeesOfTrade | stat/fetcher.go:837-853 | what each key gains from a trade in fees |
| BucketStats.TradesAddUp | stat/fetcher.go:359-379 | the sums over the items of many trades are the sums of what the trades add |
| BucketStats.Batch.AggregateVolumeStats | stat/fetcher.go:794-835 | the six keys that a trade adds volume to |
| BucketStats.Batch.AggregateBurnFeeStats | stat/fetcher.go:837-853 | the two keys that a trade adds fees to |
| BucketStats.SumOverRemove | stat/fetcher.go:919-969 | the sum of a set of buckets does not depend on the order |
| BucketStats.SumOfAggregation | stat/fetcher.go:919-969 | any sum over buckets grows by exactly what the items add to the buckets concerned |
| BucketStats.MinutesOfHour | stat/fetcher.go:695-704 | a time is in an hour if and only if its minute bucket lies in that hour |
| BucketStats.HoursOfDay | stat/fetcher.go:695-704 | a time is in a day if and only if its hour bucket lies in that day |
| BucketStats.HourIsSumOfMinutes | stat/fetcher.go:942-969 | each hour bucket of a key is the sum of the minute buckets inside it, for every list of items |
| BucketStats.DayIsSumOfHours | stat/fetcher.go:942-969 | each day bucket is the sum of its hour buckets |
| BucketStats.GrandTotalsAgree | stat/fetcher.go:919-969 | every frequency has the same grand total for a key |
| Aggregation.StatStorage.SetStat | stat/storage/stat_bolt.go:251-317 | in any iteration order each stored cell gains what the batch holds for it, keys in lower case, and the watermark is set |
| Aggregation.StoredBatchIsAggregation | stat/storage/stat_bolt.go:284-317 | storing a batch equals aggregating its items directly into the stored statistics |
| Aggregation.LowerExactly | stat/storage/stat_bolt.go:254-288 | keys are stored with their letters A to Z in lower case and otherwise unchanged |
| Aggregation.Fold | stat/fetcher.go:367-379 | the loop of a pass builds one aggregation of its trades and their greatest timestamp |
| Aggregation.StatFetcher.RunAggregation | stat/fetcher.go:315-391 | one pass: the statistics and the watermark after it |
| Aggregation.RangeIsAhead | stat/fetcher.go:160-180 | the range of a pass starts behind everything processed, does not end before it starts, and is never too broad for the log store, whatever the tick time |
| Aggregation.RangeExactly | stat/fetcher.go:160-180 | the range starts right behind the watermark, or right before the first log, and ends at the tick or a day later |
| Aggregation.PassIsExact | stat/fetcher.go:354-391 | a pass at any time keeps the statistics one aggregation of exactly the logs up to the watermark |
| Aggregation.PassAdvances | stat/fetcher.go:354-391 | while a log is unprocessed every pass strictly decreases the distance from the watermark to the last log |
| Aggregation.ArrivalIsExact | stat/fetcher.go:354-391 | logs that arrive later than all stored ones are not yet processed |
| Aggregation.RunIsExact | stat/fetcher.go:315-391 | in every run of arrivals and passes the statistics are one aggregation of exactly the logs up to the watermark, whatever the tick times |
| Aggregation.EnoughPassesProcessAll | stat/fetcher.go:354-391 | enough passes at any times leave one aggregation of all logs |
| Aggregation.StoredBucketsConserve | stat/fetcher.go:919-969 | conservation between minutes, hours and days holds in the stored statistics of every run |
| Aggregation.StoredCellIsSum | stat/fetcher.go:919-969 | in every run a stored minute, hour or day cell holds the sums over what the logs up to the watermark add to its key within its time |
| Pipeline.StoreIsSound | stat/storage/log_bolt.go:142-161 | what the aggregation assumes of the stored trade logs follows from the chain |
| Pipeline.NextIsSound | stat/fetcher.go:315-391 | a tick or a pass keeps the log store and the statistics exact together |
| Pipeline.RunIsExact | stat/fetcher.go:315-391 | after every interleaving of ticks and passes the statistics are one aggregation of exactly the trade logs grouped from the raw logs in (deployBlock, cursor] whose time is not above the watermark |
| Pipeline.CaughtUpIsComplete | stat/fetcher.go:315-391 | once the watermark has reached the stored logs, of all trade logs grouped from those raw logs |

## Left out

- `sanityCheck` and `checkZeroValue` (core/reserve_core.go:344-413), including the stop at the first all-zero pair: their verdict is an input of `SetRatesCall`.
- Version wrappers such as `CurrentPriceVersion`, which overwrite the inner error with that of the view: the floor lookup is stated on `reverseSeek`.
- Balances and their fallback values in an auth snapshot: only the moment at which they are read matters here.
- Goroutine scheduling, locks and concurrent HTTP calls to `Deposit` and `SetRates`: calls come one at a time.
- Crash recovery in the middle of a batch, restarts that reload the cursor from the last stored log, and chain reorganisations beyond the margin.
- Fiat amounts, IP and country of trade logs: they are inputs of the aggregation.
- Timezone buckets ("utcN"), unique and KYC counts, user lists and first-trade records: they depend on storage lookups of other components.
- HTTP serving, authentication, JSON and ABI encoding, generated contract bindings, exchange clients other than the Huobi deposit machine, and the RAM storages.
- Logs without topics: the node is asked for four event kinds only, so they do not occur in its answers.
- Clashes between volume and burn-fee keys in one stored bucket: the two statistics are separate stores here.
- RateUpdate.SetRates: requires positions below 14; for others the source stops with an index out of range. The contract call that reads the old bases and the one that broadcasts are inputs and output.
- CompactRates.FloatingPointIsNear: does not model rounding bit by bit; it assumes a relative error bound for each operation.
- Aggregation.EnoughPassesProcessAll: bounds the passes by the timestamp distance, not by the number of day-long ranges in it.
- Aggregation.RunIsExact: assumes timestamps of at least 2 and below 2^63; with a first log at time 1 a pass at time 0 does not advance.
- LogFetcher.RunIsExact: assumes heads of at least 7, block numbers below 2^63, and no transaction with both category and trade events; what happens otherwise is stated by `WindowIsSafe` and `GroupingIsExact`.
- HuobiDeposit.DoneMeansSettled: is about the answer of one poll; a "lost" verdict restamps the entry and is not stable across polls, so nothing is claimed for it.
- StatusPolling.FetchAuthDataFromBlockchain: says nothing of a network error after a terminal answer, nor of an activity whose superseded transaction is lost early and whose reports are not stable, because its double check is then wrong (`EarlyLossIsMissed`).
- Lifecycle.PerIterationRunsOutbid: is about a loop variable per iteration, which go1.9 does not have; what holds there is stated by `RunsOutbidExactly` and `SharedOutbidsExactly`.
- Lifecycle.PerIterationOutbidsInShortRuns: the same.
- Nonces of 2^63 and above, which `pendingSetrateInfo` would turn negative.
- NonceRule.PollVerdictIsFinal: covers answers without error, because an erroring answer refutes it.
- Lifecycle.SinglePendingDeposit: assumes that deposits enter through `Deposit`, as they do in the service.
