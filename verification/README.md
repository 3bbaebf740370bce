# Verification of stateful components of the Optimism monorepo

Dafny models of six components of the repository and proofs about them. The models follow the Go code branch by
branch; loops and objects that change state are methods and classes, and each is proved equal to a function without
loops, about which the main results are then proved.

| file | component |
|---|---|
| `Surgery.dfy` | `Migrate`, the OVM ETH state surgery of op-chain-ops |
| `SendState.dfy`, `TxManager.dfy` | the transaction manager of bss-core, as an object and as a step relation over all interleavings |
| `Rpc.dfy`, `Backends.dfy`, `BatchServer.dfy` | proxyd: JSON-RPC batches split, forwarded with failover, sorted and scattered back |
| `BlockCache.dfy`, `CachedBatches.dfy` | proxyd: the block cache against a chain that still reorganises, and batches served from it |
| `FrontendLimiter.dfy`, `WsSlots.dfy` | proxyd: the in-memory frontend limiter and the WebSocket slot counter under interleaving |
| `Batcher.dfy` | the polling loop of op-batcher |
| `GasLimit.dfy`, `GasPricing.dfy`, `EpochAccounting.dfy` | gas limit, gas price controller and its epoch accounting |
| `VarBytes.dfy`, `DerivationPaths.dfy` | the CompactSize codec and BIP-32 derivation paths |
| `Common.dfy` | optional values, counters, sums over finite sets |

`dafny verify dfyconfig.toml` checks the whole project.

## Main results

- **State surgery.** `Migrate` is proved equal to a description without iteration, for every iteration order of tries and
  maps. From it: conservation of the total balance, preservation of every account, and the exact difference between
  the sum over slots and the sum over accounts. The final check fails exactly when an account the migration passes over
  holds OVM ETH. For a token laid out as Solidity does, the run commits under an exact condition on its ledger, and then
  every holder has what it held.
- **Transaction manager.** Over every interleaving of any number of workers with the event loop: what a returned receipt
  means, that no receipt is lost, that no worker outlives the call, how long the deferred wait can last, and that no
  abort and no new worker follow a confirmation. The last claim holds in all runs if and only if different workers craft
  different transactions.
- **Batches.** For every batch, cache and network behaviour: which requests are forwarded and what the others are told,
  duplicate identifiers never meet in one minibatch, the minibatches tile each group's misses, their exchanges follow
  one another, and the one answer each minibatch got is in the slots of its requests, with the requests' identifiers when
  backends answer what they were asked.
- **Block cache.** A hit equals what the backend would answer now, over every run of forwards, puts, evictions and
  reorganisations in which late puts are safe. The code puts after it has forwarded, not in one step: a late put is
  safe exactly when the blocks were already final when the answer was given, and otherwise a run that ends with a stale
  hit is given.
- **Batch submitter.** At every point of every run the last submitted block ends a parent-linked chain of consecutively
  numbered blocks from the adopted safe head, each in one fully confirmed channel. Every outcome of a tick has its exact
  condition, and a tick that submits submits everything up to the unsafe head.
- **Limiters.** Exactly min(n, max) of n calls per key and window are admitted in all runs over a clock history if and
  only if no window is read again after another one; clocks that do not run backwards are a special case. WebSocket
  counters equal the slots held.
- **Gas.** Exact conditions for the header bound on gas limit steps and for entering the configured interval, the price
  envelope after n epochs, rest points without usage, and gas accounted for exactly once.
- **Codecs.** Round trips, canonical forms and unique decoding in both directions.

## Environment

Files, databases, nodes, HTTP, clocks and goroutine scheduling appear as parameters or as nondeterministic actions with
arbitrary answers. Assumptions beyond that are named predicates in the statements that need them:

- `Surgery.KeysDistinct`: the storage hash has no collisions among the keys involved; `Surgery.Migrates`: the contract's
  storage is that of a token, and the lists cover its holders and approvals.
- `TxManager.Enabled`: a receipt answered for a hash carries that hash.
- `TxManager.FreshPublications`: successfully published hashes are distinct; `TxManager.IsRunOf`: worker w only ever
  publishes the transaction crafted for it.
- `Backends.Honest`: a backend answers exactly the identifiers it was sent, in any order.
- `BlockCache.ValidChain`, `BlockCache.Later`: blocks deeper than the confirmation depth are final, and numbers plus
  confirmations fit in 64 bits.
- `Batcher.NumbersRight`: a node answers a request for block i with a block numbered i.
- `FrontendLimiter.Unrepeated`: no window is read again after another one; `FrontendLimiter.ClockForward`: the clock does
  not run backwards.
- `CachedBatches.CacheBacks`: the cache's answers to one batch are lookups in states of a run of the block cache.
- `BatchServer.ValidServer`: start-up has checked the minibatch size and the group names.

Where code and documentation differ, the model follows the code: the minimum gas limit is 4000000
(l2geth/params/protocol_params.go:23), so the header bound holds from the limit at which one step reaches that minimum,
and the error message for the price change maximum speaks of (0,100] while the code only refuses values up to zero.

## Model

| member | source | states |
|---|---|---|
| `Surgery.AddBalanceSlots` | op-chain-ops/cli.go:83-101 | every listed address is collected and its balance key classified as a balance, over whatever was there before; nothing else changes |
| `Surgery.AddAllowanceSlots` | op-chain-ops/cli.go:104-121 | every owner is collected and every owner-spender key classified as an allowance; nothing else changes |
| `Surgery.Collect` | op-chain-ops/cli.go:83-152 | the collected addresses are those of the four sources, and a slot is classified by the last source that names it |
| `Surgery.SumSlots` | op-chain-ops/cli.go:164-196 | in any iteration order: fails exactly when some slot is neither expected, a variable nor known missing, and otherwise returns the sum of all balance slots |
| `Surgery.ImportStorage` | op-chain-ops/cli.go:301-316 | the account ends with exactly the non-zero slots of its old storage and every other account is untouched |
| `Surgery.ImportGenesis` | op-chain-ops/cli.go:233-241 | the output holds exactly the genesis accounts |
| `Surgery.ImportAccount` | op-chain-ops/cli.go:277-316 | one account is rebuilt with its OVM ETH balance, code, nonce and storage on top of the accounts done so far |
| `Surgery.ImportTrie` | op-chain-ops/cli.go:243-319 | fails exactly when a migrated account has a balance in state; otherwise every trie account outside genesis and OVM ETH is rebuilt, all trie addresses are marked and the total is their OVM ETH |
| `Surgery.ImportZeroNonce` | op-chain-ops/cli.go:321-335 | exactly the collected addresses not in the trie are topped up, and the total grows by their OVM ETH |
| `Surgery.Migrate` | op-chain-ops/cli.go:71-350 | the outcome, error or committed state, is the same function of the input for every iteration order |
| `Surgery.TopUpOneMore` | op-chain-ops/cli.go:326-335 | topping up one more address after the others is topping up all of them at once |
| `Surgery.SlotsClassified` | op-chain-ops/cli.go:164-196 | the slot map decides exactly which slots are counted and which are missed |
| `Surgery.FinalBalance` | op-chain-ops/cli.go:233-335 | a final balance is the genesis allocation plus the OVM ETH moved to the address |
| `Surgery.FinalSum` | op-chain-ops/cli.go:233-335 | the output balances sum to the genesis allocation plus the sum over migrated accounts |
| `Surgery.Conservation` | op-chain-ops/cli.go:201-345 | a committed state's balances sum to the genesis allocation plus total supply minus the expected delta |
| `Surgery.AccountsPreserved` | op-chain-ops/cli.go:233-335 | trie accounts outside genesis keep code, nonce and every slot and get their OVM ETH balance; genesis accounts in the trie end with their genesis contents; OVM ETH itself is dropped |
| `Surgery.WorldIs` | op-chain-ops/cli.go:233-335 | the output has exactly the genesis accounts, the trie accounts other than OVM ETH and the collected addresses outside the trie |
| `Surgery.OutsidersKept` | op-chain-ops/cli.go:321-335 | an account outside the trie keeps code, nonce and every slot of its allocation, or has none, and gets its OVM ETH on top |
| `Surgery.CountedSlotHasOwner` | op-chain-ops/cli.go:83-152 | a slot counted as a balance is the balance key of a collected address |
| `Surgery.FoundIsListed` | op-chain-ops/cli.go:164-196 | counting balance slots is counting the addresses they belong to |
| `Surgery.FoundIsEveryoneListed` | op-chain-ops/cli.go:164-196 | the OVM ETH of all known addresses is the sum over slots plus what uncounted slots hold |
| `Surgery.EveryoneIsMigratedOrSkipped` | op-chain-ops/cli.go:253-335 | the OVM ETH of all known addresses is the sum over accounts plus what skipped accounts hold |
| `Surgery.TotalsDifference` | op-chain-ops/cli.go:164-345 | the two totals differ by exactly skipped against uncounted balances |
| `Surgery.UnlistedIsKnownMissing` | op-chain-ops/cli.go:185-192 | after the missed-key check an uncounted balance slot of a known address is on the known-missing list |
| `Surgery.FinalCheckFailsIffSkippedHolds` | op-chain-ops/cli.go:337-345 | once earlier checks passed and no known-missing key is a known address's balance key, the final check fails if and only if a skipped account holds OVM ETH |
| `Surgery.MissedIff` | op-chain-ops/cli.go:164-196 | a slot is missed exactly when it is above the variables, not known to be missing, and not the slot of a listed address or pair |
| `Surgery.FailsBecause` | op-chain-ops/cli.go:164-345 | every failure names its own cause |
| `Surgery.NothingMissed` | op-chain-ops/cli.go:164-196 | for a token laid out as Solidity does, listing its holders and approvals leaves no slot unaccounted for |
| `Surgery.FoundIsHeld` | op-chain-ops/cli.go:164-196 | the sum over slots is what the holders of the token have |
| `Surgery.TotalsAgreeIff` | op-chain-ops/cli.go:253-345 | for such a token the totals agree exactly when no skipped account holds any |
| `Surgery.TokenCommitsIff` | op-chain-ops/cli.go:71-350 | the migration of a covered token commits if and only if supply minus holdings is the expected delta, no migrated account has a balance in state and no skipped account holds any |
| `Surgery.HoldersPaid` | op-chain-ops/cli.go:71-350 | and then every holder has in ether, on top of an allocation, exactly what it held |
| `SendStates.SendState.constructor` | bss-core/txmgr/send_state.go:26-36 | starts with an empty history, for a non-zero threshold |
| `SendStates.SendState.ProcessSendError` | bss-core/txmgr/send_state.go:41-57 | the fields stay a replay of the history, which grows by this error |
| `SendStates.SendState.TxMined` | bss-core/txmgr/send_state.go:61-66 | the fields stay a replay of the history, which grows by this mark |
| `SendStates.SendState.TxNotMined` | bss-core/txmgr/send_state.go:70-85 | the fields stay a replay of the history, which grows by this mark |
| `SendStates.SendState.ShouldAbortImmediately` | bss-core/txmgr/send_state.go:90-102 | abort if and only if no hash's latest mark is mined and the errors since the mined set last became empty reach the threshold |
| `SendStates.SendState.IsWaitingForConfirmation` | bss-core/txmgr/send_state.go:106-111 | true if and only if some hash's latest mark is mined |
| `SendStates.LastMarkStep` | bss-core/txmgr/send_state.go:61-85 | how one more event changes which hashes are last marked mined |
| `SendStates.MinedIsLatestMark` | bss-core/txmgr/send_state.go:61-85 | after any events the mined set holds exactly the hashes whose latest mark is mined |
| `SendStates.EmptyMinedIsNoneMined` | bss-core/txmgr/send_state.go:106-111 | the mined set is empty exactly when the history leaves no hash mined |
| `SendStates.CounterIsErrorsSinceReset` | bss-core/txmgr/send_state.go:41-85 | the counter is the number of nonce-too-low errors since the mined set last became empty, or since the start |
| `SendStates.AbortsIff` | bss-core/txmgr/send_state.go:90-102 | the abort condition in terms of the history alone |
| `SendStates.LastResetExists` | bss-core/txmgr/send_state.go:70-85 | every history has a point from which errors are counted |
| `SendStates.ContainsIff` | bss-core/txmgr/send_state.go:45-56 | an error counts exactly when its text has the phrase with anything before and after |
| `TxManager.StepFrame` | bss-core/txmgr/txmgr.go:138-239 | an action changes at most its own worker, only a spawn adds one, and what was published or seen stays recorded |
| `TxManager.MoverOk` | bss-core/txmgr/txmgr.go:138-199 | the acting worker still only holds hashes it published and sightings that were confirmed |
| `TxManager.WorkersOkStep` | bss-core/txmgr/txmgr.go:138-199 | all workers keep that property over any action |
| `TxManager.InvStep` | bss-core/txmgr/txmgr.go:112-240 | every action keeps the safety invariant of workers, channel and event loop |
| `TxManager.InvAlways` | bss-core/txmgr/txmgr.go:112-240 | the invariant holds at every point of every run |
| `TxManager.SendSafety` | bss-core/txmgr/txmgr.go:112-240 | a returned receipt is of a published transaction, not reverted, confirmed to the required depth; a reverted error comes only with a failed receipt; a context error only after a cancellation or an abort; no worker is live at the return |
| `TxManager.OwnershipStep` | bss-core/txmgr/txmgr.go:138-199 | a worker only ever gives up its hash or takes one that was not published before |
| `TxManager.DistinctStep` | bss-core/txmgr/txmgr.go:138-199 | with fresh publications no two workers hold one hash |
| `TxManager.MinedStep` | bss-core/txmgr/txmgr.go:272-329 | a hash leaves the mined set only by a not-mined mark of the worker that holds it |
| `TxManager.MarksKeptStep` | bss-core/txmgr/txmgr.go:258-329 | a worker past its mined mark keeps its hash in the mined set |
| `TxManager.SettledStep` | bss-core/txmgr/txmgr.go:258-329 | a returned receipt is never taken back |
| `TxManager.CoherentStep` | bss-core/txmgr/txmgr.go:138-329 | ownership, distinctness and marks are kept together by every action |
| `TxManager.CoherentAlways` | bss-core/txmgr/txmgr.go:138-329 | and hold at every point of every run with fresh publications |
| `TxManager.SettledForever` | bss-core/txmgr/txmgr.go:258-329 | once some wait returned a receipt, every later state knows it |
| `TxManager.NoAbortAfterConfirmation` | bss-core/txmgr/txmgr.go:159-225 | after a confirmation every abort check is false and no resubmission tick starts a worker, for distinct hashes |
| `TxManager.SettledIsMined` | bss-core/txmgr/txmgr.go:258-329 | a returned receipt's hash is in the mined set |
| `TxManager.OwnHashesStep` | bss-core/txmgr/txmgr.go:138-157 | every published hash stays that of a worker past its publication |
| `TxManager.OwnHashesAlways` | bss-core/txmgr/txmgr.go:138-157 | and is so at every point of every run |
| `TxManager.InjectiveIsFresh` | bss-core/txmgr/txmgr.go:138-157 | workers with different transactions never publish a hash twice |
| `TxManager.ManyWorkers` | bss-core/txmgr/txmgr.go:209-225 | ticks can start any number of workers |
| `TxManager.SharedHashPublished` | bss-core/txmgr/txmgr.go:138-157 | any two workers with one transaction can both publish it |
| `TxManager.SharedHashConfirmed` | bss-core/txmgr/txmgr.go:258-329 | one of them can then find it confirmed |
| `TxManager.SharedHashUnmarked` | bss-core/txmgr/txmgr.go:258-329 | and the other can remove the shared mark, which leaves nothing mined after a confirmation |
| `TxManager.InjectiveIsQuiet` | bss-core/txmgr/txmgr.go:159-225 | with different transactions no abort and no tick does anything after a confirmation |
| `TxManager.QuietIffInjective` | bss-core/txmgr/txmgr.go:159-225 | in all runs no abort check succeeds and no tick starts a worker after a confirmation, if and only if different workers have different transactions |
| `TxManager.ExitStep` | bss-core/txmgr/txmgr.go:138-199 | after cancellation every live worker, reporting ones included, has an enabled action that brings it closer to its end |
| `TxManager.CanReturn` | bss-core/txmgr/txmgr.go:120-131 | from the deferred wait the call can always reach its return |
| `TxManager.LeaveStep` | bss-core/txmgr/txmgr.go:120-199 | once the call waits for its workers, every action but another poll uses up some of what is left to do |
| `TxManager.LeavingIsBounded` | bss-core/txmgr/txmgr.go:120-199 | however workers are scheduled and answered, the wait lasts at most as many actions as were left plus four per poll |
| `TxManager.LeavingNeverBlocks` | bss-core/txmgr/txmgr.go:120-199 | until the return some action other than a poll is enabled |
| `TxManager.BeforeFirstReport` | bss-core/txmgr/txmgr.go:186-198 | before the first report the channel is empty, nobody has finished with a receipt and none is returned |
| `TxManager.KeepsStep` | bss-core/txmgr/txmgr.go:186-237 | a sighting in the channel stays there until the event loop leaves with it or stops |
| `TxManager.FirstReportKept` | bss-core/txmgr/txmgr.go:186-237 | at every point after the first report its sighting waits in the channel, or is what the call leaves with unless it was stopped |
| `TxManager.NoReceiptLost` | bss-core/txmgr/txmgr.go:186-237 | while the event loop runs, a worker that finished with a receipt means that the first sighting reported waits in the channel |
| `TxManager.ReportReturns` | bss-core/txmgr/txmgr.go:186-237 | a worker about to report to an empty channel can have its receipt returned, with the revert error exactly when it failed |
| `TxManager.FoundReturns` | bss-core/txmgr/txmgr.go:258-329 | a receipt found deep enough below the tip can be returned |
| `TxManager.WaitingReturns` | bss-core/txmgr/txmgr.go:258-329 | so can one that a waiting worker finds at a later poll |
| `TxManager.UnsettledReturns` | bss-core/txmgr/txmgr.go:272-329 | an unknown or missing receipt or an insufficient tip leaves the worker polling, so that its receipt can still be returned |
| `TxManager.PlainRun` | bss-core/txmgr/txmgr.go:112-240 | every transaction that publishes and confirms can be what a call returns |
| `TxManager.ErrorStopsIff` | bss-core/txmgr/txmgr.go:159-173 | a failed publication that is no cancellation cancels the call if and only if nothing is mined and the errors reach the threshold with it |
| `TxManager.CancelledReturns` | bss-core/txmgr/txmgr.go:227-230 | a cancelled call that still loops can return the context error |
| `TxManager.CallerCancelReturns` | bss-core/txmgr/txmgr.go:227-230 | so can one whose caller has given up |
| `TxManager.PublishedIs` | bss-core/txmgr/txmgr.go:156-176 | a hash counts as published exactly when a worker has published it without error |
| `TxManager.AbortSeenIs` | bss-core/txmgr/txmgr.go:164-171 | an abort counts as seen exactly when an abort check found nothing mined and enough errors |
| `TxManager.CallerDoneIs` | bss-core/txmgr/txmgr.go:227-230 | the caller counts as gone exactly when it has given up |
| `TxManager.CameFrom` | bss-core/txmgr/txmgr.go:138-199 | a worker is where its own last action brought it |
| `TxManager.ActsOnAnswer` | bss-core/txmgr/txmgr.go:138-329 | marks, abort checks, reports and queries follow exactly the answers that call for them |
| `Backends.Index` | proxyd/backend.go:469-477 | the position map exists exactly when identifiers are distinct and is then the inverse of the request order |
| `Backends.Insert` | proxyd/backend.go:479-484 | one response is added at a place the comparison accepts |
| `Backends.Sort` | proxyd/backend.go:479-484 | the result is ordered by request position and a permutation of the responses |
| `Backends.SortAligns` | proxyd/backend.go:469-484 | if the responses carry exactly the requests' identifiers in any order, the sort puts each at its request |
| `Backends.IdsPermute` | proxyd/backend.go:479-484 | reordering responses keeps their identifiers as a multiset |
| `Backends.DoForward` | proxyd/backend.go:368-461 | an answer is delivered sorted, refused with the code's error class, or panics exactly for a nil element or duplicate identifiers |
| `Backends.Retry` | proxyd/backend.go:233-281 | the retry loop returns the first exchange that ends the search and stops at once on an unexpected shape |
| `Backends.ForwardBackend` | proxyd/backend.go:223-285 | one backend answers by its retries, or reports offline, unexpected or permanent errors accordingly |
| `Backends.ForwardGroup` | proxyd/backend.go:491-536 | the first backend with an answer wins; no answer gives the no-backends error; an empty batch asks nobody |
| `Backends.AnswerAligned` | proxyd/backend.go:447-484 | with honest backends position k of an answer carries request k's identifier |
| `Backends.SingleDelivered` | proxyd/backend.go:409-445 | a single request is answered exactly by an object under status 200, or 400 with an error that then records the status |
| `Backends.BatchDelivered` | proxyd/backend.go:409-458 | a batch is answered exactly by a list of its length without nulls under these statuses, kept in order |
| `Backends.UnexpectedIff` | proxyd/backend.go:428-449 | an answer fails over at once exactly when it is an object or a list of another length where a list was asked for |
| `Backends.AttemptsAre` | proxyd/backend.go:233-281 | the retries end at the first exchange not worth retrying, or after the last attempt |
| `Backends.BackendFails` | proxyd/backend.go:223-285 | an online backend whose attempts all fail is asked exactly once more than its retries; an offline one not at all |
| `Backends.BackendStops` | proxyd/backend.go:233-281 | a backend stops at the first attempt not worth retrying and answers if that one delivers |
| `Backends.FirstBackendWins` | proxyd/backend.go:491-536 | the answer is that of the first backend in order that gives one, and there is none only if all are silent |
| `BatchServer.AddPlace` | proxyd/server.go:442-449 | adding a request gives it one place and keeps everyone else's |
| `BatchServer.AddCounted` | proxyd/server.go:442-449 | numbering groups by the count of an identifier keeps each group free of duplicates |
| `Rpc.InvalidIDIff` | proxyd/rpc.go:76-85 | the identifiers refused are the empty text, empty strings, objects and lists |
| `Rpc.ValidateIs` | proxyd/rpc.go:119-133 | a request is valid exactly with version 2.0, a method and a valid identifier, and otherwise told the first fault |
| `BatchServer.RouteIs` | proxyd/server.go:382-449 | a request is forwarded as it came, to its method's group, exactly when it is valid, mapped and under all limits; otherwise it is told the first objection |
| `BatchServer.RequestsPlaced` | proxyd/server.go:382-449 | and the groups hold it under exactly that condition |
| `BatchServer.Split` | proxyd/server.go:378-450 | every request is either replied to or in exactly one place of one group for its backend group, in the group numbered by the occurrence of its identifier; no group holds an identifier twice, and each is in batch order |
| `BatchServer.MissesAre` | proxyd/server.go:454-464 | the misses are exactly the elements the cache does not have |
| `BatchServer.MissesDistinct` | proxyd/server.go:454-464 | the misses of a duplicate-free group are duplicate-free |
| `BatchServer.Lookup` | proxyd/server.go:454-464 | hits are written to their own slots, misses are kept in order, the flag says whether there was a hit |
| `BatchServer.Scatter` | proxyd/server.go:497-498 | each result goes to its element's slot and no other slot changes |
| `BatchServer.ServeMinibatch` | proxyd/server.go:480-510 | one forward of the minibatch, at one exchange number, gives the responses of all its slots: the group's error if no backend answers, and the winning sorted answer otherwise |
| `BatchServer.WrittenKept` | proxyd/server.go:497-498 | writing a later minibatch leaves the responses of the earlier ones |
| `BatchServer.BatchedStep` | proxyd/server.go:466-511 | one more minibatch keeps the tiling, the order of exchanges and the written answers |
| `BatchServer.ServeMisses` | proxyd/server.go:466-511 | the minibatches tile the misses, all but the last of the maximal size, each sent before the deadline; their exchanges follow one another, and each one's answer is in its slots |
| `BatchServer.ServeGroup` | proxyd/server.go:453-512 | a group's hits have their cached results, its misses the answers of their minibatches, and other slots are untouched |
| `BatchServer.HitsKept` | proxyd/server.go:453-512 | writing the misses does not disturb the hits |
| `BatchServer.GroupsApart` | proxyd/server.go:442-449 | elements of different groups have different slots |
| `BatchServer.OtherGroupsKept` | proxyd/server.go:453-512 | serving one group leaves the tiling and the hits of the groups before it |
| `BatchServer.LogWritten` | proxyd/server.go:453-512 | and their written answers |
| `BatchServer.HitsAre` | proxyd/server.go:452-464 | a group has a hit exactly when a forwarded request does |
| `BatchServer.ProgressStep` | proxyd/server.go:453-512 | one more group served keeps everything said of the groups before it |
| `BatchServer.ServeAll` | proxyd/server.go:453-512 | in any group order every group is served and tiled, or the clock or a nil answer stopped the loop |
| `BatchServer.AllSlots` | proxyd/server.go:366-515 | once all groups are served every slot holds its reply, its cached result or its place in its minibatch's answer |
| `BatchServer.HandleBatch` | proxyd/server.go:366-515 | which requests are forwarded and what each other one is told, in terms of server and environment alone; the duplicate-identifier panic is unreachable; a finished batch has one log of minibatches in exchange order, each answered once and written whole, that tiles every group's misses and fills every slot; it stops only at an expired deadline or a nil answer; the cached flag is right |
| `BatchServer.ForwardedOnce` | proxyd/server.go:466-511 | no request is sent in two minibatches or twice in one |
| `BatchServer.ExchangesApart` | proxyd/server.go:466-511 | two minibatches are never answered by the same exchange |
| `BatchServer.UnansweredTold` | proxyd/server.go:482-495 | a request that no backend answers is told so under its own identifier |
| `BatchServer.SlotCarriesId` | proxyd/server.go:452-511 | with honest backends every forwarded or cached slot carries its request's identifier |
| `BlockCache.QueryOf` | proxyd/methods.go:273-323 | only requests with valid block inputs are decoded |
| `BlockCache.ByNumberDecodes` | proxyd/methods.go:273-297 | a block request decodes exactly from a valid input and a flag, and to these |
| `BlockCache.RangeDecodes` | proxyd/methods.go:299-323 | a range request decodes exactly from two valid inputs and a flag, and to these |
| `BlockCache.BlockInputIs` | proxyd/methods.go:325-327 | a block number is "0x" and the shortest numeral of a 64-bit number, in either case |
| `BlockCache.ValidInputIff` | proxyd/methods.go:357-363 | the valid inputs are three tags and those numerals |
| `BlockCache.RpcCache.GetRPC` | proxyd/cache.go:135-145 | answers exactly from the entry under the query's key, for cacheable queries |
| `BlockCache.RpcCache.IsConfirmed` | proxyd/methods.go:91-104 | the guard for one block input, with wrapping addition |
| `BlockCache.RpcCache.MayStore` | proxyd/methods.go:82-176 | a query may be stored exactly when it is cacheable and every block it names passes the guard |
| `BlockCache.RpcCache.PutRPC` | proxyd/cache.go:147-157 | writes exactly the query's entry, exactly when it may be stored |
| `BlockCache.InputHasNoColon` | proxyd/methods.go:357-363 | a valid block input contains no key separator |
| `BlockCache.KeyInjective` | proxyd/methods.go:57-136 | distinct queries, also of the two methods, have distinct keys |
| `BlockCache.SameKeyIff` | proxyd/methods.go:57-136 | two decodable requests share a key if and only if they have the same method and parameters |
| `BlockCache.PutThenLookup` | proxyd/methods.go:373-399 | a put is found again under its own query, unless empty, and changes what is found under no other |
| `BlockCache.MayPutIff` | proxyd/methods.go:82-176 | a block is put exactly when it is genesis or more than the confirmations below the latest number; a range exactly when both ends are and that number is known |
| `BlockCache.GuardWraps` | proxyd/methods.go:102-104 | where number and confirmations exceed 64 bits the guard compares with the wrapped sum |
| `BlockCache.ForeignKeysApart` | proxyd/methods.go:197-200 | keys of other users of the store never collide with block keys |
| `BlockCache.FinalAnswerStays` | proxyd/methods.go:57-176 | an answer about final blocks is the same on every later chain |
| `BlockCache.GuardMeansFinal` | proxyd/methods.go:82-176 | passing the guard with a number the chain has reached means the named blocks are final |
| `BlockCache.PutKeepsStore` | proxyd/methods.go:387-399 | a put of a right, final answer keeps every entry right |
| `BlockCache.InvStep` | proxyd/server.go:456-510 | every step keeps every entry final and right |
| `BlockCache.CacheCoherent` | proxyd/methods.go:57-176 | over every run a hit is what the backend would answer now |
| `BlockCache.UnsettledGoesStale` | proxyd/server.go:488-510 | an answer about a block that is not final can be put, past its guard, after the chain has replaced it |
| `BlockCache.LatePutRun` | proxyd/server.go:488-510 | a forward, a reorganisation and a put that passes its guard are a run of the cache |
| `BlockCache.StaleRun` | proxyd/server.go:488-510 | for every answered query about a block that is not final some run ends with a hit the backend would not give |
| `BlockCache.LatePutSafeIffFinal` | proxyd/server.go:488-510 | a put after the forward is right on every later chain if and only if the named blocks were final at the forward |
| `CachedBatches.CachedSlotIsCurrent` | proxyd/server.go:456-464 | a block request of a batch served from the cache gets its own identifier and the backend's answer at the time of the lookup |
| `FrontendLimiter.LimitedKeys.Take` | proxyd/frontend_rate_limiter.go:39-49 | counts the call and admits it while the earlier count is below the maximum |
| `FrontendLimiter.MemoryFrontendRateLimiter.Acquire` | proxyd/frontend_rate_limiter.go:72-86 | a new, empty generation exactly when the window is not the current one |
| `FrontendLimiter.MemoryFrontendRateLimiter.Take` | proxyd/frontend_rate_limiter.go:72-89 | one undisturbed call counts in its window and forgets earlier windows |
| `FrontendLimiter.AcquireStep` | proxyd/frontend_rate_limiter.go:72-86 | picking a generation keeps the invariant as long as no window comes back |
| `FrontendLimiter.LimitStep` | proxyd/frontend_rate_limiter.go:39-49 | one more finished call keeps the number admitted at the minimum of calls and maximum |
| `FrontendLimiter.CountsStep` | proxyd/frontend_rate_limiter.go:39-49 | a generation's counts stay the finished calls of its window |
| `FrontendLimiter.CountStep` | proxyd/frontend_rate_limiter.go:39-49 | counting keeps the invariant |
| `FrontendLimiter.WindowsStep` | proxyd/frontend_rate_limiter.go:72-86 | the clock history grows by every window other than the current one |
| `FrontendLimiter.LimitUnrepeated` | proxyd/frontend_rate_limiter.go:72-89 | under every interleaving, while no window was read again, each window has one generation and exactly min(n, max) of n finished calls per key are admitted |
| `FrontendLimiter.WindowsAscend` | proxyd/frontend_rate_limiter.go:72-86 | a clock that does not run backwards gives ascending windows |
| `FrontendLimiter.LimitAlways` | proxyd/frontend_rate_limiter.go:72-89 | in particular the limit holds throughout every run whose clock does not run backwards |
| `FrontendLimiter.WholeTake` | proxyd/frontend_rate_limiter.go:72-89 | one undisturbed call as a run of the interleaving model |
| `FrontendLimiter.Fill` | proxyd/frontend_rate_limiter.go:72-89 | the first max calls after a change of window are admitted |
| `FrontendLimiter.FillAll` | proxyd/frontend_rate_limiter.go:72-89 | over every clock history a key can be admitted the maximum in every generation |
| `FrontendLimiter.RepeatOveradmits` | proxyd/frontend_rate_limiter.go:72-89 | every clock history that returns to a window has a run that admits at least twice the maximum there |
| `FrontendLimiter.HistoryNeighbours` | proxyd/frontend_rate_limiter.go:72-86 | neighbouring generations always have different windows |
| `FrontendLimiter.LimitIffUnrepeated` | proxyd/frontend_rate_limiter.go:72-89 | for every maximum and every clock history, the limit holds in all runs over it if and only if the maximum is not positive or no window is read again after another one |
| `WsSlots.LocalBackendRateLimiter.IncBackendWSConns` | proxyd/backend_rate_limiter.go:219-227 | takes a slot unless the counter is at the maximum, which may be any integer |
| `WsSlots.LocalBackendRateLimiter.DecBackendWSConns` | proxyd/backend_rate_limiter.go:229-237 | gives a slot back unless the counter is at zero |
| `WsSlots.SlotsStep` | proxyd/backend.go:287-306 | every dial, failure and close keeps one backend's counter right |
| `WsSlots.InvStep` | proxyd/backend.go:287-306 | and all backends' counters |
| `WsSlots.SlotsAlways` | proxyd/backend.go:287-355 | counters are right at every point of every interleaving |
| `WsSlots.SlotAccounting` | proxyd/backend.go:339-355 | a backend's counter equals its dials in flight plus its open connections and never exceeds a positive maximum; a negative maximum counts without a limit |
| `WsSlots.GuardFiresIffUnlimited` | proxyd/backend.go:750-757 | the decrement-at-zero guard fires exactly for backends whose maximum is zero |
| `WsSlots.DialsIff` | proxyd/backend.go:287-355 | a dial goes ahead, and takes a slot, if and only if there is no positive maximum or fewer holders than that |
| `WsSlots.SlotComesBack` | proxyd/backend.go:287-306 | every dial and connection can end, and then frees its own slot only |
| `WsSlots.DialOpens` | proxyd/backend.go:304-305 | a successful dial holds its slot until its pump ends |
| `Batcher.BatchSubmitter.AdoptSafe` | op-batcher/batch_submitter.go:297-305 | the safe head becomes the last submitted block and the record of channels starts over |
| `Batcher.BatchSubmitter.ReadBlocks` | op-batcher/batch_submitter.go:313-332 | reads consecutive linked blocks up to the unsafe head, or stops at the first failed fetch, parent mismatch or refused block |
| `Batcher.BatchSubmitter.PublishFrames` | op-batcher/batch_submitter.go:338-395 | confirms frame after frame until the last, or stops at the first failure |
| `Batcher.BatchSubmitter.Iterate` | op-batcher/batch_submitter.go:269-409 | one iteration, with all its early exits, is one step of the run |
| `Batcher.CollectLinked` | op-batcher/batch_submitter.go:313-332 | the blocks read are parent-linked and consecutive from the last submitted block |
| `Batcher.LinkedAppend` | op-batcher/batch_submitter.go:402-402 | linked chains join at their common block |
| `Batcher.SubmittedFrames` | op-batcher/batch_submitter.go:338-395 | a finished frame loop confirmed every frame, and only its last was the end of the channel |
| `Batcher.SubmitKeepsInv` | op-batcher/batch_submitter.go:396-402 | a finished channel extends the chain |
| `Batcher.FailureNeverAdvances` | op-batcher/batch_submitter.go:269-409 | a tick that does not submit leaves the last submitted block, or sets it to the safe head |
| `Batcher.CatchUpKeepsInv` | op-batcher/batch_submitter.go:297-305 | adopting the safe head keeps the invariant |
| `Batcher.InvStep` | op-batcher/batch_submitter.go:269-409 | every tick keeps the chain invariant |
| `Batcher.ChainAlways` | op-batcher/batch_submitter.go:269-409 | at every point of every run the last submitted block ends a linked, consecutive chain from the adopted safe head through fully confirmed channels |
| `Batcher.EachBlockOnce` | op-batcher/batch_submitter.go:313-402 | since the adoption no block is in two channels or twice in one |
| `Batcher.CollectAll` | op-batcher/batch_submitter.go:313-332 | readable blocks are all read in order, the unsafe head included |
| `Batcher.CollectStops` | op-batcher/batch_submitter.go:313-332 | the first block that is missing, unlinked or refused stops the reading with that fault |
| `Batcher.SendFramesIs` | op-batcher/batch_submitter.go:338-395 | the frame loop submits exactly a channel confirmed to its last frame, and fails at the first frame that is not |
| `Batcher.IdleTick` | op-batcher/batch_submitter.go:269-296 | a tick has nothing to do, and changes nothing, exactly without a status, an L1 head or new blocks |
| `Batcher.ActiveTick` | op-batcher/batch_submitter.go:297-400 | any other tick goes on from the safe head at the start or when overtaken, and else from the last block; each failure has its exact condition, and only a reorganisation goes back to the safe head |
| `Batcher.ReadingTick` | op-batcher/batch_submitter.go:313-332 | a reading failure is the fault of the first block that is not good |
| `Batcher.SubmitsIff` | op-batcher/batch_submitter.go:269-409 | a tick submits if and only if it is active, the channel opens and closes, every block up to the unsafe head is readable and the frames go out to the last |
| `Batcher.SubmitsAll` | op-batcher/batch_submitter.go:313-402 | and then it submits exactly the blocks from its base to the unsafe head, which becomes the last one submitted |
| `GasLimit.NoWrap` | l2geth/core/block_validator.go:108-139 | from 1024 on the 64-bit arithmetic does not wrap |
| `GasLimit.Wraps` | l2geth/core/block_validator.go:108-139 | below 1024 the decay wraps and the limit jumps to the minimum |
| `GasLimit.StepAllowed` | l2geth/core/block_validator.go:108-139 | above the threshold a step stays within parent/1024, section 4.3.4 (Block Header Validity) of the Ethereum Yellow Paper |
| `GasLimit.StepForbidden` | l2geth/core/block_validator.go:108-139 | at or below the threshold some step breaks that bound |
| `GasLimit.AllowedIff` | l2geth/core/block_validator.go:108-139 | all steps from a limit respect the bound if and only if limit plus limit/1024 exceeds the minimum |
| `GasLimit.ClosedIff` | l2geth/core/block_validator.go:126-139 | a step from inside the interval stays inside if and only if the decay does not wrap or the limit is below the ceiling |
| `GasLimit.StepCloser` | l2geth/core/block_validator.go:126-139 | a step takes at least the decay off the distance to the interval |
| `GasLimit.StuckStep` | l2geth/core/block_validator.go:108-139 | from a stuck limit (no decay below a high floor, or a ceiling too low for the decay) a step leads to a stuck limit |
| `GasLimit.SmallStep` | l2geth/core/block_validator.go:108-139 | other limits below 1024 get closer: the wrapped decay counts down to zero and jumps to the floor |
| `GasLimit.LargeStep` | l2geth/core/block_validator.go:108-139 | other limits from 1024 on get closer by their decay |
| `GasLimit.RunEnters` | l2geth/core/block_validator.go:108-139 | from a limit that is not stuck every run enters the interval within its rank |
| `GasLimit.StuckForever` | l2geth/core/block_validator.go:108-139 | from a stuck limit no run ever enters |
| `GasLimit.EntersIff` | l2geth/core/block_validator.go:108-139 | every run from a limit enters the interval if and only if the limit is not stuck |
| `GasLimit.RunStays` | l2geth/core/block_validator.go:126-139 | with a ceiling of at least 1024 a run that has entered stays |
| `GasLimit.RefinesIdeal` | l2geth/core/block_validator.go:108-139 | from 1024 on the 64-bit code computes the rule in plain integers, with its target, minimum and clamps |
| `GasPricing.NewPricer` | gas-oracle/gasprices/l2_gas_pricer.go:29-42 | accepted exactly for a positive floor and change; the price starts at the larger of price and floor |
| `GasPricing.NextPrice` | gas-oracle/gasprices/l2_gas_pricer.go:46-75 | the next price is never below the floor |
| `GasPricing.GasPricer.CompleteEpoch` | gas-oracle/gasprices/l2_gas_pricer.go:78-86 | price and recorded usage move together, and not at all on an error |
| `GasPricing.ChangeMonotone` | gas-oracle/gasprices/l2_gas_pricer.go:55-67 | the clamped ratio grows with usage and stays below one plus the maximum |
| `GasPricing.PriceMonotone` | gas-oracle/gasprices/l2_gas_pricer.go:46-75 | more usage never lowers the next price |
| `GasPricing.FixedAtTarget` | gas-oracle/gasprices/l2_gas_pricer.go:46-75 | at target usage the price stays |
| `GasPricing.PriceStepBound` | gas-oracle/gasprices/l2_gas_pricer.go:46-75 | one epoch multiplies the price by at most one plus the maximum, plus one for rounding |
| `GasPricing.ZeroUsageStep` | gas-oracle/gasprices/l2_gas_pricer.go:46-75 | without usage the price falls, and stays exactly at the floor or where the largest step is below one unit |
| `GasPricing.TrajectoryCeiling` | gas-oracle/gasprices/l2_gas_pricer.go:46-86 | after any n epochs the price is within the recurrence of largest steps |
| `GasPricing.CeilingClosedForm` | gas-oracle/gasprices/l2_gas_pricer.go:46-86 | that recurrence has the closed form (p + 1/m)(1 + m)^n - 1/m |
| `GasPricing.TrajectoryBound` | gas-oracle/gasprices/l2_gas_pricer.go:46-86 | after any n epochs: floor <= price <= (p + 1/m)(1 + m)^n - 1/m |
| `GasPricing.IdleComesToRest` | gas-oracle/gasprices/l2_gas_pricer.go:46-86 | without usage the price reaches a rest point in at most as many epochs as it is above the floor |
| `GasPricing.ChangeIs` | gas-oracle/gasprices/l2_gas_pricer.go:55-67 | the change is the ratio of usage to target, cut off at one maximal change below and above one |
| `GasPricing.NextPriceIs` | gas-oracle/gasprices/l2_gas_pricer.go:46-75 | the next price is the least whole number neither below the floor nor below the changed price; only negative usage and a target below one are refused |
| `EpochAccounting.GasPriceUpdater.AccumulateGas` | gas-oracle/gasprices/gas_price_updater.go:70-80 | the sum of the epoch's blocks, or nothing if one cannot be fetched |
| `EpochAccounting.GasPriceUpdater.UpdateGasPrice` | gas-oracle/gasprices/gas_price_updater.go:53-94 | one call, with every failure, is one step of the books |
| `EpochAccounting.UpdateStep` | gas-oracle/gasprices/gas_price_updater.go:53-94 | a call keeps the epochs consecutive and rightly charged |
| `EpochAccounting.GasSplits` | gas-oracle/gasprices/gas_price_updater.go:70-80 | the gas of adjoining ranges adds up |
| `EpochAccounting.ChargedIsGas` | gas-oracle/gasprices/gas_price_updater.go:70-89 | tiled epochs are charged with the gas of the whole range |
| `EpochAccounting.EpochsTile` | gas-oracle/gasprices/gas_price_updater.go:53-94 | over any calls the completed epochs are consecutive disjoint ranges from the first start to the current one and their charges sum to the gas of exactly those blocks, failed publications included |
| `EpochAccounting.PriceFollowsEpochs` | gas-oracle/gasprices/gas_price_updater.go:53-94 | the price stays within the envelope of the number of completed epochs: failed calls do not move it |
| `EpochAccounting.OneBlock` | gas-oracle/gasprices/gas_price_updater.go:70-80 | a range of one block has that block's gas |
| `EpochAccounting.UpdateIs` | gas-oracle/gasprices/gas_price_updater.go:53-94 | a call completes an epoch if and only if there are new blocks, all can be fetched and the target is at least one; every other call changes nothing |
| `EpochAccounting.CompletedEpochIs` | gas-oracle/gasprices/gas_price_updater.go:70-94 | a completed epoch is charged with its blocks, ends at the latest and sets the price for their gas per second, published or not |
| `VarBytes.LittleThere` | l2geth/common/varbytes.go:118-159 | a number written little-endian reads back |
| `VarBytes.LittleBack` | l2geth/common/varbytes.go:66-118 | bytes read little-endian write back |
| `VarBytes.ByteReader.ReadVarInt` | l2geth/common/varbytes.go:172-230 | the reader consumes and returns what the decoder says, errors included |
| `VarBytes.ByteReader.ReadVarBytes` | l2geth/common/varbytes.go:322-345 | the reader consumes and returns what the field decoder says, errors included |
| `VarBytes.ByteWriter.WriteTagged` | l2geth/common/varbytes.go:239-259 | discriminant, then number unless the first write failed; a failure leaves a prefix |
| `VarBytes.ByteWriter.WriteVarInt` | l2geth/common/varbytes.go:234-260 | succeeds exactly when every write did and has then appended the encoding; otherwise it has appended a prefix of it |
| `VarBytes.ByteWriter.WriteVarBytes` | l2geth/common/varbytes.go:349-358 | succeeds exactly when every write did and has then appended the encoding; otherwise it has appended a prefix of it |
| `VarBytes.IntRoundTrip` | l2geth/common/varbytes.go:172-283 | for every uint64 and any tail, reading what was written gives the value and exactly the tail; its length is the serialized size |
| `VarBytes.IntCanonical` | l2geth/common/varbytes.go:172-283 | a successful read consumed exactly the canonical encoding of its result |
| `VarBytes.IntReadsIff` | l2geth/common/varbytes.go:172-230 | a read succeeds if and only if the bytes begin with an encoding |
| `VarBytes.IntFailsIff` | l2geth/common/varbytes.go:172-230 | a read runs short exactly when the discriminant or its number is cut off, and is non-canonical exactly for a number that fits a shorter form; what each uses up |
| `VarBytes.FieldRoundTrip` | l2geth/common/varbytes.go:322-358 | a written field reads back if and only if it is within the limit, and is otherwise refused as too long |
| `VarBytes.FieldCanonical` | l2geth/common/varbytes.go:322-358 | a field that reads is the encoding of its bytes |
| `VarBytes.FieldsRoundTrip` | l2geth/common/varbytes.go:322-358 | any list of fields within the limit reads back |
| `VarBytes.FieldsUnique` | l2geth/common/varbytes.go:322-358 | two lists written to the same bytes are the same list |
| `VarBytes.FieldsCanonical` | l2geth/common/varbytes.go:322-358 | bytes that read as fields are the encoding of those fields |
| `DerivationPaths.AppendComponents` | l2geth/accounts/hd.go:92-117 | the loop appends the parsed components to its start, or returns the first error |
| `DerivationPaths.ParseDerivationPath` | l2geth/accounts/hd.go:68-118 | the parser computes the recursive reading of the path, errors included |
| `DerivationPaths.String` | l2geth/accounts/hd.go:122-136 | the printer computes the recursive printed form |
| `DerivationPaths.IntReadsDecimal` | l2geth/accounts/hd.go:103-106 | a printed number reads back, whatever prefixes and separators the reader also accepts |
| `DerivationPaths.ComponentRoundTrip` | l2geth/accounts/hd.go:92-117 | every uint32 component, hardened or not, parses from its printed form |
| `DerivationPaths.SplitPrint` | l2geth/accounts/hd.go:122-136 | a printed path splits into "m" and its printed components |
| `DerivationPaths.PathRoundTrip` | l2geth/accounts/hd.go:68-136 | parsing the printed form gives the path back if it is not empty, and the empty-path error otherwise |
| `DerivationPaths.PrintInjective` | l2geth/accounts/hd.go:122-136 | different paths print differently |
| `DerivationPaths.AcceptedReprints` | l2geth/accounts/hd.go:68-136 | whatever the parser accepts prints to a form with the same parse |
| `DerivationPaths.RelativePath` | l2geth/accounts/hd.go:68-118 | a relative path is the default root followed by the parse of "m/" plus that path, errors included |
| `DerivationPaths.AbsolutePath` | l2geth/accounts/hd.go:74-91 | an absolute path, with white space around its "m" or not, is its other components, of which there has to be one |
| `DerivationPaths.AmbiguousIff` | l2geth/accounts/hd.go:78-79 | a path is ambiguous exactly when only white space comes before its first slash or its end |
| `DerivationPaths.FirstErrorWins` | l2geth/accounts/hd.go:92-117 | the first component that does not parse decides the error |
| `DerivationPaths.SplitJoins` | l2geth/accounts/hd.go:72-72 | splitting takes a path apart at its slashes and nowhere else |
| `DerivationPaths.DefaultRootPrints` | l2geth/accounts/hd.go:31-31 | the default root prints as m/44'/60'/0'/0 |
| `DerivationPaths.PrefixReads` | l2geth/accounts/hd.go:103-106 | each base prefix reads the numeral after it in its own base |
| `DerivationPaths.ZeroReads` | l2geth/accounts/hd.go:103-106 | a lone leading zero means octal |
| `DerivationPaths.SignsRead` | l2geth/accounts/hd.go:103-111 | a sign negates or does nothing |
| `DerivationPaths.DigitsIff` | l2geth/accounts/hd.go:103-106 | underscores are accepted exactly between digits, and do not change the number |
| `DerivationPaths.CaseIgnored` | l2geth/accounts/hd.go:103-106 | capital digits count the same |
| `DerivationPaths.InvalidIff` | l2geth/accounts/hd.go:103-114 | a component is invalid exactly when it is not a number, and otherwise accepted exactly within its range |
| `DerivationPaths.ComponentRange` | l2geth/accounts/hd.go:92-114 | plain components go up to 2^32 - 1, hardened ones to 2^31 - 1, negative ones are refused |
| `DerivationPaths.SpaceIgnored` | l2geth/accounts/hd.go:93-94 | white space around a component does not matter |
| `DerivationPaths.SpaceBeforeMark` | l2geth/accounts/hd.go:98-101 | nor before its apostrophe |
| `DerivationPaths.SpacesAre` | l2geth/accounts/hd.go:93-94 | white space is that of Unicode |

## Left out

- Errors of reading address lists, databases and tries in `Migrate`, and the database writes after its commit: they end the run without a state to speak of.
- `Surgery.Migrate` keeps the code of an account as its bytes: code hashes and RLP are not modelled.
- The block heights of the transaction manager and the gas sums of the epochs are unbounded: 64-bit wrap-around is modelled in the gas limit and in the cache guard only.
- Float rounding of the gas price controller: `float64` is modelled by reals, so results hold up to rounding.
- Go's sort is any permutation the comparison accepts; `Backends.Sort` computes one of them.
- `FrontendLimiter.LimitAlways`: states the special case of a clock that does not run backwards; the exact condition is in `FrontendLimiter.LimitIffUnrepeated`.
- `TxManager.NoAbortAfterConfirmation`: states the case of distinct published hashes; the exact condition on what workers craft is in `TxManager.QuietIffInjective`.
- `TxManager.LeavingIsBounded`: how often a cancelled worker polls before it notices is up to Go's choice among ready channels, so the number of polls itself has no bound.
- The cache inside the batch engine is any source of answers; `CachedBatches.CachedSlotIsCurrent` puts the block cache in its place, and puts are steps of that model.
- The buffer free list of the varint codec, which only recycles memory.
- `BatchServer.HandleBatch` takes the limiters' answers per request as given; the limiters are modelled on their own.
- `Batcher.BatchSubmitter.PublishFrames`: the frame loop runs over a finite script of answers; a script that ends leaves the loop in progress, since the code itself need not terminate.
- Redis limiters and their scripts, and the backend request-rate and offline bookkeeping: they rest on expiry semantics outside the repository.
- `eth_call` in the cache: its key joins unvalidated text, so agreement with the backend would need further assumptions.
- `derive.ChannelOut`, JSON, RLP, snappy, Keccak, signing, HTTP and WebSocket transport, timers, logging and metrics: arbitrary answers or lossless conversions.
- Generated bindings, flags, configuration, exporters, console, wallet lists, URL and hex helpers: only easy members.
