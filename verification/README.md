# Escrow platform: a verified model

The repository runs a milestone escrow. A contract holds client money per milestone and lets a panel of staked
arbiters rule on disputes (`apps/contracts/contracts/Escrow.sol`). An API mirrors the chain into a database by ingesting
its logs (`apps/api/src/chain/indexer.ts`, `indexer-pump.ts`, `generation.ts`), and can run without a chain on a mock
adapter that derives everything from that mirror (`adapter.ts`). A web surface gates what users may click, prints and
parses money, and sends one wallet write at a time. This project models those parts and proves what they promise.

How the files hang together:

- `Basics`, `Milestones`, `Fees`: options, sums, statuses and the transition table, the fee.
- `EscrowBooks` (values) and `Escrow` (the contract as a class): the contract's balance is at all times exactly what it
  owes, every call states its whole effect, and statuses only move forward.
- `Arbitration`, `DisputeGates`, `DisputeRuns`, `ArbiterDraw`: dispute rounds as a state machine, the web gates against
  the contract's guards, and the draw of a panel.
- `Indexer`, `Generation`, `GenerationGate`, `IndexerPump`, `PumpRuns`: the mirror, its rebuild, the gate in front of the
  indexer, one pass with its failures, and whole runs of chain and mirror together.
- `MirrorReceipts`, `MirrorTotals`, `DisputeMirror`: what the mirror says, read off the logs it heard: the columns of a
  milestone, the totals of a user, and the contract's dispute beside its row.
- `MockChain` (the derivation and the actions), `MockRefinement` and `MockRuns` (it behaves like an escrow that keeps its
  fields), `MockRoster` (badges and panels), `MockRules` (who may do what, for how much), `MockAdapter` (the object and its loops).
- `EthText`, `PixelRuns`, `FundingScan`, `UuidRef`, `ChainActions`, `SiweNonce`: money text, sprite runs, the chunked
  search, the reference codec, the shared wallet write, sign-in nonces.

A class proves each of its methods against a function of the old state; what the source promises is proved about
that function. Addresses, identifiers and hashes are only ever compared, so numbers stand for them.

Where code and documentation part, the model follows the code:

- `PumpRuns.SwallowedLogIsNeverRetried`: one bad log must not block the stream (`indexer.ts:95`), but the checkpoint moves
  past it (`indexer-pump.ts:136-141`), so a log whose transaction fails for a passing reason is missing for good.
  `PumpRuns.PollExact` says exactly which failures do harm.
- `GenerationGate.TwoCallsConverge`, `PumpRuns.OldLedgerStays`: a checkpoint is first written without an address
  (`indexer-pump.ts:70-79`), so a chain replaced before the next poll is adopted and its rows stay.
- `PumpRuns.UnnoticedReplacement`, `PumpRuns.SameAddressGoesUnnoticed`: a redeploy is said not to keep its address
  (`generation.ts:23`); one that does and has grown past the checkpoint before the next poll is taken for the old chain.
- `Generation.ResetUndoesDeadChain`: the rebuild promises that all the chain asserted is void, but it keeps the soft
  status a submission stamped (`indexer.ts:297`) and the dispute rows the chain created.
- `DisputeRuns.AppealGateGap`: the appeal gate does not know the contract's limit of two appeals.
- `MockRuns.FundingUsesItsId`: an unlinked funding leaves its onchain id to the next one.
- `UuidRef.EncodeDecode`: the decoder checks neither the prefix nor dashes.
- `EthText.SummarySign`: a negative total that rounds to zero loses its sign.
- `ChainActions.StepKeepsExclusive`: `reset` itself checks nothing; panels keep it away from a busy store by disabled
  buttons (`apps/web/components/arbiter-stake-panel.tsx:346-356`).

Main results:

- `Escrow.Escrow`, with `DisputeRuns.RunIsSafe` and `DisputeRuns.AlwaysSettles`: the contract is solvent to the wei after every
  call, pays each dispute out once by its standing ruling, and can always be settled by calls anyone may make.
- `Escrow.Escrow.FinalizeDispute`, `Escrow.Escrow.TallyRound`: who gets how much by a ruling, and without one, for every address.
- `DisputeRuns.GatesMatchGuards`: the web gates are the contract's guards in every reachable case, but for the limit on appeals.
- `ArbiterDraw.SelectArbiters`: whatever the seed, the draw finds every eligible outsider it needs, each once.
- `MockRuns.RunRefines`, `MockRuns.RunIsSound`: the mock chain derived from its mirror is an escrow updated in place, whatever
  events are lost, and its money balances.
- `PumpRuns.MirrorShowsLiveChain`, `PumpRuns.RunFollows`, `PumpRuns.PollExact`: when, exactly, the mirror shows the live chain.
- `Generation.ResetUndoesDeadChain`, `Generation.RebuiltColumns`: when, exactly, a rebuild restores the mirror from before a
  dead chain, and what it clears, column by column.
- `DisputeMirror.DisputeIsMirrored`: the mirror of a dispute shows the contract's case over every run.
- `MirrorTotals.TotalsAreTheLogs`, `MirrorTotals.CompletionFollows`, `MirrorReceipts.ReceiptsFollow`: users' totals and
  counters and every chain column of a milestone are what the recorded logs say.
- `GenerationGate.TwoCallsConverge`, `GenerationGate.ProductionNeverRebuilds`: the gate settles, and deletes nothing in production.
- `EthText.ReadBack`, `EthText.PrintRead`, `EthText.ShownIsNearest`: money text is lossless where it claims to be.
- `ChainActions.RunsStayExclusive`, `SiweNonce.NonceIsSingleUse`: one wallet write at a time and one sign-in per nonce, over
  every interleaving.
- `PixelRuns.Runs`, `FundingScan.FindFundings`, `UuidRef.EncodeDecode`: lossless and minimal sprites, a chunked scan that is one
  scan, and exactly the references the codec gives back.

## Model

| member | source | states |
|---|---|---|
| `MockRuns.RunRefines` | apps/api/src/chain/adapter.ts:418-480 | Over every run, and whichever events failed to store, the chain derived again from ledger, mirror, counter and roster is the book of a simple escrow that updates block, fee pot, next milestone id, next badge, milestones and roster in place |
| `MockRefinement.Refines` | apps/api/src/chain/adapter.ts:561-740 | The same for one action: status, fee and block changes are exactly those of the direct update, one per action, with the part of each lost event left out |
| `MockRuns.BlocksAreConsecutive` | apps/api/src/chain/adapter.ts:540-559 | The stored logs of an action are its planned events under the next numbers; ledger blocks strictly increase; the counter alone gives the block afterwards, the ledger alone exactly when the last event was stored |
| `MockRuns.KeptExactly` | apps/api/src/chain/adapter.ts:613-700 | An event of a plan is in the ledger under number base + 1 + k exactly when it is the k-th event and its ingest succeeded |
| `MockRuns.Conservation` | apps/api/src/chain/adapter.ts:561-700 | After every run total linked funding = locked amounts + everything paid out (principal, fees, refunds, cancellations, both halves of splits) + exactly one wei per split of an odd amount |
| `MockRuns.RunIsSound` | apps/api/src/chain/adapter.ts:561-740 | After every run from an untouched database the money balances, the ledger settles no milestone twice (once exactly when it is terminal), ledger blocks increase, and the fee pot is not negative |
| `MockRuns.PerformKeepsOrder` | apps/api/src/chain/adapter.ts:581-700 | No action, with any of its events lost, breaks conservation or settles a milestone a second time |
| `MockRuns.WithdrawFeesEmptiesPot` | apps/api/src/chain/adapter.ts:732-740 | The two halves add up to the pot and differ by at most one wei; the pot is empty afterwards when both were stored |
| `MockRuns.FundingUsesItsId` | apps/api/src/chain/adapter.ts:561-571 | A funding always takes a block; the next milestone id moves on exactly when the funding was stored and linked, so an unlinked one leaves its id to be given out again |
| `MockRuns.ShownBalances` | apps/api/src/chain/adapter.ts:581-700 | A legal event takes out of the milestones exactly what it pays |
| `MockRefinement.ShowApply` | apps/api/src/chain/indexer.ts:119-165 | What the ingest of each event does to the linked milestones is the status move the event names, and nothing else changes in the derived view |
| `MockRefinement.ShowFunded` | apps/api/src/chain/indexer.ts:224-288 | A funding under the next id adds exactly the agreed milestone, if client, freelancer and amount match the waiting row, and otherwise nothing |
| `MockRefinement.NewBlockIsNew` | apps/api/src/chain/adapter.ts:540-559 | A log of a new block is never a duplicate of one in the ledger |
| `MockRoster.RunKeepsRoster` | apps/api/src/chain/adapter.ts:703-730 | Over every run badges stay unique and positive, an entry keeps its place and badge for ever, and a registered arbiter is locked exactly when its score is below the floor |
| `MockRoster.RosterStaysOk` | apps/api/src/chain/adapter.ts:691-730 | The same for one action |
| `MockRoster.PanelIsFair` | apps/api/src/chain/adapter.ts:622-646 | A panel is min(3, eligible) distinct wallets, each eligible on the roster and none a party |
| `MockRoster.PanelInMirror` | apps/api/src/chain/indexer.ts:494-521 | The mirror lists exactly the panel drawn, unless the zero address sits on it |
| `MockRules.FreshChain` | apps/api/src/chain/adapter.ts:455-480 | On an untouched database the derived chain is empty: block 1,000,000, no pot, ids and badges from 1 |
| `MockRules.StatusOffers` | apps/api/src/chain/adapter.ts:573-660 | Each status offers exactly its actions to exactly its parties: a funded milestone submission, cancellation and dispute, a submitted one approval and dispute, a disputed one a ruling by any registered arbiter, a released one withdrawal; all else is refused |
| `MockRules.AllowedIsLegal` | apps/api/src/chain/adapter.ts:573-700 | What an allowed action on a milestone announces is a step of the mirror's transition table from its status, to the status named; a withdrawal moves none |
| `MockRules.PlanPays` | apps/api/src/chain/adapter.ts:581-700 | The amounts in the events: a release is the amount less the floor of its fee, by inequalities; a split gives either side half, the freelancer's less the floor of the fee on that half; a refund and a cancellation are whole |
| `MockRules.PanelIsFirstThree` | apps/api/src/chain/adapter.ts:622-642 | A wallet is on the panel exactly when it can sit (registered, staked, old enough, neither locked, leaving nor a party) and fewer than three before it on the roster can |
| `MockRules.RosterMoves` | apps/api/src/chain/adapter.ts:691-730 | A ruling moves only the arbiter's score, by 5 up or 10 down but not below zero, and its lock; a registration is a fresh record with the old badge or a new highest one; leaving clears stake and locks; nobody else's entry changes |
| `MockAdapter.MockChainAdapter.State` | apps/api/src/chain/adapter.ts:418-480 | The loops over rows, roster and ledger compute the derived chain |
| `MockAdapter.MockChainAdapter.EmitEach` | apps/api/src/chain/adapter.ts:613-700 | Emits a list of events with consecutive numbers |
| `MockAdapter.MockChainAdapter.Fund` | apps/api/src/chain/adapter.ts:561-571 | The new store is the specified action, for any lost events |
| `MockAdapter.MockChainAdapter.Submit` | apps/api/src/chain/adapter.ts:573-579 | Refuses exactly when the guard fails; the new store is the specified action |
| `MockAdapter.MockChainAdapter.Approve` | apps/api/src/chain/adapter.ts:581-591 | Refuses exactly when the guard fails; the new store is the specified action, whose amounts `MockRules.PlanPays` states |
| `MockAdapter.MockChainAdapter.Withdraw` | apps/api/src/chain/adapter.ts:593-603 | Refuses exactly when the guard fails; the new store is the specified action |
| `MockAdapter.MockChainAdapter.Cancel` | apps/api/src/chain/adapter.ts:605-611 | Refuses exactly when the guard fails; the new store is the specified action |
| `MockAdapter.MockChainAdapter.Panel` | apps/api/src/chain/adapter.ts:622-642 | The loop picks the first three eligible wallets in roster order |
| `MockAdapter.MockChainAdapter.OpenDispute` | apps/api/src/chain/adapter.ts:613-647 | Refuses exactly when the guard fails; both events are emitted in order |
| `MockAdapter.MockChainAdapter.Resolve` | apps/api/src/chain/adapter.ts:654-701 | Refuses exactly when the guard fails; four events, then the roster, then two events |
| `MockAdapter.MockChainAdapter.RegisterArbiter` | apps/api/src/chain/adapter.ts:703-721 | Refuses exactly when the guard fails; a returning wallet keeps its badge |
| `MockAdapter.MockChainAdapter.DeregisterArbiter` | apps/api/src/chain/adapter.ts:723-730 | Refuses exactly when the guard fails; the entry stays, unregistered and without stake |
| `MockAdapter.MockChainAdapter.WithdrawFees` | apps/api/src/chain/adapter.ts:732-740 | Two withdrawals, half the pot and the rest |
| `PumpRuns.MirrorShowsLiveChain` | apps/api/src/chain/indexer-pump.ts:86-153 | In development, after any run from a never-indexed database with mining, redeployments the gate can tell by address or height, and polls that die anywhere and lose any logs, take a poll that comes through: the mirror is what hearing the deep logs of the live chain once and in order makes of its base exactly when no log was lost harmfully since the last rebuild; the base is a never-indexed mirror, and still the one the run began with exactly when no rebuilt chain had leaked |
| `PumpRuns.RunFollows` | apps/api/src/chain/indexer-pump.ts:86-153 | Along every such run, in any environment, the ledger is a prefix of the deep logs that reaches the checkpoint exactly when no log was lost harmfully since the last rebuild, or the mirror outlived its chain and the gate can tell |
| `PumpRuns.PollExact` | apps/api/src/chain/indexer-pump.ts:129-143 | One poll, wherever it dies and whatever it loses, keeps the mirror with its chain, and the ledger in step exactly when it was, or was rebuilt, and no new log failed below the checkpoint written or ahead of a new log that was stored |
| `PumpRuns.PassExact` | apps/api/src/chain/indexer.ts:60-97 | The same for the pass behind the gate |
| `PumpRuns.LosslessIsIntact` | apps/api/src/chain/indexer-pump.ts:136-141 | Polls that die between any two transactions or writes do no harm as long as every transaction they attempt succeeds |
| `PumpRuns.SomeTells` | apps/api/src/chain/indexer.ts:56-107 | Whatever fails, the mirror is what its own ledger, told again in order, makes of its base |
| `PumpRuns.SwallowedLogIsNeverRetried` | apps/api/src/chain/indexer.ts:93-96 | A concrete chain of one log whose only transaction fails: the checkpoint passes it, and after any number of further polls the mirror is not what the deep logs make of it |
| `PumpRuns.NoRebuildWithoutRedeploy` | apps/api/src/chain/generation.ts:21-36 | While the chain is not replaced, no run of growth and polls, with any losses, ever rebuilds the mirror, and the ledger only grows |
| `PumpRuns.OldLedgerStays` | apps/api/src/chain/generation.ts:52-63 | A poll that does not rebuild keeps everything the ledger holds, whatever chain it came from |
| `PumpRuns.UnnoticedReplacement` | apps/api/src/chain/generation.ts:82-100 | A poll on a chain the gate cannot tell from the recorded one leaves the mirror right exactly when the ledger is a prefix of the new deep logs that reaches the checkpoint and nothing is lost harmfully, or, with nothing to index, when the ledger is the deep logs |
| `PumpRuns.SameAddressGoesUnnoticed` | apps/api/src/chain/generation.ts:82-100 | A concrete chain redeployed at its address and grown past the checkpoint: every poll keeps the dead chain's log, and the mirror is wrong |
| `PumpRuns.TwoPolls` | apps/api/src/chain/indexer-pump.ts:70-79 | The database behind that witness is reached from a never-indexed one by two polls |
| `PumpRuns.OldLedgerGoes` | apps/api/src/chain/generation.ts:139-234 | When the gate can tell, a development poll starts from the rebuilt mirror and hears logs of the live chain only |
| `PumpRuns.DeepExactly` | apps/api/src/chain/indexer-pump.ts:96-99 | A log is deep exactly when it is on the chain, at or after the first block to index, and its block plus the confirmations asked for is at most the tip |
| `PumpRuns.NewLogsAreConfirmed` | apps/api/src/chain/indexer-pump.ts:86-153 | Whatever a poll adds to the ledger, wherever it dies, is on the live chain, above the height it started from, and has its confirmations |
| `IndexerPump.PollHeight` | apps/api/src/chain/indexer-pump.ts:96-141 | A poll that comes through leaves the checkpoint at exactly the last confirmed block; one that dies never leaves it past a block without its confirmations; one that may not index leaves the height, or starts over at 0 |
| `IndexerPump.ReplayIsHarmless` | apps/api/src/chain/indexer-pump.ts:127-143 | A pass that starts again anywhere inside what was already ingested ends as one uninterrupted pass would |
| `IndexerPump.LogsInSplit` | apps/api/src/chain/indexer-pump.ts:127-143 | Consecutive block ranges fetch consecutive logs |
| `IndexerPump.MirrorDb.ResetMirrorForNewChain` | apps/api/src/chain/generation.ts:139-234 | The tables become the rebuilt mirror, the checkpoint the live address at height 0, and the counts are those of what was cleared |
| `IndexerPump.MirrorDb.EnsureCurrentGeneration` | apps/api/src/chain/generation.ts:244-281 | Leaves the specified database and answer for every verdict and environment |
| `IndexerPump.MirrorDb.IngestEvents` | apps/api/src/chain/indexer.ts:56-107 | The loop applies the logs one by one, passes over each whose transaction fails, and leaves the checkpoint alone; what the applied logs mean for rows, totals and disputes is stated by `MirrorReceipts`, `MirrorTotals` and `DisputeMirror` |
| `IndexerPump.MirrorDb.IndexChunks` | apps/api/src/chain/indexer-pump.ts:129-143 | For any chunk size and wherever a fetch or a checkpoint write throws, the checkpoint covers exactly the chunks before it, and what was attempted is the consecutive logs up to there |
| `IndexerPump.MirrorDb.RunIndexerTick` | apps/api/src/chain/indexer-pump.ts:86-153 | The gate and the loop compute the specified poll, for any transactions that fail and any chunk that throws; a height it writes has its confirmations, with equality when nothing threw |
| `GenerationGate.DevelopmentIsSound` | apps/api/src/chain/generation.ts:244-281 | In development the gate always proceeds, and from a recorded address it leaves a checkpoint at the live address and not above the tip, unchanged exactly when it already was |
| `GenerationGate.TwoCallsConverge` | apps/api/src/chain/generation.ts:82-110 | With address and tip fixed no third call changes anything; a second one does exactly when an unrecorded address was adopted above the tip in development |
| `GenerationGate.ProductionNeverRebuilds` | apps/api/src/chain/generation.ts:112-122 | Outside development no sequence of calls changes mirror or height; the only write fills a missing address with the first live one; the gate refuses exactly the replaced chains |
| `GenerationGate.SignalsExactly` | apps/api/src/chain/generation.ts:82-110 | The generation has changed exactly when address or height differ, and each signal stands for its own difference |
| `GenerationGate.GateDecides` | apps/api/src/chain/generation.ts:244-281 | What one call does, by what is recorded: nothing, fill in the address, rebuild at height 0, or refuse |
| `Generation.ResetIsNeverIndexed` | apps/api/src/chain/generation.ts:139-234 | The rebuild equals a mirror whose chain columns were never written exactly when rows without an onchain id carry none; what is cleared is stated by `Generation.RebuiltColumns` |
| `Generation.ResetIdempotent` | apps/api/src/chain/generation.ts:139-234 | Rebuilding twice is rebuilding once, and human records survive it |
| `Generation.NoIdSurvives` | apps/api/src/chain/generation.ts:139-158 | No row can hold any onchain id after the rebuild |
| `Generation.RebuiltColumns` | apps/api/src/chain/generation.ts:139-234 | Column by column: linked milestones, disputes, projects and users keep what people entered and lose everything the chain wrote, and the ledger is gone |
| `Generation.IngestKeepsClean` | apps/api/src/chain/indexer.ts:273-279 | Ingesting any log keeps rows without an onchain id free of chain columns |
| `Generation.ReplayAfterReset` | apps/api/src/chain/generation.ts:139-234 | Whatever the dead chain did, replaying any new chain on the rebuilt mirror is replaying it on one without chain columns |
| `Generation.RebuildKeepsStamp` | apps/api/src/chain/indexer.ts:290-300 | A funding and a submission on the dead chain after which the rebuild is not the mirror from before |
| `Generation.ResetUndoesDeadChain` | apps/api/src/chain/generation.ts:124-134 | The rebuild restores the mirror from before a dead chain exactly when no log of it stamped a soft status or created a dispute row |
| `Indexer.IngestIdempotent` | apps/api/src/chain/indexer.ts:56-107 | Ingesting a log twice is ingesting it once |
| `Indexer.DroppedExactly` | apps/api/src/chain/indexer.ts:70-97 | A new log is dropped with all its writes exactly when it names an unknown outcome for a row that is there |
| `Indexer.LedgerOfApply` | apps/api/src/chain/indexer.ts:167-636 | Applying an event never loses, reorders or rewrites a recorded log |
| `Indexer.IngestEvolves` | apps/api/src/chain/indexer.ts:224-400 | A log changes only linked rows, never moves an id once claimed, and moves a status only along the transition table |
| `Indexer.Legal` | apps/api/src/chain/indexer.ts:179-182 | The row found has the id, and the status is the table's |
| `MirrorTotals.TotalsAreTheLogs` | apps/api/src/chain/indexer.ts:191-205 | After any logs every user has earned the principals and freelancer halves of the releases and splits, recorded and legally applied, of projects whose freelancer it is, and paid the same plus fees of projects whose client it is; the sums are read off logs and projects |
| `MirrorTotals.CompletionFollows` | apps/api/src/chain/indexer.ts:207-222 | After any logs on a never-indexed database a project with milestones is completed exactly when all of them are settled, unless it was cancelled, and every user's counters are the numbers of its completed projects |
| `MirrorReceipts.ReceiptsFollow` | apps/api/src/chain/indexer.ts:224-416 | After any logs on a never-indexed database every chain column of a milestone is witnessed by a recorded log that names it: funding, submission, dispute, settlement by its status, withdrawal, with that log's hash and time; and a row without an id carries none |
| `DisputeMirror.DisputeIsMirrored` | apps/api/src/chain/indexer.ts:431-636 | From its opening on, over every run of a dispute with appeals, the mirror that hears the emitted events shows the contract's case after the last call: status, round, seats, who committed and revealed, counts of every round, deadlines, phase, ruling, and whether it had its quorum |
| `DisputeMirror.MirrorFollowsRun` | apps/api/src/chain/indexer.ts:483-636 | The same from any state in step |
| `DisputeMirror.StepFollows` | apps/contracts/contracts/Escrow.sol:837-1008 | The same for one call, accepted or refused, or the passing of time |
| `DisputeMirror.OpeningShown` | apps/api/src/chain/indexer.ts:431-457 | The mirror shows the opened case exactly when the milestone's dispute row was not played on before, or there is none and the opener is a known user |
| `DisputeMirror.WrittenRow` | apps/api/src/chain/indexer.ts:431-457 | The row written for an opening names the milestone, its project and the opener, and is blank otherwise |
| `DisputeMirror.StampsExactly` | apps/api/src/chain/indexer.ts:459-636 | Which event each time, hash and arbiter on a dispute row comes from, and what no round event touches |
| `Milestones.TableMatchesContract` | apps/api/src/domain/state-machine.ts:35-63 | On funded milestones the mirror's table allows exactly the contract's steps, and nothing leaves a terminal status |
| `Milestones.LaterIsReachability` | apps/contracts/contracts/Escrow.sol:102-112 | The statuses a milestone can have later form a preorder in which terminal ones are final |
| `Arbitration.WinningOutcome` | apps/contracts/contracts/Escrow.sol:1425-1437 | The loop computes the ruling: the strict maximum, or split on a tie |
| `Arbitration.RulingIsValid` | apps/contracts/contracts/Escrow.sol:1425-1437 | A ruling is one of three outcomes; release and refund need strictly more votes than each other outcome; split needs that or a tie of the two |
| `Arbitration.OpenOk` | apps/contracts/contracts/Escrow.sol:666-682 | A fresh dispute satisfies the invariant and fits the disputed status |
| `Arbitration.CommitVoteOk` | apps/contracts/contracts/Escrow.sol:837-849 | An accepted commit keeps the invariant, leaves the round untallied and the standing ruling as it was |
| `Arbitration.RevealVoteOk` | apps/contracts/contracts/Escrow.sol:855-874 | An accepted reveal keeps the invariant, leaves the round untallied and the standing ruling as it was |
| `Arbitration.TallyOk` | apps/contracts/contracts/Escrow.sol:938-1008 | A tally keeps the invariant, with the latest quorate ruling standing |
| `Arbitration.AppealOk` | apps/contracts/contracts/Escrow.sol:1157-1186 | An accepted appeal starts a fresh round and keeps the invariant |
| `Arbitration.CommitExactly` | apps/contracts/contracts/Escrow.sol:837-849 | Refused for the first of six reasons, in the source's order; else the sender's hash is there, one more commit is counted, and nothing else changes |
| `Arbitration.RevealExactly` | apps/contracts/contracts/Escrow.sol:855-874 | Refused for the first of eight reasons; else the vote is there, one more is counted for its outcome, and nothing else changes |
| `Arbitration.TallyExactly` | apps/contracts/contracts/Escrow.sol:938-1008 | Refused for the first of four reasons; with enough reveals the strict majority or split is on record with its panel, an undecided appeal keeps the ruling on record, an undecided first round is a refund |
| `Arbitration.FinalizeExactly` | apps/contracts/contracts/Escrow.sol:913-931 | Refused for the first of three reasons; else executes the current round's winner |
| `Arbitration.AppealExactly` | apps/contracts/contracts/Escrow.sol:1157-1186 | Refused for the first of seven reasons, the limit of two among them; else adds the fee and a fresh round and keeps the earlier rounds |
| `Arbitration.OpenExactly` | apps/contracts/contracts/Escrow.sol:666-682 | A fresh dispute: commit window first and reveal window after it, nobody has acted, and every seat weighs its stake, or one without any |
| `Arbitration.Timetable` | apps/contracts/contracts/Escrow.sol:837-874 | From the opening on a seat can commit up to its deadline, reveal after it up to the next, and the tally follows |
| `DisputeRuns.RunIsSafe` | apps/contracts/contracts/Escrow.sol:837-1008 | Every run of every dispute: reveals within commits within seats, tally sums to reveals, no reveal before the commit window closed, at most two appeals, and money leaves at most once, by the no-quorum refund or by executing the standing ruling; the gates are the guards |
| `DisputeRuns.RunOk` | apps/contracts/contracts/Escrow.sol:837-1008 | The invariant behind it holds along every run |
| `DisputeRuns.RunGrows` | apps/contracts/contracts/Escrow.sol:837-1008 | What was committed, revealed, tallied or paid is never rewritten |
| `DisputeRuns.CommitBinds` | apps/contracts/contracts/Escrow.sol:855-874 | Over every run the only vote ever counted for an arbiter who committed is the one its hash was made of, for that milestone and round |
| `DisputeRuns.AppealCountdown` | apps/web/lib/dispute-round.ts:140-164 | The countdown ends at the last moment the contract accepts an appeal, and live means that the money is in dispute |
| `DisputeRuns.AlwaysSettles` | apps/contracts/contracts/Escrow.sol:888-931 | From every reachable open dispute there are calls anyone may make that settle it |
| `DisputeRuns.GatesMatchGuards` | apps/web/lib/dispute-round.ts:89-164 | In every reachable case each gate is open exactly when the contract accepts the call from an entitled caller |
| `DisputeRuns.AppealGateGap` | apps/web/lib/dispute-round.ts:149-164 | The appeal gate offers what the contract refuses exactly when both appeals are used up |
| `DisputeRuns.AppealGateGapReached` | apps/web/lib/dispute-round.ts:149-164 | A run of fair draws after which the gate offers an appeal the contract refuses from anyone, whatever is sent |
| `DisputeRuns.GatesPartition` | apps/web/lib/dispute-round.ts:89-164 | Something is offered exactly while the money is in dispute; commit, reveal and tally, and appeal and finalize, exclude each other as documented |
| `DisputeRuns.FinalizeStaysOffered` | apps/web/lib/dispute-round.ts:136-138 | Finalize once offered stays offered until someone finalizes |
| `DisputeRuns.FailedReadHidesNothing` | apps/web/lib/dispute-round.ts:144-146 | A failed status read closes no gate the contract would honour and misleads only after the payout |
| `DisputeGates.HintExact` | apps/web/lib/dispute-round.ts:219-236 | The action hint and the gates disagree in exactly two places: at the commit deadline and after the reveal deadline; nothing is asked of those without a seat or a commit, and all others wait |
| `Escrow.Escrow.Fund` | apps/contracts/contracts/Escrow.sol:391-393 | Accepts exactly a non-zero amount for another, non-zero freelancer; appends that milestone and keeps balance equal to liabilities |
| `Escrow.Escrow.LockBudget` | apps/contracts/contracts/Escrow.sol:404-425 | Accepts exactly a deposit for a free key or a spent one of the same locker |
| `Escrow.Escrow.FundFromCredit` | apps/contracts/contracts/Escrow.sol:432-441 | Draws a milestone from the locker's free balance into the job's reservation, or changes nothing |
| `Escrow.Escrow.BuildBatch` | apps/contracts/contracts/Escrow.sol:456-485 | The batch loop builds the listed milestones, their total, and refuses exactly when an entry is not fundable |
| `Escrow.Escrow.FundAllFromCredit` | apps/contracts/contracts/Escrow.sol:456-485 | All or nothing: the first award locks exactly the total, a later one needs it free; every milestone, the balance and the job's sheet are exact |
| `Escrow.Escrow.UnlockBudget` | apps/contracts/contracts/Escrow.sol:492-502 | Only the locker, only what is free, and only if the transfer to it succeeds |
| `Escrow.Escrow.Submit` | apps/contracts/contracts/Escrow.sol:538-546 | Only the freelancer of a funded milestone |
| `Escrow.Escrow.Approve` | apps/contracts/contracts/Escrow.sol:550-563 | The fee that accrues is the largest whole wei amount within the rate, the rest is claimable, and both leave the job's reservation |
| `Escrow.Escrow.WithdrawMilestone` | apps/contracts/contracts/Escrow.sol:566-580 | Pays a released principal to the freelancer, once |
| `Escrow.Escrow.Cancel` | apps/contracts/contracts/Escrow.sol:583-592 | Refunds a funded milestone to the client in full, once, and takes it out of the job's reservation |
| `Escrow.Escrow.OpenDispute` | apps/contracts/contracts/Escrow.sol:666-682 | Only a party, only while funded or submitted, only with the fee, and only when somebody can judge; draws the panel and opens its round |
| `Escrow.Escrow.Commit` | apps/contracts/contracts/Escrow.sol:837-849 | The contract state after a commit is the specified one |
| `Escrow.Escrow.Reveal` | apps/contracts/contracts/Escrow.sol:855-874 | The contract state after a reveal is the specified one |
| `Escrow.Escrow.OpenAppeal` | apps/contracts/contracts/Escrow.sol:1157-1186 | Accepts exactly what the guards allow either party with a freshly drawn panel; adds the fee and the next round, or changes nothing |
| `Escrow.Escrow.TallyRound` | apps/contracts/contracts/Escrow.sol:888-905 | The tally; without a quorum in the first round the client is sent, or credited, the amount, the opener its fee, and nobody else anything |
| `Escrow.Escrow.FinalizeDispute` | apps/contracts/contracts/Escrow.sol:913-931 | By the standing ruling: status, what becomes claimable less the floor of the fee, and for every address what it is sent or credited: the client what the ruling leaves it, each winning arbiter its part by stake of the fee and, if registered, of the pot; what is left of both stays |
| `Escrow.Escrow.PayOut` | apps/contracts/contracts/Escrow.sol:1014-1040 | The three payouts in order, all paid or kept to the wei; by party they are stated by `Escrow.Escrow.PayoutExecutes` |
| `Escrow.Escrow.PayArbiters` | apps/contracts/contracts/Escrow.sol:1050-1077 | The loop pays each winning, payable arbiter its share and reports the sum |
| `Escrow.Escrow.TotalWeight` | apps/contracts/contracts/Escrow.sol:1050-1077 | The loop sums the stake behind the winning votes |
| `Escrow.Escrow.PayArbiterFee` | apps/contracts/contracts/Escrow.sol:1050-1077 | The fee goes to the winners by stake; the remainder stays with the protocol |
| `Escrow.Escrow.DistributeRewards` | apps/contracts/contracts/Escrow.sol:1094-1142 | Dispute fees and subsidy go to the winners by stake; the dust stays in the pool |
| `Escrow.Escrow.PayOrCredit` | apps/contracts/contracts/Escrow.sol:1511-1523 | A payment is pushed, or held as credit when the push fails |
| `Escrow.Escrow.WithdrawFees` | apps/contracts/contracts/Escrow.sol:1239-1252 | Owner only; two halves that add up to the fees, the odd wei to the sponsor |
| `Escrow.Escrow.DepositRewards` | apps/contracts/contracts/Escrow.sol:1292-1296 | Grows the pool by the deposit |
| `Escrow.Escrow.SweepRewardPool` | apps/contracts/contracts/Escrow.sol:1301-1306 | Owner only; moves the whole pool |
| `Escrow.Escrow.WithdrawCredit` | apps/contracts/contracts/Escrow.sol:1526-1534 | Pays a held credit once |
| `Escrow.Escrow.SetFeeBps` | apps/contracts/contracts/Escrow.sol:1255-1260 | Owner only and capped; existing milestones keep their rate |
| `Escrow.Escrow.PayoutExecutes` | apps/contracts/contracts/Escrow.sol:1014-1142 | The payouts by party, as `Escrow.Escrow.FinalizeDispute` states them, follow from the three payment lists |
| `EscrowBooks.AwardByRuling` | apps/contracts/contracts/Escrow.sol:1014-1040 | By party and ruling: a release takes all from the client, a refund nothing, a split half without the odd wei; the freelancer gets what was taken less the floor of the fee |
| `EscrowBooks.DueOfPot` | apps/contracts/contracts/Escrow.sol:1050-1077 | An address is due from a pot exactly the floor of its stake's part among the winning votes, if it is payable |
| `EscrowBooks.RulingReaches` | apps/contracts/contracts/Escrow.sol:1014-1142 | Over the three payment lists every address is due its award, its part of the fee and its part of the pot, and no more |
| `EscrowBooks.RefundsReach` | apps/contracts/contracts/Escrow.sol:996-997 | Without a quorum the client is due the amount and the opener its fee, both if they are the same, and nobody else anything |
| `EscrowBooks.PaymentsReach` | apps/contracts/contracts/Escrow.sol:1511-1523 | Whatever the list of payments, each address gets what it is due: sent if it takes payments, held as credit if not |
| `EscrowBooks.SentTotal` | apps/contracts/contracts/Escrow.sol:1511-1523 | What leaves the balance is what was sent, address by address |
| `EscrowBooks.PartsTotal` | apps/contracts/contracts/Escrow.sol:1050-1077 | The parts of a pot add up to what was paid from it |
| `EscrowBooks.WeightIsStake` | apps/contracts/contracts/Escrow.sol:1050-1077 | The weight behind a ruling is the sum of the stakes of those who voted for it |
| `EscrowBooks.SubsidyIsLeast` | apps/contracts/contracts/Escrow.sol:1094-1113 | The top-up is the least of the pool, the set reward and a tenth of the amount |
| `EscrowBooks.BooksSettle` | apps/contracts/contracts/Escrow.sol:526-531 | Settling a live milestone releases exactly its reservation and keeps every job's books |
| `EscrowBooks.ReservationCovers` | apps/contracts/contracts/Escrow.sol:526-531 | A job's reservation covers each of its live milestones, so releasing one never underflows |
| `EscrowBooks.BooksDraw` | apps/contracts/contracts/Escrow.sol:456-485 | Drawing a batch keeps the books: reservation grows by the batch, free credit by the deposit less the batch |
| `EscrowBooks.AwardIsExact` | apps/contracts/contracts/Escrow.sol:1014-1040 | Principal, refund and fee of every ruling add up to the milestone amount, and the fee is at most a twentieth of it |
| `EscrowBooks.SharesFit` | apps/contracts/contracts/Escrow.sol:1050-1077 | Stake-weighted shares never exceed the pot |
| `EscrowBooks.DustIsSmall` | apps/contracts/contracts/Escrow.sol:1050-1077 | With every winner payable, less than one wei per winner is left |
| `EscrowBooks.PotsSuffice` | apps/contracts/contracts/Escrow.sol:1094-1142 | Fee shares never exceed the milestone fee and reward shares never exceed the pot, whoever is payable |
| `EscrowBooks.PaymentsBalance` | apps/contracts/contracts/Escrow.sol:1511-1523 | Pushed plus held is what was owed |
| `EscrowBooks.HistoryTransitive` | apps/contracts/contracts/Escrow.sol:102-112 | Over any sequence of calls statuses only move to later ones, a terminal one is kept, and an arbitrated milestone stays arbitrated |
| `ArbiterDraw.ComputeGcd` | apps/contracts/contracts/Escrow.sol:808-811 | The loop computes the greatest common divisor |
| `ArbiterDraw.Bezout` | apps/contracts/contracts/Escrow.sol:808-811 | It is an integer combination of its arguments, so every common divisor divides it |
| `ArbiterDraw.GcdDivides` | apps/contracts/contracts/Escrow.sol:808-811 | It divides both of its arguments |
| `ArbiterDraw.WalkCoversRoster` | apps/contracts/contracts/Escrow.sol:763-806 | A walk whose stride is coprime to the roster length visits every slot |
| `ArbiterDraw.CoprimeStride` | apps/contracts/contracts/Escrow.sol:763-806 | The search ends with the first stride coprime to the length, counted on from the seed's own |
| `ArbiterDraw.WalkPicksAll` | apps/contracts/contracts/Escrow.sol:763-806 | A walk that ends before three are picked has picked every candidate |
| `ArbiterDraw.SelectArbiters` | apps/contracts/contracts/Escrow.sol:763-806 | Whatever the seed, the draw seats min(3, candidates) distinct eligible outsiders, in the order of the walk the seed decides |
| `ArbiterDraw.Staff` | apps/contracts/contracts/Escrow.sol:694-743 | An agreed panel is binding while one nominee can be seated, and its seatable nominees sit in order; otherwise the draw staffs the round |
| `EthText.ReadBack` | apps/web/lib/format.ts:34-41 | Parsing inverts exact printing for every amount |
| `EthText.PrintRead` | apps/web/lib/format.ts:65-86 | Printing what was read is the canonical form of the text: 18 fraction digits kept, leading and trailing zeros dropped |
| `EthText.ReadTruncated` | apps/web/lib/format.ts:65-86 | With fewer decimals the printed value is at most the amount and misses less than one unit of the last place |
| `EthText.NegativeReadsZero` | apps/web/lib/format.ts:34-41 | The parser reads no negative amount |
| `EthText.ShownIsNearest` | apps/web/lib/format.ts:108-125 | A total below half a step shows exactly, any other as its nearest multiple, ties up; zero shows only for zero |
| `EthText.ShownIsMonotone` | apps/web/lib/format.ts:108-125 | A larger total never shows a smaller value |
| `EthText.SummarySign` | apps/web/lib/format.ts:108-125 | The sign of a negative total is lost exactly below half a step |
| `EthText.PrintedIsTidy` | apps/web/lib/format.ts:65-86 | Every printed amount has at most the places asked for, between 0 and 18, no trailing zero behind the point and no leading one before it |
| `EthText.SignComesFirst` | apps/web/lib/format.ts:65-86 | A negative amount is printed as its absolute value behind a sign, at any number of places |
| `EthText.SummaryIsTidy` | apps/web/lib/format.ts:108-125 | A total of at least half a step shows no more places than asked for; a smaller one shows all of its own |
| `EthText.StepIsLastPlace` | apps/web/lib/format.ts:108-125 | The step is one unit of the last place shown, clamped to between none and 17 places |
| `Fees.FeeIsFloor` | apps/api/src/lib/money.ts:30-33 | The fee is the one number of wei f with 10000 f <= principal * rate < 10000 (f + 1) |
| `Fees.FeesPerMilestone` | apps/web/lib/format.ts:224-226 | Fees taken per milestone fall short of the fee on the sum by at most one wei for every milestone but one |
| `Fees.PrintedFeeAndPayout` | apps/web/lib/format.ts:224-226 | Printed fee and printed payout read back to the printed amount |
| `Fees.FeeIsPart` | apps/api/src/lib/money.ts:30-33 | A fee of at most 10000 basis points is at most its principal |
| `ChainActions.RunsStayExclusive` | apps/web/lib/chain-actions.ts:193-316 | For any number of panels and interleavings with resets only when free: at most one call in flight, the shared phase its own, and every indexing loop within 41 polls |
| `ChainActions.StepKeepsExclusive` | apps/web/lib/chain-actions.ts:170-191 | A step keeps exclusion unless it is a reset while a call is in flight, which always breaks it |
| `ChainActions.BusyExactly` | apps/web/lib/chain-actions.ts:121-123 | The phase is busy exactly when a call is in flight |
| `ChainActions.RefusedStart` | apps/web/lib/chain-actions.ts:213-220 | A start while a call is in flight changes nothing |
| `ChainActions.RelayMovesNoValue` | apps/web/lib/chain-actions.ts:144-146 | A call that waits for the relay carries no value and is not user-paid |
| `ChainActions.CallStarts` | apps/web/lib/chain-actions.ts:205-232 | A call starts exactly on a free store with an address, and waits for the relay exactly when it is sponsored and moves no value |
| `ChainActions.WaitMoves` | apps/web/lib/chain-actions.ts:232-304 | What each wait can turn into and what it takes, the polling times included |
| `ChainActions.CallEnds` | apps/web/lib/chain-actions.ts:270-316 | A call ends done after it settled or timed out and idle after it failed; the hash stays |
| `ChainActions.FailureFrees` | apps/web/lib/chain-actions.ts:232-316 | A relay that fails leaves the call to the wallet; a failure anywhere else ends it and frees the store |
| `ChainActions.UndisturbedCall` | apps/web/lib/chain-actions.ts:205-304 | Signed, mined and indexed without disturbance, a call ends done, under its hash |
| `ChainActions.ResetInFlightDoubles` | apps/web/lib/chain-actions.ts:188-191 | A concrete run in which a reset in flight lets two calls through |
| `ChainActions.ChainTx.Begin` | apps/web/lib/chain-actions.ts:205-232 | The segment up to the first await is one start step |
| `ChainActions.ChainTx.OnHash` | apps/web/lib/chain-actions.ts:270-272 | The segment after the hash is one step |
| `ChainActions.ChainTx.OnReceipt` | apps/web/lib/chain-actions.ts:272-285 | The segment after the receipt is one step |
| `ChainActions.ChainTx.Poll` | apps/web/lib/chain-actions.ts:285-304 | The polling loop ends within 41 passes and finishes the call |
| `PixelRuns.Runs` | apps/web/components/pixel-art.tsx:14-31 | The nested loops give non-overlapping one-colour runs in reading order that show the grid exactly, and no cover is smaller |
| `PixelRuns.CoverIsLossless` | apps/web/components/pixel-art.tsx:14-31 | Painting any cover shows every cell as the grid does, transparent cells included |
| `PixelRuns.RunsAreMinimal` | apps/web/components/pixel-art.tsx:14-31 | No set of single-row one-colour rectangles covers the sprite with fewer pieces |
| `FundingScan.FindFundings` | apps/api/src/chain/adapter.ts:171-204 | The chunked scan is one scan of the whole range, for any chunk size, and its chunks partition the range |
| `FundingScan.FundingsExactly` | apps/api/src/chain/adapter.ts:171-204 | Of every block in the range but block 0 the scan keeps the logs with a milestone id, as often and in the order the chain has them, block after block, and nothing else |
| `FundingScan.AskedOnce` | apps/api/src/chain/adapter.ts:171-204 | Every block of the range is asked about exactly once |
| `FundingScan.QuerySplit` | apps/api/src/chain/adapter.ts:171-204 | Two adjacent queries answer what their union does |
| `UuidRef.DecodeEncode` | apps/api/src/chain/events.ts:163-178 | Decoding inverts encoding for every uuid, up to case, leading zeros included |
| `UuidRef.ReferenceShape` | apps/api/src/chain/events.ts:163-169 | A reference is 0x, 32 zeros, and the uuid's 32 digits in lower case and in order |
| `UuidRef.EncodeInjective` | apps/api/src/chain/events.ts:163-169 | Two uuids that differ in more than case get different references |
| `UuidRef.EncodeDecode` | apps/api/src/chain/events.ts:172-178 | Re-encoding gives a decoded reference back exactly when it has its prefix and no stray dash |
| `UuidRef.StrayDash` | apps/api/src/chain/events.ts:172-178 | A reference the decoder accepts and the encoder does not give back |
| `SiweNonce.NonceIsSingleUse` | apps/api/src/auth/siwe.ts:23-73 | Over every interleaving a nonce verifies no more often than it was issued, and each verification or rejection used up one consumption within the lifetime of an issue |
| `SiweNonce.ConsumedIsGone` | apps/api/src/auth/siwe.ts:52-73 | Of two calls that reach the store with the same nonce, the second one fails |
| `SiweNonce.UninterruptedCall` | apps/api/src/auth/siwe.ts:31-73 | A call nobody interrupts leaves the store as the server's own code does and records exactly its outcome |
| `SiweNonce.FreshNonceSignsIn` | apps/api/src/auth/siwe.ts:23-73 | An issued nonce signs its holder in exactly while its lifetime lasts, the message is acceptable and the signer is its address |
| `SiweNonce.Siwe.VerifySiwe` | apps/api/src/auth/siwe.ts:31-73 | Succeeds exactly when every guard passes; the nonce is consumed exactly when the checks before the store pass, so also by a call whose signature then fails |

## Left out

Contract:

- Integer width: reverts on `uint256` overflow. Amounts are unbounded.
- Which custom error a refused call reverts with, except in the dispute calls; a refused call changes nothing.
- Re-entrancy: calls are atomic, as `nonReentrant` makes them. Whether a recipient accepts ether is a parameter.
- The registry's own state: scores, slashing, stake locks and the effect of a ruling on them. Registered and eligible
  arbiters and their stakes are parameters.
- Agreeing on a panel (`proposePanel`, `acceptPanel`): the agreed panel is a parameter of `Escrow.Escrow.OpenDispute`, as is the
  seed of the draw. Meta-transactions, the proxy and its upgrades, and the setters that only store an address.
- Commit hashes are an abstract injective digest of milestone, round, outcome, salt and arbiter.

Mirror and pump:

- Notifications, the outbox, caches, jobs and role seats, and the events that touch only those; they are ledger-only here.
- `DisputeMirror.DisputeIsMirrored`: transactions of this dispute only, one after the other, and without the ledger-only events
  between them (penalties, rewards, credits). The opener's own fields and what the API writes on the row are not part of it.
- Sorting of a batch by block and log index: the model lists a chain's logs in that order already.
- Rows that people change between two logs. Runs of the pump start from fixed human records; runs of the mock also add milestones.
- Database constraints and row locks: why a transaction fails is left open; any set of them may.
- `PumpRuns.MirrorShowsLiveChain`, `PumpRuns.RunFollows`: ask that a redeployment differs by address or by a tip below the
  checkpoint, and does not grow past it before it is polled, unless nothing was recorded yet; `PumpRuns.UnnoticedReplacement`
  says when the mirror is right otherwise. They also ask that outcomes are within the contract's enum and that a transaction
  hash and log index name one log of a chain.

Mock chain:

- `MockAdapter.MockChainAdapter.Withdraw`: the source has no once-only check and pays the full principal even after a split, so
  `FundsWithdrawn` is not part of conservation.
- `MockAdapter.MockChainAdapter.constructor`: starts on a database without linked rows and with an empty ledger; later actions need only
  what every action keeps. The source runs on any database.
- The random transaction hash, for which the block number stands; the fixed payout wallets; the payloads of registry events.
- A stored roster that does not parse, which the source treats as empty.
- Two processes acting at once: one action finishes before the next starts.

Money text:

- `toWei` and `formatEth` on text that is not a number; non-ASCII white space beyond the trimmed characters.
- Dollar amounts, dates, addresses and labels.

Dispute gates:

- The stored salts, hooks and network reads; `quorumMet`, which uses the bare quorum and differs from the required reveals on
  a one-seat panel.

The rest:

- `ChainActions.RunsStayExclusive`: asks that `reset` is called only when free, which the panels arrange and the store does not check.
- `FundingScan.FindFundings`: logs in block 0 are asked for and dropped, as in the source.
- `SiweNonce.NonceIsSingleUse`: a nonce is consumed within its lifetime, but the signature check that follows may finish after it.
- Recovering a signer, hashing and parsing of a sign-in message, and the random choice of a nonce.
- `UuidRef.DecodeEncode`: letter case follows ASCII only.
- Drawing of sprites, their palette and the avatar's hash.
- RPC clients, SQL, key-value transport, wallets, React components, routing, configuration parsing and deployment.
