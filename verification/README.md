# Ghost consensus: a verified model

This project models the Ghost consensus pallet as one state machine, together with the integer
kernels it calls and the multi-threaded nonce miner, and proves properties of whole runs.

* **Pallet.** `Pallet.GhostConsensus` is a class with the storage items as fields. Its calls and hooks
  update them in place, keep the loops of the source, and roll back to a checkpoint on every outcome
  but `Ok`, as the dispatch layer does. Every method is proved equal to a function of module
  `Protocol`; the theorems are about those functions, and `GhostConsensus.ExecuteBlock` carries them
  over to whole host blocks. A run is any number of host blocks holding any signed calls of the
  pallet and any transfers outside of it. `Acceptance` says exactly when each call is accepted, what it
  then changes, and what each error means; `Slashing` says who loses stake, how much, and what is recorded.
* **Kernels.** The piecewise-linear logarithm (`Log2`), the entropy of the producer window
  (`Entropy`), the entropy-steered retarget (`Retarget`), the cumulative-weight selection
  (`Selection`), and the pro-rata payout (`Rewards`).
* **Miner.** Workers take atomic steps between loads and stores of the shared flags, in any
  interleaving and with any calls of `stop` (`Mining`); `Miner.Miner` performs the same steps on fields.

Modelling decisions:

* Balances are a map of free balances with an issuance (`Ledger`): transfers with and without
  keep-alive, reaping below the existential deposit with the dust burned, and minting deposits. The
  balances pallet itself is not part of this repository and not part of this model beyond that.
* Saturating operations saturate. Plain `+`, `*` and `sum` that would leave their type give the
  outcome `Trap`: the overflow-checked build panics there and commits nothing.
  `Theorems.NoTrapOnAnyRun` shows when no run ever gets there, so that wrapping and checked builds agree.
* Blake2, the signature check and the iteration order of storage maps are arbitrary functions of the
  configuration; an iteration order lists every key once.
* The event log is kept for the whole run and serves as its history: submissions, validations, slashed
  amounts, dust and gifts are read off it.
* A run starts from a seeded header 0 with no producer, as the pallet's tests do.
* Runs of the money results have no call signed by the escrow account, a pallet account without a key. This is
  an assumption on who acts, not a fact of the code: the runtime contains `pallet_sudo`
  (`runtime/src/lib.rs:217`), whose `sudo_as` can dispatch a call in the name of any account. Such a stake breaks
  the escrow identity (`Theorems.StakeConservesIff`, `Theorems.EscrowStakeBreaksIdentity`). The results about
  headers, window, phase, parent hashes and difficulty hold whoever signs.
* Slash percentages are any u8. Only the escrow identity needs them to be at most 100, and is an inequality
  without that; everything else holds for any percentages.

Where the code and its documentation differ, the model follows the code: there is no clamp of a
retarget to [1/4, 4] (`docs/ghost-consensus-design.md`, `primitives/ghost-pow/src/lib.rs`), and since
both block times of the hook are the constant five seconds a positive difficulty never rises. The
storage default of the difficulty is 0, and from there the first retarget raises it to 1; runs may start
from any difficulty, and `Decline.DifficultyRisesIff` says exactly when a run raises it.

Properties that fail are given with the exact condition under which they hold, and with inputs or whole runs
from genesis on which they fail:

* Stakes covered by the escrow balance on every run: `Coverage.CoveredIff`, failing run
  `Coverage.UnstakeCanUncover`; one withdrawal: `Coverage.UnstakeKeepsCoverageIff`.
* Withdrawals that always pay: `Coverage.UnstakeOkIff` and `Coverage.UnstakeAlwaysPays`, failing run
  `Coverage.UnstakeCanBeRefused`.
* Rewards paid to the unit: `Progress.ValidationPays`, failing run `Scenarios.SmallShareIsDropped`.
* Conservation: `Theorems.StakeConservesIff`, `Theorems.ReportConservesIff`, `Theorems.SweepConservesIff` and
  `Downtime.RecordsSumToStakeDropIff`, failing inputs `Theorems.EscrowStakeBreaksIdentity`,
  `Theorems.OverslashBreaksIdentity` and `Downtime.OversweepBreaksRecords`.
* Arithmetic in range on every run: a supply bound that suffices in `Theorems.NoTrapOnAnyRun`, failing run above it
  `Scenarios.HalvesTrap`.
* A proof of work counted once: `Work.ResubmissionAcceptedIff`, failing runs `Work.OneNonceManyBlocks`.
* Leaving the validation phase: `Progress.ProgressIff`, failing run `Scenarios.UnstakedChainWaits`.
* Valid parent hashes: `Links.SubmissionKeepsLinksIff`, `Links.SigningKeepsLinksIff`, over runs
  `Links.RunLinkedIff`, failing runs
  `Links.ResigningBreaksLinks`, `Links.ResubmissionBreaksLinks` and `Links.SomeChainLosesLinks`.
* Monotone retargets: `Retarget.MonotoneInTimeIff`, failing input `Retarget.ZeroTimeIsNotMonotone`. Halves
  kept by steering: `Retarget.SteeringKeepsHalfIff`.
* Range of the logarithm: `Log2.ScaledFitsU64`, which names the first failing input.

Check the whole project with `dafny verify dfyconfig.toml`.

## Model

| member | source | states |
|---|---|---|
| Theorems.EscrowAccounting | pallets/pallet-ghost-consensus/src/lib.rs:279-320 | on every run from genesis, for any existential deposit: escrow balance + dust burned from it = initial balance + all stakes + all announced slashes + gifts when slash percentages are at most 100, and at most that for any percentages |
| Coverage.StakesStayCovered | pallets/pallet-ghost-consensus/src/lib.rs:279-320 | for any existential deposit: from a safe start (deposit 1, or an escrow account that exists, or a supply too small to stake) the recorded stakes of every run are covered by the escrow balance |
| Coverage.CoveredIff | pallets/pallet-ghost-consensus/src/lib.rs:279-320 | every run from genesis stays covered iff the start is safe |
| Coverage.UnstakeCanUncover | pallets/pallet-ghost-consensus/src/lib.rs:301-320 | from any other genesis a run that pools the money, stakes it and withdraws all but one unit, after which that unit can no longer be withdrawn |
| Coverage.RunKeepsSecure | pallets/pallet-ghost-consensus/src/lib.rs:222-611 | every call and hook keeps the escrow surplus out of reach of reaping |
| Coverage.UnstakeOkIff | pallets/pallet-ghost-consensus/src/lib.rs:301-320 | a withdrawal within the stake is paid, to the unit, iff the escrow holds the amount and the staker ends at or above the existential deposit |
| Coverage.UnstakeAlwaysPays | pallets/pallet-ghost-consensus/src/lib.rs:301-320 | after any run from a safe start a withdrawal is refused only when it could not open the staker's account |
| Coverage.UnstakeCanBeRefused | pallets/pallet-ghost-consensus/src/lib.rs:301-320 | for every deposit above 1 and every funded account a run after which its covered stake cannot be withdrawn by one unit |
| Coverage.UnstakeKeepsCoverageIff | pallets/pallet-ghost-consensus/src/lib.rs:301-320 | for any existential deposit, a paid withdrawal keeps stakes covered iff the escrow is not reaped or nothing stays staked |
| Theorems.StakeConservesIff | pallets/pallet-ghost-consensus/src/lib.rs:279-296 | a successful stake conserves the escrow identity iff the staker is not the escrow account or the amount is zero |
| Theorems.EscrowStakeBreaksIdentity | pallets/pallet-ghost-consensus/src/lib.rs:279-296 | from any state a stake signed by the escrow account records its amount without moving money |
| Theorems.ReportConservesIff | pallets/pallet-ghost-consensus/src/lib.rs:453-461 | a report announces exactly what it takes iff the computed slash is within the stake |
| Theorems.OverslashBreaksIdentity | pallets/pallet-ghost-consensus/src/lib.rs:453-463 | a slash percentage of 200 announces two units for a stake of one |
| Theorems.SweepConservesIff | pallets/pallet-ghost-consensus/src/lib.rs:522-553 | a downtime sweep conserves the escrow identity iff every computed slash is within its stake |
| Theorems.InflationBound | pallets/pallet-ghost-consensus/src/lib.rs:325-414 | over N host blocks with any calls at most N validations succeed, issuance equals the sum of balances, and it grows by at most N block rewards |
| Theorems.OneValidationPerBlock | pallets/pallet-ghost-consensus/src/lib.rs:605-610 | from any sound block boundary one host block accepts at most one validation |
| Theorems.HeadersOfEveryRun | pallets/pallet-ghost-consensus/src/lib.rs:226-274 | on every run of any calls: stored numbers are gap-free from 0 and equal their keys; producers exist exactly above 0, are the last accepted submitters, and their headers meet their own PoW target, signed or not |
| Work.TargetsOfEveryRun | pallets/pallet-ghost-consensus/src/functions.rs:190-200 | on every run of any calls a mined header declares, and its hash meets, at most twice the first difficulty (at least 1), saturating |
| Work.ResubmissionAcceptedIff | pallets/pallet-ghost-consensus/src/functions.rs:168-202 | a header accepted once is accepted again, from anybody, iff its parent hash and the difficulty band still match |
| Work.OneNonceManyBlocks | pallets/pallet-ghost-consensus/src/lib.rs:226-274 | for any list of miners a run from genesis at difficulty 1 that credits each of them for an accepted block, all with one nonce |
| Theorems.WindowAndPhaseOfEveryRun | pallets/pallet-ghost-consensus/src/lib.rs:253-265 | on every run of any calls the window is the last min(100, k) miners of the submission log, and submissions = validations + 1 exactly in the validation phase |
| Decline.DifficultyRisesIff | pallets/pallet-ghost-consensus/src/lib.rs:556-602 | any run raises the difficulty iff it starts at 0 and meets a retarget, and then to 1; a positive difficulty stays positive and at most its initial value |
| Theorems.NoTrapOnAnyRun | pallets/pallet-ghost-consensus/src/functions.rs:132-132 | while genesis supply plus all block rewards stays below 2^64 no plain sum or product of any call or hook leaves its range |
| Scenarios.HeavyStakesTrap | pallets/pallet-ghost-consensus/src/functions.rs:132-132 | stakes that fit u64 one by one but not together make every validation of a waiting block trap |
| Scenarios.HalvesTrap | pallets/pallet-ghost-consensus/src/functions.rs:132-132 | a run from genesis in which two accounts stake 2^63 each and the next validation traps |
| Safety.RunDoesNotTrap | pallets/pallet-ghost-consensus/src/functions.rs:205-223 | the same from any sound block boundary whose stakes are backed |
| Safety.DispatchDoesNotTrap | pallets/pallet-ghost-consensus/src/lib.rs:222-465 | no single call traps in a sound, backed state with gross supply below 2^64 |
| Decline.RunFoldsRetargets | pallets/pallet-ghost-consensus/src/lib.rs:590-602 | the difficulty after any run is the fold of the retarget over the windows at its retargets; nothing else changes it |
| Decline.RetargetCount | pallets/pallet-ghost-consensus/src/lib.rs:596-599 | N host blocks whose first hooks do not overflow hold exactly N/100 retargets, whatever calls trap |
| Decline.HooksOfEveryRun | pallets/pallet-ghost-consensus/src/lib.rs:522-533 | the first hooks of a run from genesis never overflow while the downtime percentage of genesis supply plus all rewards fits u128 |
| Decline.FewMinersLowerDifficulty | pallets/pallet-ghost-consensus/src/lib.rs:556-602 | while the downtime percentage of genesis supply plus all rewards fits u128, N host blocks mined by fewer than 16 accounts leave a difficulty of at most max(1, d0 - N/100), and at most d0 * (7,956,851 / 8,000,000)^(N/100) or one |
| Decline.SoleMinerHalvesDifficulty | pallets/pallet-ghost-consensus/src/lib.rs:556-602 | under the same bound a sole miner leaves at most max(1, d0 / 2^(N/100)) |
| Runs.RunKeeps | pallets/pallet-ghost-consensus/src/lib.rs:222-611 | every run without calls by the escrow account keeps the ledger and escrow invariants, conserves the escrow identity, and bounds validations, issuance and gross supply per block |
| Runs.RunKeepsChain | pallets/pallet-ghost-consensus/src/lib.rs:222-611 | every run of any calls keeps header store, producers, window and phase in step with the log |
| Runs.BlockKeeps | pallets/pallet-ghost-consensus/src/lib.rs:222-611 | the same for one host block |
| Runs.InitializeKeeps | pallets/pallet-ghost-consensus/src/lib.rs:590-602 | the hook keeps the ledger and escrow invariants, moves no money, and never shrinks the backing of the stakes |
| Steps.DispatchKeeps | pallets/pallet-ghost-consensus/src/lib.rs:222-465 | every call and outside transfer keeps the ledger and escrow invariants and the escrow identity; only an accepted validation mints, at most one block reward |
| Steps.DispatchKeepsChain | pallets/pallet-ghost-consensus/src/lib.rs:222-465 | every call by anybody keeps header store, producers, window and phase in step with the log |
| Steps.SubmitKeepsHeaders | pallets/pallet-ghost-consensus/src/lib.rs:239-251 | an accepted submission, also of an older number, keeps the header store without gaps and valid |
| Steps.AcceptKeepsLog | pallets/pallet-ghost-consensus/src/lib.rs:375-400 | signing touches neither number nor PoW input, so the header store survives, and one validation is logged |
| Steps.PayoutSkipsEscrow | pallets/pallet-ghost-consensus/src/functions.rs:205-223 | rewards never reach the escrow account, even when a report gave it a zero stake entry |
| Progress.ExactlyOneValidator | pallets/pallet-ghost-consensus/src/lib.rs:325-414 | for each waiting block exactly one account, with positive stake, can validate; it succeeds iff its required signature checks |
| Progress.ValidationProgress | pallets/pallet-ghost-consensus/src/lib.rs:325-414 | in every sound validation phase with positive stake and arithmetic in range some account can validate some stored block |
| Progress.ProgressIff | pallets/pallet-ghost-consensus/src/lib.rs:325-414 | the validation phase can be left iff something is staked and weights, sums and products fit |
| Scenarios.UnstakedChainWaits | pallets/pallet-ghost-consensus/src/lib.rs:325-361 | a one-block run from genesis after which a mined block waits and no account can validate any block |
| Progress.ZeroStakeNeverValidates | pallets/pallet-ghost-consensus/src/lib.rs:332-361 | an account without positive stake never validates any block |
| Progress.ValidationPays | pallets/pallet-ghost-consensus/src/lib.rs:383-394 | for any existential deposit: an accepted validation pays no account more than its miner share and pro-rata share, and pays both exactly iff no positive part is too small to open the account |
| Scenarios.SmallShareIsDropped | pallets/pallet-ghost-consensus/src/lib.rs:383-394 | a one-block run whose accepted block pays its miner nothing, because the share could not open the account |
| Progress.ValidationMints | pallets/pallet-ghost-consensus/src/lib.rs:383-394 | when nothing is dropped an accepted validation mints at most the block reward and falls short by less than the number of positive stakers |
| Links.SubmissionKeepsLinksIff | pallets/pallet-ghost-consensus/src/lib.rs:244-251 | a submission keeps all parent hashes valid iff it does not change the hash of a header that has a child |
| Links.SigningKeepsLinksIff | pallets/pallet-ghost-consensus/src/lib.rs:375-381 | signing keeps all parent hashes valid iff the signed block has no child or its hash is unchanged |
| Links.RunLinkedIff | pallets/pallet-ghost-consensus/src/lib.rs:226-414 | from a linked start the chain is linked after every call of a run, and at its end, iff no accepted call changes the hash of a header that has a child |
| Links.TopmostIsSafe | pallets/pallet-ghost-consensus/src/lib.rs:226-414 | submitting above every stored number and signing the highest stored block is always safe |
| Links.ResigningBreaksLinks | pallets/pallet-ghost-consensus/src/lib.rs:325-414 | a two-block run from genesis that is linked until its last call re-signs block 1 under block 2 |
| Links.ResubmissionBreaksLinks | pallets/pallet-ghost-consensus/src/lib.rs:226-274 | a three-block run that is linked until block 1 is mined again under block 2 |
| Links.SomeChainLosesLinks | pallets/pallet-ghost-consensus/src/lib.rs:226-414 | a concrete configuration, genesis and headers to which both runs apply |
| Downtime.SweepOrderIndependent | pallets/pallet-ghost-consensus/src/lib.rs:522-553 | the stakes after a sweep do not depend on the iteration order of the last-active map |
| Downtime.RecordsSumToStakeDropIff | pallets/pallet-ghost-consensus/src/lib.rs:529-543 | the amounts appended to the slashing records add up to at least the total drop of the stakes, and to exactly that iff every computed slash is within its stake |
| Downtime.OversweepBreaksRecords | pallets/pallet-ghost-consensus/src/lib.rs:529-543 | a sweep at 200 percent over a stake of one records more than it takes |
| Downtime.StakeDecaysGeometrically | pallets/pallet-ghost-consensus/src/lib.rs:529-533 | after k sweeps at p < 100 percent, s_k * 100^k >= s_0 * (100 - p)^k, and positive stakes stay positive |
| Pallet.GhostConsensus.SubmitBlock | pallets/pallet-ghost-consensus/src/lib.rs:226-274 | the in-place call computes the specified state and error for every input |
| Pallet.GhostConsensus.PushRecentProducer | pallets/pallet-ghost-consensus/src/lib.rs:253-259 | the bounded window never loses the new miner: the push after the removal always succeeds |
| Pallet.GhostConsensus.Stake | pallets/pallet-ghost-consensus/src/lib.rs:279-296 | transfer to escrow, then record; every error leaves the storage unchanged |
| Pallet.GhostConsensus.Unstake | pallets/pallet-ghost-consensus/src/lib.rs:301-320 | the stake written before the fallible transfer is rolled back when the transfer is refused |
| Pallet.GhostConsensus.ValidateBlock | pallets/pallet-ghost-consensus/src/lib.rs:325-414 | selection, signature check, signing and payout in order, with every error and its rollback |
| Pallet.GhostConsensus.SignAndPay | pallets/pallet-ghost-consensus/src/lib.rs:375-413 | the header written before the producer lookup is rolled back when the lookup fails |
| Pallet.GhostConsensus.DistributeRewards | pallets/pallet-ghost-consensus/src/functions.rs:205-223 | the deposit loop reaches the specified ledger and traps exactly when a sum or product overflows |
| Pallet.GhostConsensus.DistributeBlockRewards | pallets/pallet-ghost-consensus/src/lib.rs:480-519 | the helper reaches the same ledger as `calculate_block_reward` followed by `distribute_rewards`, and announces the two shares |
| Pallet.GhostConsensus.ReportMisbehavior | pallets/pallet-ghost-consensus/src/lib.rs:428-464 | flags, slash percentage by reason, stake written even for accounts without one |
| Pallet.GhostConsensus.CheckDowntimeSlashing | pallets/pallet-ghost-consensus/src/lib.rs:522-553 | the in-place loop slashes every inactive validator exactly once from its original stake |
| Pallet.GhostConsensus.AdjustDifficulty | pallets/pallet-ghost-consensus/src/lib.rs:556-583 | entropy of the window, retarget at equal block times, event only on change |
| Pallet.GhostConsensus.OnInitialize | pallets/pallet-ghost-consensus/src/lib.rs:590-602 | sweep every 10 host blocks, then retarget every 100 |
| Pallet.GhostConsensus.ExecuteBlock | pallets/pallet-ghost-consensus/src/lib.rs:222-611 | a host block run in place reaches the state the theorems speak about |
| Acceptance.PowValueIs | pallets/pallet-ghost-consensus/src/functions.rs:64-79 | the proof of work compares the first eight bytes of the double hash of number, three hashes and nonce with the target |
| Acceptance.SubmitOkIff | pallets/pallet-ghost-consensus/src/lib.rs:226-248 | a submission is accepted iff phase, number, stored parent, parent hash, proof of work at the declared difficulty, and difficulty band are right |
| Acceptance.SubmitStores | pallets/pallet-ghost-consensus/src/lib.rs:247-273 | an accepted submission stores that header and its miner, changes no other entry, and logs number, miner and nonce |
| Acceptance.StakeOkIff | pallets/pallet-ghost-consensus/src/lib.rs:279-296 | a stake is accepted iff it is large enough, staker and escrow stay above the existential deposit, and the record fits |
| Acceptance.StakeMoves | pallets/pallet-ghost-consensus/src/lib.rs:282-293 | an accepted stake adds to the earlier stake and moves exactly that amount to escrow; nobody else changes |
| Acceptance.WinsIff | pallets/pallet-ghost-consensus/src/lib.rs:346-359 | the selection returns the account whose interval, among the saturated stakes in iteration order, holds the seed of block number and host block |
| Acceptance.ValidateOkIff | pallets/pallet-ghost-consensus/src/lib.rs:325-414 | a validation is accepted iff the block waits and has a producer, the account wins that seed, a required signature checks under its key, and the payout fits |
| Acceptance.ValidationRecords | pallets/pallet-ghost-consensus/src/lib.rs:375-411 | an accepted validation writes both signatures and nothing else into the header, and logs the winner with its weight and the two reward shares |
| Acceptance.RegisteredKeyDecides | pallets/pallet-ghost-consensus/src/lib.rs:419-423 | after a registration a validation is accepted iff it would be without the signature check and the signature checks under the new key; other accounts are unaffected |
| Acceptance.RefusalExplained | pallets/pallet-ghost-consensus/src/lib.rs:222-465 | every refusal changes nothing, and its error names the first check of the call that fails |
| Acceptance.MinedBlockIsAccepted | pallets/pallet-ghost-consensus/src/consensus.rs:154-172 | for a header with matching parent and band the nonce of `mine_block` is accepted by the pallet, and every smaller one it tried is refused for its proof of work |
| Acceptance.FoundNonceIsAccepted | node/src/miner.rs:49-151 | so is the nonce of any finished multi-threaded search |
| Slashing.ReportTakes | pallets/pallet-ghost-consensus/src/lib.rs:428-464 | a report takes the floored percentage of its reason from the reported stake and from no other, announces it, and flags double signing and invalid blocks |
| Slashing.SweepTakes | pallets/pallet-ghost-consensus/src/lib.rs:522-537 | a sweep takes the downtime percentage from every staker absent for more than the allowed blocks, and nothing from anybody else |
| Slashing.InitializeTakes | pallets/pallet-ghost-consensus/src/lib.rs:590-594 | the hook does so at every tenth host block and only then |
| Slashing.InitializeOkIff | pallets/pallet-ghost-consensus/src/lib.rs:522-537 | the hook overflows iff at a tenth block the percentage of some absent stake does not fit u128 |
| Slashing.InitializeMeasures | pallets/pallet-ghost-consensus/src/lib.rs:556-602 | the hook stores the entropy of the window at every hundredth block and logs a retarget iff it changes the difficulty |
| Slashing.SweepRecordsEach | pallets/pallet-ghost-consensus/src/lib.rs:535-541 | a sweep adds exactly one record, with block, reason and amount, for every absent staker and none for others |
| Slashing.SweepEventsAreRecords | pallets/pallet-ghost-consensus/src/lib.rs:543-548 | its events announce exactly its records |
| Slashing.RunNames | pallets/pallet-ghost-consensus/src/lib.rs:262-262 | on every run the last activity of an account is the block number of its last accepted submission or validation |
| Slashing.OnlyAbsenteesLose | pallets/pallet-ghost-consensus/src/lib.rs:522-553 | after any run the next hook takes stake only at a tenth block and only from accounts whose last named block is too far back |
| Log2.ScaledProduct | pallets/pallet-ghost-consensus/src/functions.rs:266-284 | L(a) + L(b) <= L(ab) < L(a) + L(b) + 171,575 for all positive a, b |
| Log2.ScaledMono | pallets/pallet-ghost-consensus/src/functions.rs:266-284 | the integer logarithm is monotone |
| Log2.ScaledPow2 | pallets/pallet-ghost-consensus/src/functions.rs:266-284 | it is exact on powers of two |
| Log2.ScaledDouble | pallets/pallet-ghost-consensus/src/functions.rs:266-284 | L(2x) = L(x) + 1,000,000 |
| Log2.ScaledIsFloorOfCurve | pallets/pallet-ghost-consensus/src/functions.rs:278-283 | it is the floor of the piecewise-linear curve through the powers of two |
| Log2.ScaledFitsU64 | pallets/pallet-ghost-consensus/src/functions.rs:280-283 | exactly which inputs fit: no u64 product overflows below n iff n is at most 2^45 + 18,446,744,073,710 |
| Log2.SumFitsU64 | pallets/pallet-ghost-consensus/src/functions.rs:283-283 | the final sum fits for every u64 input |
| Tangent.Line | pallets/pallet-ghost-consensus/src/functions.rs:249-256 | c * (L(n) - L(c)) lies below one straight line in n and c, for all 0 < c <= n |
| Entropy.CalculateEntropy | pallets/pallet-ghost-consensus/src/functions.rs:234-261 | the counting and accumulating loops return the order-free sum of the terms |
| Entropy.EntropyIsAverage | pallets/pallet-ghost-consensus/src/functions.rs:247-258 | entropy is the average of count * (L(n) - L(count)) over the list, up to one floor per distinct producer |
| Entropy.ProductFitsU64 | pallets/pallet-ghost-consensus/src/functions.rs:247-256 | for counts within a total of at most 2^42 the subtraction does not clip and the product fits u64 |
| Entropy.EntropyFitsU64 | pallets/pallet-ghost-consensus/src/functions.rs:247-258 | the entropy fits u64, so no partial sum clips |
| Entropy.OrderIndependent | pallets/pallet-ghost-consensus/src/functions.rs:240-258 | entropy depends only on how often each producer occurs |
| Entropy.EntropyByProducers | pallets/pallet-ghost-consensus/src/functions.rs:234-261 | with k distinct producers entropy is at most 93,750 k + 2,550,601, for any list |
| Entropy.FewProducersBelowThreshold | pallets/pallet-ghost-consensus/src/functions.rs:31-43 | fewer than 16 distinct producers always stay below the "log2(16)" threshold |
| Entropy.SixteenEqualReachThreshold | pallets/pallet-ghost-consensus/src/functions.rs:31-43 | sixteen equal shares reach it exactly, so the bound is sharp |
| Entropy.EntropyAtMostLog | pallets/pallet-ghost-consensus/src/functions.rs:234-261 | entropy is at most the logarithm of the list length |
| Entropy.MergeLowersEntropy | pallets/pallet-ghost-consensus/src/functions.rs:234-261 | crediting one producer's blocks to another raises entropy by at most one, and strictly lowers it for lists up to 500,000 |
| Entropy.ZeroIffCentralised | pallets/pallet-ghost-consensus/src/functions.rs:234-261 | for such lists entropy is zero iff at most one producer occurs |
| Retarget.CalculateDifficultyAdjustment | pallets/pallet-ghost-consensus/src/functions.rs:11-45 | the mutable target computation returns the specified target for all u64 inputs |
| Retarget.RetargetShare | pallets/pallet-ghost-consensus/src/functions.rs:21-42 | for all positive times: the target is scaled by observed over target time and, below four units of entropy, by (4,000,000 + entropy) / 8,000,000; each product saturates, each quotient is floored and at least 1 |
| Retarget.ZeroTimeHalves | pallets/pallet-ghost-consensus/src/functions.rs:17-19 | without a time measurement the target is halved, at least 1, whatever the entropy |
| Retarget.AdjustedShare | pallets/pallet-ghost-consensus/src/lib.rs:556-583 | the hook keeps exactly the floored share (4,000,000 + entropy) / 8,000,000 below the threshold, and all of the difficulty from it on |
| Retarget.RetargetLaws | pallets/pallet-ghost-consensus/src/functions.rs:11-45 | for positive times, under saturation: at least 1, monotone in target, observed time and entropy, antitone in target time, never above the unsteered target |
| Retarget.SteeringKeepsHalfIff | pallets/pallet-ghost-consensus/src/functions.rs:36-42 | steering keeps the floored half iff entropy reaches the threshold or the target is at most (2^64 - 1) / 4,000,000 |
| Retarget.FewProducersCap | pallets/pallet-ghost-consensus/src/lib.rs:556-583 | one retarget with fewer than 16 producers leaves at most (2^64 - 1) / 8,000,000, whatever the difficulty was |
| Retarget.MonotoneInTimeIff | pallets/pallet-ghost-consensus/src/functions.rs:17-30 | a longer observed time never lowers the target, starting from a given time, iff that time is positive |
| Retarget.ZeroTimeIsNotMonotone | pallets/pallet-ghost-consensus/src/functions.rs:17-19 | a witness that the zero-time branch breaks monotonicity in the observed time |
| Retarget.AdjustedRaisesIff | pallets/pallet-ghost-consensus/src/lib.rs:556-583 | the hook raises the difficulty iff it is 0, leaves it positive, and strictly lowers it above 1 with fewer than 16 producers |
| Retarget.SingleProducerHalves | pallets/pallet-ghost-consensus/src/lib.rs:556-583 | k retargets on single-producer windows leave at most max(1, d0 / 2^k) |
| Retarget.FewProducersReachOne | pallets/pallet-ghost-consensus/src/lib.rs:556-583 | k retargets on windows of fewer than 16 producers leave at most max(1, d0 - k) |
| Retarget.FewProducersDecay | pallets/pallet-ghost-consensus/src/lib.rs:556-583 | they also leave at most d0 * (7,956,851 / 8,000,000)^k, or one |
| Selection.SelectPosValidator | pallets/pallet-ghost-consensus/src/functions.rs:124-153 | the two loops return the staker whose cumulative interval holds the seed, with its weight and the block number as round, nobody exactly on zero total weight, and trap exactly on overflow |
| Selection.SelectionSucceeds | pallets/pallet-ghost-consensus/src/functions.rs:132-152 | a positive total that fits always selects a staker of positive weight |
| Selection.SelectionUnique | pallets/pallet-ghost-consensus/src/functions.rs:140-150 | stakers and seed determine the selection |
| Selection.SelectionReports | pallets/pallet-ghost-consensus/src/functions.rs:142-148 | a selection reports the account and weight of one staker and the saturated block number as its round |
| Selection.ChosenIff | pallets/pallet-ghost-consensus/src/functions.rs:137-143 | staker i is returned iff the first eight seed bytes modulo the total weight fall into its cumulative interval |
| Selection.ResiduesEqualWeight | pallets/pallet-ghost-consensus/src/functions.rs:137-143 | of the seeds of one cycle of the total weight exactly w_i make the selection return staker i |
| Selection.SelectionIsFair | pallets/pallet-ghost-consensus/src/functions.rs:137-143 | of the 2^64 seed prefixes between w_i * floor(2^64/T) and w_i * (floor(2^64/T) + 1) make the selection return staker i; none if w_i is zero |
| Rewards.CalculateBlockReward | pallets/pallet-ghost-consensus/src/functions.rs:156-165 | the two shares add up to the reward and the miner's is its floored 40 percent |
| Rewards.ProRata | pallets/pallet-ghost-consensus/src/functions.rs:214-217 | payments sum to at most the stakers' share and fall short by less than the number of positive stakers |
| Rewards.PaymentMono | pallets/pallet-ghost-consensus/src/functions.rs:217-217 | a larger stake is never paid less |
| Rewards.PayoutOrderIndependent | pallets/pallet-ghost-consensus/src/functions.rs:205-223 | the ledger after a payout does not depend on the staker order, for any existential deposit |
| Rewards.PaidOutKeepsValid | pallets/pallet-ghost-consensus/src/functions.rs:205-223 | a payout keeps issuance equal to the sum of balances and mints at most the block reward |
| Mining.EveryInterleaving | node/src/miner.rs:67-115 | the invariant of workers, flags and counter holds after every interleaving of atomic steps and stops |
| Mining.FlagMeansNonce | node/src/miner.rs:97-103 | whenever the found flag is set, a worker sits between its two stores or the published nonce meets the target |
| Mining.FlagPrecedesNonce | node/src/miner.rs:97-100 | an interleaving in which the flag is set while the published nonce does not meet the target |
| Mining.ReturnedNonceIsValid | node/src/miner.rs:117-145 | after the join a returned nonce passes `verify_pow_enhanced` at the header's own difficulty |
| Mining.ReturnedNonceIsFirst | node/src/miner.rs:76-111 | the returned nonce is the first of its finder's progression to meet the target |
| Mining.CompletionFinds | node/src/miner.rs:79-151 | with at least one thread and no stop, completion implies a nonce |
| Mining.CompletionStops | node/src/miner.rs:79-117 | a joined search with at least one thread has cleared the running flag |
| Mining.NoncePartition | node/src/miner.rs:76-105 | until a counter wraps, thread i of N has tried exactly the first members of its residue class |
| Mining.NoRepeatedWork | node/src/miner.rs:76-105 | until a counter wraps no nonce is hashed twice, by one thread or by two |
| Mining.HashesCountAttempts | node/src/miner.rs:95-95 | the shared counter grows by exactly the number of attempts, modulo 2^64 |
| Mining.AttemptsBounded | node/src/miner.rs:79-105 | a thread whose attempt number q would succeed makes at most q + 1 attempts, in any interleaving |
| Mining.WorkerFinishes | node/src/miner.rs:79-111 | such a thread is done after 3 q + 7 turns of its own, whatever the scheduler does |
| Mining.SearchCompletes | node/src/miner.rs:49-151 | without stop, once such a thread had those turns and every thread five more, all have joined and a nonce is returned |
| Mining.StopEnds | node/src/miner.rs:154-156 | after a stop five more turns of every thread end the search, whether or not any nonce is valid |
| Mining.MineBlock | pallets/pallet-ghost-consensus/src/consensus.rs:154-172 | the sequential loop returns the least valid nonce below one million, or none if there is none |
| Mining.SingleWorkerFindsLeast | node/src/miner.rs:67-111 | one-thread mining without stop returns the least valid nonce |
| Mining.OneThreadAgrees | pallets/pallet-ghost-consensus/src/consensus.rs:154-172 | a completed one-thread search for the same header and target returns what `mine_block` returns, and a nonce of at least one million where `mine_block` returns none |
| Miner.Miner.StepWorker | node/src/miner.rs:79-111 | the atomic steps on the shared fields, one at a time |
| Miner.Miner.JobFor | node/src/miner.rs:49-50 | the search accepts a nonce iff it meets the miner's own target and the header's |
| Miner.Miner.Start | node/src/miner.rs:49-151 | under every schedule a finished search returns only valid nonces, and one if there was a thread and no stop |

## Left out

- Entropy.CalculateEntropy: requires at most 2^42 producers, below which no u64 product overflows; the pallet calls it with at most 100.
- Progress.ValidationMints: the lower bound on minting is per accepted validation; how many stakers each validation of a run pays is not bounded over the run.
- Mining.NoncePartition: says nothing about which nonces a thread revisits after its counter wraps past 2^64.
- Overflow in an unchecked build, where plain arithmetic wraps instead of panicking, is modelled only by showing when it cannot occur.
- Transaction fees, locks, holds, reserves and provider counts of the balances pallet.
- Call weights, SCALE encoding, metadata, logging, hash rates and sleeps.
- Blake2, SHA-256, Keccak and Dilithium internals, and the alternative proof-of-work verifiers, which differ from the modelled one only in the hash.
- `check_slashing_conditions` and `apply_slashing`, which are placeholders.
- The consensus engine, block import and proposer stubs, the node service, RPC, CLI, chain specification and the template pallet.
- The target design of the documentation: work-factor difficulty, clamped retargets, unbonding, sessions and heaviest-chain choice.
