# Aragon Court: adjudication engine, vote leaks and donations

Aragon Court settles disputes raised by arbitrable contracts. Each dispute is
judged in adjudication rounds:

- **Draft.** Jurors are drafted for a round, batch by batch, from the terms'
  block randomness. Each drafted slot locks part of the juror's active stake,
  and its draft fee is paid to whoever called the draft.
- **Voting.** A drafted round moves through the commit, reveal, appeal and
  appeal-confirmation windows, counted in court terms.
- **Appeals.** Any party may appeal a round in favour of another ruling.
  Someone must confirm the appeal with an opposing ruling. A confirmed appeal
  opens a new round with three times the jurors, made odd. After
  `maxRegularAppealRounds` rounds the next round is the final one: it is not
  drafted, any juror may vote in it, and their stake is collected when they
  commit.
- **Execution.** Once the last round has ended, the dispute's final ruling can
  be executed, once.
- **Settlement.** Every round is then settled in two phases:
  1. Penalties, in batches. Coherent jurors get their lock back. Incoherent
     jurors lose it to the round's pool. If nobody was coherent, the pool is
     burnt and the juror fees are refunded.
  2. Rewards, one per coherent juror: a share of the pool and of the juror fees,
     pro rata to the juror's weight and rounded down. Coherent final-round
     jurors also get a withdrawal lock.

The commit-reveal voting contract lets anyone who knows a voter's outcome and
salt leak that vote before it is revealed. The subscriptions contract accepts
fee donations into the current period.

The model:

| file | module | contents |
|---|---|---|
| `types.dfy` | `Types` | addresses, ledgers, outcomes, revert reasons |
| `phase.dfy` | `Phase` | a round's adjudication state as a function of the term |
| `clock.dfy` | `Clock` | the term clock and the randomness window |
| `voting.dfy` | `Voting` | commitments, tallies and `CRVoting.Leak` |
| `subscriptions.dfy` | `Subscriptions` | `CourtSubscriptions.Donate` |
| `court_rounds.dfy` | `CourtRounds` | disputes and rounds as values, the draft, the appeal, the rulings and the invariants the court keeps |
| `settlement.dfy` | `Settlement` | the penalty pass and the reward arithmetic |
| `court.dfy` | `Court` | the `Court` class, whose methods update the disputes, ledgers and registry balances in place |

Each court operation is split in two:

- **A guard function** (`DraftCheck`, `SettleCheck`, …) states the revert
  reasons in the order the contract checks them.
- **A method** carries out the operation. It ends with exactly the guard's
  error, leaving the state untouched, or it updates the state exactly as its
  `ensures` say.

Every method keeps `Court.Valid()`, the invariant below.

- Every dispute has at least one round and at most `maxRegularAppealRounds + 1`.
- The rounds from index `maxRegularAppealRounds` on are final rounds.
- Every round but the last was appealed and confirmed.
- Within a round:
  - juror weights add up to the slots drafted so far;
  - every juror is listed once;
  - nothing is settled, appealed or rewarded before the panel is complete.
- A dispute is executed, or has a round with settled penalties, only once its
  last round has ended.

## Model

| member | source | states |
|---|---|---|
| Phase.EndTerm | test/court/court-settle-round.js:393-446 | A round ends no earlier than its appeal window opens. A final round ends when revealing closes, an unappealed round after the appeal window, an appealed one after the confirmation window. |
| Phase.EndedIff | test/court/court-settle-round.js:57-70 | A round is Ended exactly when it is drafted and the term has reached its end term, so it never stops being Ended. |
| Phase.StateMonotone | test/court/court-settle-round.js:393-489 | The adjudication state never goes back as terms pass: invalid, committing, revealing, appealing, confirming, ended. |
| Phase.Schedule | test/court/court-settle-round.js:393-456 | A drafted regular round commits from its activation term and reveals after the commit terms. It is appealable after the reveal terms, then waits for confirmation when appealed and is Ended otherwise. It is Ended once the confirmation window has passed. |
| Phase.UndraftedIsInvalid | test/court/court-draft.js:82-102 | A round whose panel is not complete is Invalid at every term. |
| Clock.NeededTransitions | test/court/court-disputes.js:101-111 | The transitions needed bring the last ensured term to the wall-clock term, and are zero when the clock is not behind. |
| Clock.RandomnessWindow | test/court/court-draft.js:312-354 | A term's randomness is not readable in its own block. It is readable from the next block up to 256 blocks after, and expired from then on, never coming back. |
| Clock.CourtClock.constructor | test/court/court-draft.js:386-398 | The clock starts at term 0 with term 0's randomness block recorded. |
| Clock.CourtClock.Heartbeat | test/court/court-draft.js:386-398 | A heartbeat transitions the smaller of the requested and the needed terms, never past the wall-clock term. It keeps earlier randomness blocks and records the next block for every new term. |
| Clock.CourtClock.EnsureCurrentTerm | test/court/court-disputes.js:101-145 | An operation brings the clock up to date when it lags by at most one term. Earlier terms keep their randomness block, and every newly ensured term records the next block. Otherwise it fails with CLK_TOO_MANY_TRANSITIONS and the clock is unchanged. |
| Voting.CommitInjective | test/voting/crvoting-leak.js:108-135 | A commitment is opened only by the outcome and salt that produced it. |
| Voting.WinningOutcome | test/voting/crvoting-leak.js:87-105 | The reported winning outcome is never LEAKED or MISSING: nobody voting yields REFUSED. |
| Voting.Leaked | test/voting/crvoting-leak.js:64-105 | A leak marks only that voter's outcome LEAKED. It keeps tallies, winner and voters, and the voter is no longer in favour of the winning outcome. |
| Voting.LeakKeepsResult | test/voting/crvoting-leak.js:78-105 | After a leak every outcome's tally, the winning outcome and its tally are unchanged, and the leaked voter has not voted for the winner. |
| Voting.CRVoting.constructor | test/voting/crvoting-leak.js:31-33 | The voting contract starts from valid vote records. |
| Voting.CRVoting.Leak | test/voting/crvoting-leak.js:35-176 | An unknown vote fails with CRV_VOTE_DOES_NOT_EXIST. A missing voter, or an outcome and salt that do not open the commitment, fail with CRV_INVALID_COMMITMENT_SALT. A reverting owner check fails too. Any failure changes nothing. When the vote exists, the outcome and salt open the voter's commitment and the owner check passes, the leak succeeds and replaces exactly that vote by its leaked version. |
| Subscriptions.PeriodOf | test/subscriptions/subscriptions-donations.js:41-44 | Term t falls in the period p with p·d ≤ t−1 < (p+1)·d. |
| Subscriptions.CourtSubscriptions.constructor | test/subscriptions/subscriptions-donations.js:31-33 | Subscriptions start with no collected fees and no donations. |
| Subscriptions.CourtSubscriptions.Donate | test/subscriptions/subscriptions-donations.js:35-89 | The guards, in order: a zero amount fails, a court that has not started fails, and CS_TOKEN_TRANSFER_FAILED happens exactly when balance or allowance is short; a positive donation after the start that balance and allowance cover succeeds. A failure changes nothing. A donation moves the amount from payer to contract, spends only the payer's allowance, adds it to the current period's collected fees only, and records one FeesDonated. |
| Settlement.PenalizeJuror | test/court/court-settle-round.js:143-180 | Settling one juror of a regular round unlocks their round lock. An incoherent juror also loses it from their active balance to the pool. In a final round nothing is locked, and every juror's stake, already collected when they committed, counts towards the pool. Nobody else's balances move and available balances never do. It fails exactly when a balance cannot cover the amount. |
| Settlement.PenalizeJurors | test/court/court-settle-round.js:143-180 | A penalty pass over several jurors can only fail by a balance underflow. |
| Settlement.PenalizeSplit | test/court/court-settle-round.js:235-263 | Settling a+b jurors in one pass equals settling a and then b, so batching never changes the result. |
| Settlement.PenalizeOneByOne | test/court/court-settle-round.js:243-263 | A pass of i+1 jurors is the pass of i jurors continued by one. |
| Settlement.PenalizeBatch | test/court/court-settle-round.js:143-263 | The juror-by-juror loop computes exactly the penalty pass. |
| Settlement.PenalizeTotals | test/court/court-settle-round.js:97-141 | A completed pass collects the sum of the incoherent jurors' round locks, or every lock in a final round. Its coherent weight is the sum of the coherent jurors' weights. |
| Settlement.PenalizeBalances | test/court/court-settle-round.js:143-180 | Over distinct jurors, a completed pass releases each juror's round lock once and slashes each incoherent juror once. Jurors outside the pass and available balances are untouched. |
| Settlement.Reward | test/court/court-settle-round.js:284-313 | A coherent juror's share total·weight/coherent never exceeds the total. |
| Settlement.RewardAtMostTotal | test/court/court-settle-round.js:284-313 | The integer share is at most the total whenever the juror's weight is at most the coherent weight. |
| Settlement.RewardSplit | test/court/court-settle-round.js:284-313 | The rewards paid, times the coherent weight, plus the dropped remainders, equal total·(sum of weights). Each remainder is below the coherent weight. |
| Settlement.RewardsBounded | test/court/court-settle-round.js:284-313 | Paying every coherent juror their share never pays out more than the collected total. Rounding loses less than one token per coherent juror. |
| Settlement.Refunds | test/court/court-settle-round.js:193-220 | With no coherent juror, round 0 refunds all juror fees to the disputer. Later rounds split them equally between appeal maker and taker, losing less than 2 to rounding. |
| CourtRounds.NewRound | test/court/court-disputes.js:64-79 | A new round has its draft term, panel size and juror fees, no delay, no jurors, weights, rewards, appeal or settlement. A final round counts its slots as already selected. |
| CourtRounds.DisputeFees | test/court/court-disputes.js:81-99 | A dispute costs the juror, draft and settle fees of every juror of the first round's panel, and the court's balance keeps nothing of it (it all goes to the treasury). |
| CourtRounds.NextRoundJurorsNumber | test/court/court-settle-round.js:597-599 | The panel opened by a confirmed appeal is odd and is three times the appealed panel, or one more. |
| CourtRounds.RoundRuling | test/court/court-settle-round.js:434-537 | A round with no appeal stands for its winning outcome (REFUSED with no votes). An unconfirmed appeal gives the appealed ruling; a confirmed appeal gives the confirmer's ruling. |
| CourtRounds.DisputeRuling | test/court/court-settle-round.js:57-95 | An executed dispute's ruling is the recorded one. Otherwise a ruling exists exactly when the last round has Ended, is that round's ruling, and its absence is CT_INVALID_ADJUDICATION_STATE. |
| CourtRounds.AddSlots | test/court/court-draft.js:105-119 | A draft batch adds one selected slot, one unit of weight and one draft lock per slot each juror won, changing nothing else in the round. |
| CourtRounds.SlotsLockStep | test/court/court-draft.js:203-229 | One more slot locks one more draft lock. |
| CourtRounds.LockSlots | test/court/court-draft.js:105-119 | After a batch each juror's locked stake grows by one draft lock per slot they won. |
| CourtRounds.NewDisputeValid | test/court/court-disputes.js:49-79 | A new dispute satisfies the dispute invariant. |
| CourtRounds.AddSlotsValid | test/court/court-draft.js:143-229 | Drafting within the panel size keeps a round's weights summing to the slots selected, with each juror listed once. |
| CourtRounds.DraftOutcome | test/court/court-draft.js:58-102 | A batch completes the panel exactly when it fills the remaining slots. The dispute then adjudicates and the round is committing at the draft term; otherwise the dispute stays PreDraft and the round Invalid. |
| CourtRounds.OpenRound | test/court/court-draft.js:415-425 | A dispute waiting for its panel waits on a regular round that is not overfilled. |
| CourtRounds.DraftBatchValid | test/court/court-draft.js:143-229 | A draft batch keeps the round valid, its finality and its appeal. |
| CourtRounds.ReplaceRoundValid | test/court/court-settle-round.js:222-233 | Replacing one round by a valid round with the same finality and appeal keeps the dispute valid. |
| CourtRounds.DraftKeepsValid | test/court/court-draft.js:143-256 | A draft batch within the panel size keeps the dispute valid. |
| CourtRounds.DraftKeepsAllValid | test/court/court-draft.js:143-256 | A draft batch keeps every dispute of the court valid. |
| CourtRounds.RulingIffEnded | test/court/court-settle-round.js:57-70 | Under the invariant a dispute has a final ruling exactly when its last round has Ended. |
| CourtRounds.UnendedUnsettled | test/court/court-settle-round.js:393-426 | Before its last round ends, a dispute is not executed and none of its rounds is settled. |
| CourtRounds.SettledAfterEndLater | test/court/court-settle-round.js:489-537 | Time passing keeps the "settled only after the end" invariant. |
| CourtRounds.NewDisputeSettledAfterEnd | test/court/court-disputes.js:49-62 | A new dispute has nothing executed or settled. |
| CourtRounds.DraftKeepsSettledAfterEnd | test/court/court-draft.js:58-102 | A draft batch keeps the "settled only after the end" invariant. |
| CourtRounds.AppealKeepsSettledAfterEnd | test/court/court-settle-round.js:407-426 | An appeal, taken while the round is appealable, keeps the invariant. |
| CourtRounds.ConfirmKeepsSettledAfterEnd | test/court/court-settle-round.js:428-456 | A confirmation, taken while the round awaits it, keeps the invariant. |
| CourtRounds.ExecuteKeepsSettledAfterEnd | test/court/court-settle-round.js:73-95 | Executing a dispute whose last round has ended keeps the invariant. |
| CourtRounds.VoteIdInjective | test/court/court-settle-round.js:590-700 | Distinct (dispute, round) pairs are voted on in distinct votes. |
| CourtRounds.VoteOfFrame | test/voting/crvoting-leak.js:64-105 | Changing the vote of one round, as a leak does, gives the court that new vote for that round and leaves the vote it reads for every other (dispute, round) pair unchanged. |
| CourtRounds.VoteIdGap | test/court/court-settle-round.js:590-700 | Every vote of a dispute has a smaller id than every vote of a later dispute. |
| CourtRounds.AppealKeepsValid | test/court/court-settle-round.js:448-456 | Appealing a drafted last round keeps the dispute valid. |
| CourtRounds.ConfirmKeepsValid | test/court/court-settle-round.js:582-600 | Confirming an appeal adds one round, final exactly from index maxRegularAppealRounds, and keeps the dispute valid. |
| CourtRounds.ConfirmedNotSettleable | test/court/court-settle-round.js:582-588 | After a confirmed appeal the appealed round is Ended from its end term on. Yet the dispute has no ruling while a regular new round awaits its draft, nor before the new round ends. |
| CourtRounds.ExecuteKeepsValid | test/court/court-settle-round.js:73-84 | Executing a dispute whose last round has Ended keeps it valid. |
| CourtRounds.RuledRoundDrafted | test/court/court-settle-round.js:143-233 | Every round of a dispute that has a ruling has a complete panel. |
| CourtRounds.WithdrawalLockWindow | test/court/court-settle-round.js:322-359 | A coherent final-round juror cannot withdraw up to the lock's last term, including the whole final vote. They can withdraw from the next term. |
| Court.SettleCount | test/court/court-settle-round.js:235-263 | A penalties call settles every pending juror of a final round or for batch 0, and otherwise at most the batch. It never goes past the pending jurors. |
| Court.RefundFees | test/court/court-settle-round.js:193-220 | Refunds go to the disputer for round 0. For later rounds half each goes to the previous appeal's maker and taker. No other treasury balance moves. |
| Court.PenaltyPassSplit | test/court/court-settle-round.js:243-263 | A penalty pass over a+b pending jurors equals a pass over a continued by one over b. |
| Court.SettleInBatches | test/court/court-settle-round.js:243-263 | A settlePenalties call over a jurors that leaves some pending, followed by a call over b, ends exactly where one call over a+b ends: balances, treasury, dispute and error. |
| Court.PassContinues | test/court/court-settle-round.js:243-263 | The second pass of a split starts from the cursor and totals the first pass left. |
| Court.PenaltiesOfRound | test/court/court-settle-round.js:97-180 | A complete pass over a fresh round settles every juror. It collects the incoherent locks (every lock in a final round) and counts the coherent weight. It unlocks and slashes each juror once and moves no available balance. |
| Court.SettleBurnsIff | test/court/court-settle-round.js:182-233 | A settlePenalties call advances the cursor by its batch and marks the round settled exactly when the last juror is done. It burns the collected tokens and refunds the juror fees exactly when that call finds no coherent juror; any other call leaves the burn address and treasury alone. |
| Court.PassKeepsAvailable | test/court/court-settle-round.js:147-180 | A penalty pass moves only the round's settlement counters and no available balance. |
| Court.ClosingEffects | test/court/court-settle-round.js:182-233 | Closing a round marks it settled exactly when complete. It burns and refunds exactly when complete with no coherent juror, and otherwise leaves those balances alone. |
| Court.SettleKeepsValid | test/court/court-settle-round.js:222-263 | Moving a drafted round's settlement fields keeps the dispute valid. |
| Court.SettleKeepsRuling | test/court/court-settle-round.js:610-700 | Settling a round never changes the dispute's final ruling. |
| Court.ClosingKeepsValid | test/court/court-settle-round.js:222-233 | The closing step keeps the dispute valid and its ruling, and marks the round settled exactly when no juror is left. |
| Court.ClosingKeepsAllValid | test/court/court-settle-round.js:222-233 | Closing a round keeps every dispute valid. |
| Court.RewardKeepsValid | test/court/court-settle-round.js:273-282 | Marking a juror with weight rewarded keeps the dispute valid. |
| Court.RewardKeepsRuling | test/court/court-settle-round.js:610-700 | Rewarding a juror leaves the dispute's ruling unchanged. |
| Court.RewardKeepsAllValid | test/court/court-settle-round.js:273-282 | Rewarding keeps every dispute valid. |
| Court.AppealKeepsAllValid | test/court/court-settle-round.js:448-456 | Appealing keeps every dispute valid. |
| Court.ConfirmKeepsAllValid | test/court/court-settle-round.js:582-600 | Confirming an appeal keeps every dispute valid. |
| Court.ExecuteKeepsAllValid | test/court/court-settle-round.js:73-95 | Executing keeps every dispute valid. |
| Court.JoinKeepsValid | test/court/court-settle-round.js:700-744 | A voter with positive weight joining a final round keeps the dispute valid. |
| Court.JoinKeepsAllValid | test/court/court-settle-round.js:700-744 | Joining the final round keeps every dispute valid. |
| Court.ClosingKeepsSettledAfterEnd | test/court/court-settle-round.js:64-70 | Settling penalties, possible only after the end, keeps the "settled only after the end" invariant. |
| Court.RewardKeepsSettledAfterEnd | test/court/court-settle-round.js:273-282 | Rewarding keeps the invariant. |
| Court.JoinKeepsSettledAfterEnd | test/court/court-settle-round.js:700-744 | A juror joining a final round keeps the invariant. |
| Court.Court.constructor | test/court/court-disputes.js:49-62 | A new court is valid with no disputes, treasury balances, withdrawal locks or notifications. |
| Court.Court.GetDispute | test/court/court-disputes.js:171-199 | Returns the dispute exactly when it exists, CT_DISPUTE_DOES_NOT_EXIST otherwise. |
| Court.Court.GetRound | test/court/court-disputes.js:202-241 | Missing dispute, then missing round, each with its own error. Otherwise the round with its adjudication state at the current term. |
| Court.Court.GetJuror | test/court/court-draft.js:105-119 | A juror's weight in a round, 0 when never drafted, and whether they were rewarded. Only jurors with weight can be rewarded. |
| Court.Court.SetMaxJurorsPerDraftBatch | test/court/court-draft.js:454-494 | Only the config governor may set it, and never to 0; the governor setting a positive size succeeds. A failure changes nothing; success changes exactly that setting. |
| Court.Court.CreateDispute | test/court/court-disputes.js:49-162 | The guards, in revert order: invalid ruling options, unpaid subscription, more than one term transition needed, fees not covered by balance or allowance. A request that passes all four creates dispute number `|disputes|`. A failure changes nothing. Success transitions the clock, keeping earlier terms' randomness blocks and recording the next block for each new term. It appends a new PreDraft dispute at the current term and moves the dispute fees to the treasury, with nothing else changing. |
| Court.Court.ApplyCreate | test/court/court-disputes.js:49-99 | Appends the new dispute with id equal to the old count, moves the dispute fees, and keeps the invariant. |
| Court.Court.Sortition | test/court/court-draft.js:42-56 | Draws the requested number of slots. Each goes to an active juror whose active stake covers every lock, including the new slots. It can fail only with `NoEligibleJuror`, and it succeeds whenever some active juror's stake covers their locks plus all the requested slots. |
| Court.Court.DraftCheck | test/court/court-draft.js:312-451 | Draft guards, in revert order: missing dispute, outdated term, already drafted, draft term not reached (CLK_TERM_DOES_NOT_EXIST), then randomness not yet or no longer available. Each fails exactly in its case. |
| Court.Court.Draft | test/court/court-draft.js:29-451 | A failing guard yields its error and changes nothing. Once the guards pass, the draft can fail only with `NoEligibleJuror`, and it succeeds whenever some active juror's stake covers their locks plus min(batch size, remaining slots) draft locks. A draft draws min(batch size, remaining slots) eligible jurors. It records them in the last round, locks their draft stake and credits the drafter the draft fee per slot, with nothing else changing. |
| Court.Court.ApplyDraft | test/court/court-draft.js:105-139 | Records the batch, locks the stake and pays the draft fees, keeping the invariant. |
| Court.Court.SettleCheck | test/court/court-settle-round.js:64-70 | Penalty guards, in revert order: missing dispute, missing round, no final ruling (CT_INVALID_ADJUDICATION_STATE), already settled. An unended last round always fails with CT_INVALID_ADJUDICATION_STATE. Success yields the final ruling. |
| Court.Court.SettlePenalties | test/court/court-settle-round.js:143-263 | A failing guard or an underflow changes nothing. Otherwise it applies exactly one settlePenalties step over the next SettleCount jurors. It reports whether that step finished the round, after which the round can never be settled again. |
| Court.Court.ApplySettlement | test/court/court-settle-round.js:222-263 | Writes back the pass and closes the round exactly when no juror is left. It keeps the invariant and the ruling. |
| Court.Court.RewardCheck | test/court/court-settle-round.js:266-384 | Reward guards, in revert order: missing dispute or round, penalties not settled (always so before the end), already rewarded, non-voter. Then a voter is rewarded exactly when coherent with the final ruling and there is coherent weight; otherwise CT_WONT_REWARD_INCOHERENT_JUROR. |
| Court.Court.SettleReward | test/court/court-settle-round.js:266-384 | A failing guard changes nothing. A reward pays the juror their pro-rata share of the collected tokens and of the juror fees. It marks them rewarded so a second reward fails, locks withdrawals of a final-round juror, and changes nothing else. |
| Court.Court.AppealCheck | test/court/court-settle-round.js:407-456 | Appeal guards, in revert order: missing dispute or round, round not last or not appealable (always so once executed), already appealed. Then the ruling must be valid and differ from the round's winning outcome. |
| Court.Court.CreateAppeal | test/court/court-settle-round.js:448-456 | An appeal fails exactly with its guard's error and changes nothing then. Otherwise it records the maker and ruling, after which no further appeal of the round is possible. |
| Court.Court.ConfirmCheck | test/court/court-settle-round.js:428-537 | Confirmation guards, in revert order: missing dispute or round, round not awaiting confirmation (always so once executed). Then the ruling must be valid and differ from the appealed one. |
| Court.Court.ConfirmAppeal | test/court/court-settle-round.js:582-600 | Fails exactly with its guard's error. Otherwise it confirms the appeal and opens the next round, which is odd-sized three times the panel or final. Afterwards the round cannot be confirmed again. |
| Court.Court.ExecuteRuling | test/court/court-settle-round.js:64-95 | Missing dispute, already executed (CT_INVALID_DISPUTE_STATE), or no ruling yet (exactly when the last round has not ended) fail and change nothing. An unexecuted dispute with a ruling is executed with that ruling. Success records the final ruling and notifies the subject once. The recorded ruling is then the dispute's ruling forever. |
| Court.Court.EnsureCanCommit | test/court/court-settle-round.js:700-744 | Outside commit it fails with CT_INVALID_ADJUDICATION_STATE. A drafted juror votes with their weight, an undrafted juror of a regular round cannot vote, and a final-round juror with positive registry weight whose active stake covers the lock joins with that weight while the lock is collected. A juror with no weight or stake cannot vote, and any failure changes nothing. |

## Left out

- Final-round panel size, weight and lock: the registry computes them from total active stake, which is not part of this model. They enter `ConfirmAppeal` and `EnsureCanCommit` as the parameters `finalJurorsNumber`, `finalWeight` and `finalLock`.
- Appeal and confirmation deposits: not part of this model. The refund of a later round's juror fees to its appeal maker and taker is modelled.
- Court.Court.Sortition: which eligible juror a slot goes to depends on the term's block hash, so the model picks any eligible juror. It fails with `NoEligibleJuror`, an error name the model introduces, only when nobody is eligible for the next slot. Success is promised when one juror can take every slot of the batch. A batch that needs several jurors to share the slots may still fail in the contract, because the juror picks are left open.
- Automatic term transitions: `Draft` requires an up-to-date clock. `CreateAppeal`, `ConfirmAppeal`, `ExecuteRuling`, `SettlePenalties` and `SettleReward` read the last ensured term without transitioning it.
- Committing and revealing votes, juror activation, staking and withdrawals: not modelled. Vote records enter the court as a snapshot (`votes`), and `CRVoting` starts from given records.
- The VoteLeaked event is not recorded by `CRVoting.Leak`.
- `EnsureCanCommit` is the court's half of a commit; the voting contract's half is not modelled.
- Court.Court.SettlePenalties: settling a later round does not require the earlier rounds to be settled first.
- Court.Court.ExecuteRuling: the cached `finalRuling` is written only on execution; the ruling is otherwise recomputed from the last round.
- Court.Court.SettlePenalties: the registry's checked subtractions are modelled as the `MathUnderflow` error. The invariant that locked stake always covers round locks, which would rule it out, is not stated.
- Error names for reverts the suites do not name: `VoterWeightZero` (CT_VOTER_WEIGHT_ZERO), `InvalidAppealRuling`, `AppealAlreadyExists`, `NoEligibleJuror`, `MathUnderflow`, `OwnerCheckReverted`.
- Court.Court.constructor: requires `firstRoundJurorsNumber > 0`, `maxRegularAppealRounds > 0` and a positive draft batch size; a court configured with an empty first panel is outside the model.
- Clock heartbeats called directly on the clock are not shown to keep `Court.Valid()`. Every court method keeps the invariant, and `CourtRounds.SettledAfterEndLater` shows that time moving forward keeps it.
- Voting.Commit: keccak256 hashing is abstracted to an injective constructor.
- ERC20 tokens and the treasury are ledgers (`map<Address, nat>`); transfer hooks and token events are not modelled.
- Events other than the CourtRuling notification (`rulings`) and FeesDonated (`donations`) are not recorded.
- Subscriptions: only `donate` is modelled; paying fees and claiming shares are not part of this model.
- Arbitrable validation when creating a dispute is not modelled.
- CourtRounds.DisputeFees: the deposit formula `(jurorFee + draftFee + settleFee) * firstRoundJurorsNumber` is assumed. The suite reads the deposit from a helper (`getDisputeFees`) that is not part of this model, and asserts only that this amount moves from the sender to the treasury.
- CourtRounds.NextRoundJurorsNumber: the next panel is three times the jurors, plus one when even. With the suite's first panel of 3 this gives 9, the figure asserted.
