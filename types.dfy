/** Shared vocabulary of the court model: addresses, token ledgers, the revert
    reasons the contracts use, and the reserved vote outcomes. */
module Types {

  /** An account on the ledger (an EVM address). */
  type Address = nat

  /** The unrecoverable sink that burned juror tokens are sent to (0x...dEaD). */
  const BURN_ADDRESS: Address := 0xdEaD

  /** Reserved vote outcomes; the possible rulings of a dispute follow REFUSED. */
  const MISSING: nat := 0
  const LEAKED: nat := 1
  const REFUSED: nat := 2
  const LOW: nat := 3
  const HIGH: nat := 4

  /** Every revert reason the modelled operations can end with. */
  datatype Error =
    // Court
    | DisputeDoesNotExist          // CT_DISPUTE_DOES_NOT_EXIST
    | RoundDoesNotExist            // CT_ROUND_DOES_NOT_EXIST
    | InvalidRulingOptions         // CT_INVALID_RULING_OPTIONS
    | SubscriptionNotPaid          // CT_SUBSCRIPTION_NOT_PAID
    | DepositFailed                // CT_DEPOSIT_FAILED
    | TermOutdated                 // CT_TERM_OUTDATED
    | RoundAlreadyDrafted          // CT_ROUND_ALREADY_DRAFTED
    | InvalidAdjudicationState     // CT_INVALID_ADJUDICATION_STATE
    | InvalidDisputeState          // CT_INVALID_DISPUTE_STATE
    | RoundAlreadySettled          // CT_ROUND_ALREADY_SETTLED
    | RoundPenaltiesNotSettled     // CT_ROUND_PENALTIES_NOT_SETTLED
    | JurorAlreadyRewarded         // CT_JUROR_ALREADY_REWARDED
    | WontRewardIncoherentJuror    // CT_WONT_REWARD_INCOHERENT_JUROR
    | WontRewardNonVoterJuror      // CT_WONT_REWARD_NON_VOTER_JUROR
    | BadMaxDraftBatchSize         // CT_BAD_MAX_DRAFT_BATCH_SIZE
    | VoterWeightZero              // CT_VOTER_WEIGHT_ZERO
    | SenderNotConfigGovernor      // CTD_SENDER_NOT_CONFIG_GOVERNOR
    | InvalidAppealRuling          // appeal or confirmation with an unusable ruling
    | AppealAlreadyExists          // a second appeal of the same round
    | NoEligibleJuror              // the sortition finds no juror able to take a slot
    | MathUnderflow                // a checked subtraction reverts
    // Clock
    | TooManyTransitions           // CLK_TOO_MANY_TRANSITIONS
    | TermDoesNotExist             // CLK_TERM_DOES_NOT_EXIST
    | RandomnessNotYet             // CLK_TERM_RANDOMNESS_NOT_YET
    | RandomnessUnavailable        // CLK_TERM_RANDOMNESS_UNAVAILABLE
    // Commit-reveal voting
    | VoteDoesNotExist             // CRV_VOTE_DOES_NOT_EXIST
    | InvalidCommitmentSalt        // CRV_INVALID_COMMITMENT_SALT
    | OwnerCheckReverted           // the owner's voter-weight check reverted
    // Subscriptions
    | DonationAmountZero           // CS_DONATION_AMOUNT_ZERO
    | CourtHasNotStarted           // CS_COURT_HAS_NOT_STARTED
    | TokenTransferFailed          // CS_TOKEN_TRANSFER_FAILED

  datatype Result<+T> = Ok(value: T) | Err(error: Error)

  datatype Option<+T> = None | Some(value: T)

  /** Balance of `a` in ledger `m`; an account never seen holds 0. */
  function Get(m: map<Address, nat>, a: Address): nat
  {
    if a in m then m[a] else 0
  }

  /** `m` with `x` added to the balance of `a`. */
  function Credit(m: map<Address, nat>, a: Address, x: nat): (r: map<Address, nat>)
    ensures Get(r, a) == Get(m, a) + x
    ensures forall b :: b != a ==> Get(r, b) == Get(m, b)
  {
    m[a := Get(m, a) + x]
  }

  /** `m` with `x` taken from the balance of `a`, which must hold it. */
  function Debit(m: map<Address, nat>, a: Address, x: nat): (r: map<Address, nat>)
    requires x <= Get(m, a)
    ensures Get(r, a) == Get(m, a) - x
    ensures forall b :: b != a ==> Get(r, b) == Get(m, b)
  {
    m[a := Get(m, a) - x]
  }

  function Min(a: nat, b: nat): nat
  {
    if a < b then a else b
  }
}
