/** The records of the court: disputes, their adjudication rounds and the
    participation of jurors in each round, with the pure functions the court
    operations are specified by. */
module CourtRounds {
  import opened Types
  import opened Phase
  import Voting
  import Settlement

  /** A dispute is ruled between exactly two options besides REFUSED. */
  const MIN_RULING_OPTIONS: nat := 2
  const MAX_RULING_OPTIONS: nat := 2

  /** Each confirmed appeal multiplies the panel size by this factor. */
  const APPEAL_STEP_FACTOR: nat := 3

  /** Vote ids carry the dispute id in the bits above the 128 bits of the round id. */
  const ROUND_ID_SPACE: nat := 0x1_0000_0000_0000_0000_0000_0000_0000_0000

  datatype DisputeState = PreDraft | Adjudicating | Executed

  /** The appeal of a round: who appealed in favour of which ruling and, once
      confirmed, who confirmed it in favour of which opposing ruling. */
  datatype Appeal = Appeal(maker: Address, appealedRuling: nat, confirmed: bool, taker: Address, opposedRuling: nat)

  /** An adjudication round. `jurors` lists every juror with a weight in the
      round once, in the order they were first drafted; `settledJurors` is the
      settlement cursor into that list. */
  datatype Round = Round(
    draftTerm: nat,
    delayedTerms: nat,
    jurorsNumber: nat,
    selectedJurors: nat,
    jurorFees: nat,
    triggeredBy: Address,
    final: bool,
    jurors: seq<Address>,
    weight: map<Address, nat>,
    roundLock: map<Address, nat>,
    rewarded: set<Address>,
    settledPenalties: bool,
    settledJurors: nat,
    collectedTokens: nat,
    coherentJurors: nat,
    appeal: Option<Appeal>)

  datatype Dispute = Dispute(subject: Address, possibleRulings: nat, state: DisputeState, finalRuling: nat, rounds: seq<Round>)

  /** The governance parameters the engine reads. `draftLock` is the stake
      locked per drafted slot; `finalRoundLockTerms` is how long coherent
      final-round jurors cannot withdraw after the final round's vote. */
  datatype Config = Config(
    jurorFee: nat,
    draftFee: nat,
    settleFee: nat,
    firstRoundJurorsNumber: nat,
    evidenceTerms: nat,
    phases: PhaseConfig,
    maxRegularAppealRounds: nat,
    draftLock: nat,
    finalRoundLockTerms: nat,
    governor: Address,
    treasury: Address)

  // ---- Rounds and their state ------------------------------------------

  /** A round opened at `draftTerm`; a final round is never drafted, so its
      panel counts as complete from the start. */
  function NewRound(draftTerm: nat, jurorsNumber: nat, jurorFees: nat, triggeredBy: Address, final: bool): (r: Round)
    ensures r.draftTerm == draftTerm && r.delayedTerms == 0 && r.jurorsNumber == jurorsNumber && r.jurorFees == jurorFees
    ensures r.jurors == [] && r.weight == map[] && r.rewarded == {} && r.appeal == None
    ensures !r.settledPenalties && r.settledJurors == 0 && r.collectedTokens == 0 && r.coherentJurors == 0
    ensures r.selectedJurors == (if final then jurorsNumber else 0)
  {
    Round(draftTerm, 0, jurorsNumber, if final then jurorsNumber else 0, jurorFees, triggeredBy, final,
          [], map[], map[], {}, false, 0, 0, 0, None)
  }

  /** The deposit for a new dispute: juror, draft and settle fees for every
      juror of the first round. */
  function DisputeFees(cfg: Config): (fees: nat)
    ensures fees == JurorFees(cfg, cfg.firstRoundJurorsNumber) + DraftFees(cfg, cfg.firstRoundJurorsNumber)
                    + SettleFees(cfg, cfg.firstRoundJurorsNumber)
  {
    Settlement.Distrib(cfg.jurorFee, cfg.draftFee, cfg.firstRoundJurorsNumber);
    Settlement.Distrib(cfg.jurorFee + cfg.draftFee, cfg.settleFee, cfg.firstRoundJurorsNumber);
    (cfg.jurorFee + cfg.draftFee + cfg.settleFee) * cfg.firstRoundJurorsNumber
  }

  /** Juror fees owed for a panel of `slots` juror slots. */
  function JurorFees(cfg: Config, slots: nat): nat
  {
    cfg.jurorFee * slots
  }

  /** Draft fees owed for `slots` drafted juror slots. */
  function DraftFees(cfg: Config, slots: nat): nat
  {
    cfg.draftFee * slots
  }

  /** Settle fees owed for `slots` settled juror slots. */
  function SettleFees(cfg: Config, slots: nat): nat
  {
    cfg.settleFee * slots
  }

  /** Panel size of the round opened by a confirmed appeal: three times the
      appealed panel, made odd so that it cannot tie. */
  function NextRoundJurorsNumber(n: nat): (m: nat)
    ensures m % 2 == 1
    ensures APPEAL_STEP_FACTOR * n <= m <= APPEAL_STEP_FACTOR * n + 1
  {
    var next := APPEAL_STEP_FACTOR * n;
    if next % 2 == 0 then next + 1 else next
  }

  predicate Drafted(r: Round)
  {
    r.selectedJurors == r.jurorsNumber
  }

  function ClockOf(r: Round): RoundClock
  {
    RoundClock(Drafted(r), r.draftTerm + r.delayedTerms, r.final, r.appeal.Some?)
  }

  function RoundState(cfg: Config, r: Round, term: nat): AdjudicationState
  {
    StateAt(cfg.phases, ClockOf(r), term)
  }

  function LastRound(dsp: Dispute): Round
    requires |dsp.rounds| > 0
  {
    dsp.rounds[|dsp.rounds| - 1]
  }

  /** A ruling a juror, appellant or confirmer may stand for: REFUSED or one
      of the dispute's possible rulings. */
  predicate ValidRuling(dsp: Dispute, o: nat)
  {
    REFUSED <= o <= REFUSED + dsp.possibleRulings
  }

  // ---- Votes and rulings -----------------------------------------------

  function VoteId(d: nat, r: nat): nat
  {
    d * ROUND_ID_SPACE + r
  }

  /** A vote nobody committed to. */
  const EMPTY_VOTE: Voting.Vote := Voting.Vote(0, map[], map[], MISSING)

  /** The vote of round `r` of dispute `d` in the voting contract's records. */
  function VoteOf(votes: map<nat, Voting.Vote>, d: nat, r: nat): Voting.Vote
  {
    if VoteId(d, r) in votes then votes[VoteId(d, r)] else EMPTY_VOTE
  }

  /** The ruling a round stands for once it has ended: the tallied winner when
      nobody appealed, the appealed ruling when the appeal was not confirmed,
      and the confirmer's ruling otherwise. */
  function RoundRuling(r: Round, vote: Voting.Vote): (ruling: nat)
    ensures r.appeal.None? ==> ruling == Voting.WinningOutcome(vote)
    ensures r.appeal.Some? && !r.appeal.value.confirmed ==> ruling == r.appeal.value.appealedRuling
    ensures r.appeal.Some? && r.appeal.value.confirmed ==> ruling == r.appeal.value.opposedRuling
  {
    match r.appeal
    case None => Voting.WinningOutcome(vote)
    case Some(a) => if a.confirmed then a.opposedRuling else a.appealedRuling
  }

  /** The final ruling of dispute `d` at `term`: the executed ruling, or the
      ruling of its last round once that round has ended. */
  function DisputeRuling(cfg: Config, dsp: Dispute, d: nat, term: nat, votes: map<nat, Voting.Vote>): (res: Result<nat>)
    requires |dsp.rounds| > 0
    ensures dsp.state == Executed ==> res == Ok(dsp.finalRuling)
    ensures dsp.state != Executed ==>
              (res.Ok? <==> RoundState(cfg, LastRound(dsp), term) == Ended) &&
              (res.Ok? ==> res.value == RoundRuling(LastRound(dsp), VoteOf(votes, d, |dsp.rounds| - 1))) &&
              (res.Err? ==> res.error == InvalidAdjudicationState)
  {
    if dsp.state == Executed then Ok(dsp.finalRuling)
    else if RoundState(cfg, LastRound(dsp), term) != Ended then Err(InvalidAdjudicationState)
    else Ok(RoundRuling(LastRound(dsp), VoteOf(votes, d, |dsp.rounds| - 1)))
  }

  // ---- Drafting ----------------------------------------------------------

  predicate Distinct(js: seq<Address>)
  {
    forall a, b :: 0 <= a < b < |js| ==> js[a] != js[b]
  }

  /** How many times `k` occurs in `js`: the number of slots `k` won. */
  function Count(js: seq<Address>, k: Address): nat
    decreases |js|
  {
    if js == [] then 0
    else Count(js[..|js| - 1], k) + (if js[|js| - 1] == k then 1 else 0)
  }

  /** Total weight of the jurors `js` under `w`. */
  function SumWeights(js: seq<Address>, w: map<Address, nat>): nat
    decreases |js|
  {
    if js == [] then 0
    else SumWeights(js[..|js| - 1], w) + Get(w, js[|js| - 1])
  }

  /** One drafted slot for `j`: one more unit of weight and `lock` more stake
      locked for the round. */
  function AddSlot(r: Round, j: Address, lock: nat): Round
  {
    r.(selectedJurors := r.selectedJurors + 1,
       jurors := if j in r.weight then r.jurors else r.jurors + [j],
       weight := Credit(r.weight, j, 1),
       roundLock := Credit(r.roundLock, j, lock))
  }

  /** The round after the slots `js` were drafted, in order. */
  function AddSlots(r: Round, js: seq<Address>, lock: nat): (r': Round)
    ensures r'.selectedJurors == r.selectedJurors + |js|
    ensures forall k :: Get(r'.weight, k) == Get(r.weight, k) + Count(js, k)
    ensures forall k :: Get(r'.roundLock, k) == Get(r.roundLock, k) + SlotsLock(Count(js, k), lock)
    ensures r'.(jurors := r.jurors, weight := r.weight, roundLock := r.roundLock, selectedJurors := r.selectedJurors) == r
    decreases |js|
  {
    if js == [] then r
    else
      var init := AddSlots(r, js[..|js| - 1], lock);
      var j := js[|js| - 1];
      SlotsLockStep(Count(js[..|js| - 1], j), lock);
      AddSlot(init, j, lock)
  }

  /** Stake locked for `slots` slots of `lock` each. */
  function SlotsLock(slots: nat, lock: nat): nat
  {
    slots * lock
  }

  lemma SlotsLockStep(slots: nat, lock: nat)
    ensures SlotsLock(slots + 1, lock) == SlotsLock(slots, lock) + lock
  {
  }

  /** The stake ledger after `lock` was locked for each slot in `js`. */
  function LockSlots(locked: map<Address, nat>, js: seq<Address>, lock: nat): (r: map<Address, nat>)
    ensures forall k :: Get(r, k) == Get(locked, k) + SlotsLock(Count(js, k), lock)
    decreases |js|
  {
    if js == [] then locked
    else
      var j := js[|js| - 1];
      SlotsLockStep(Count(js[..|js| - 1], j), lock);
      Credit(LockSlots(locked, js[..|js| - 1], lock), j, lock)
  }

  /** The last round after a draft batch at `term`: once its panel is
      complete, the terms the draft was late by push its schedule back. */
  function DraftBatch(r: Round, drafted: seq<Address>, lock: nat, term: nat): Round
  {
    var r' := AddSlots(r, drafted, lock);
    if Drafted(r') then r'.(delayedTerms := if term >= r.draftTerm then term - r.draftTerm else 0) else r'
  }

  /** The dispute after a draft batch: adjudication starts when the last
      round's panel is complete. */
  function DraftedDispute(dsp: Dispute, drafted: seq<Address>, lock: nat, term: nat): Dispute
    requires |dsp.rounds| > 0
  {
    var r := DraftBatch(LastRound(dsp), drafted, lock, term);
    dsp.(state := if Drafted(r) then Adjudicating else PreDraft,
         rounds := dsp.rounds[|dsp.rounds| - 1 := r])
  }

  // ---- Invariants --------------------------------------------------------

  /** Every juror listed once, weights positive and, in a drafted round,
      adding up to the slots drafted so far; nothing is settled, appealed or
      rewarded before the panel is complete. */
  ghost predicate RoundValid(r: Round)
  {
    && Distinct(r.jurors)
    && (forall j :: j in r.weight <==> j in r.jurors)
    && (forall j :: j in r.weight ==> r.weight[j] > 0)
    && (!r.final ==> SumWeights(r.jurors, r.weight) == r.selectedJurors && r.selectedJurors <= r.jurorsNumber)
    && (r.final ==> Drafted(r))
    && r.settledJurors <= |r.jurors|
    && (r.settledPenalties || r.settledJurors > 0 || r.appeal.Some? ==> Drafted(r))
    && r.rewarded <= r.weight.Keys
  }

  /** A dispute has between one round and one round past the regular appeal
      rounds, the rounds from index `maxRegularAppealRounds` on are final,
      every round but the last was appealed and confirmed, and the dispute
      waits in PreDraft exactly while its last round's panel is incomplete. */
  ghost predicate DisputeValid(cfg: Config, dsp: Dispute)
  {
    && 1 <= |dsp.rounds| <= cfg.maxRegularAppealRounds + 1
    && (forall k :: 0 <= k < |dsp.rounds| ==> RoundValid(dsp.rounds[k]))
    && (forall k :: 0 <= k < |dsp.rounds| ==> (dsp.rounds[k].final <==> k >= cfg.maxRegularAppealRounds))
    && (forall k :: 0 <= k < |dsp.rounds| - 1 ==> dsp.rounds[k].appeal.Some? && dsp.rounds[k].appeal.value.confirmed)
    && (LastRound(dsp).appeal.Some? ==> !LastRound(dsp).appeal.value.confirmed)
    && (dsp.state == PreDraft ==> !LastRound(dsp).final)
    && (dsp.state != PreDraft <==> Drafted(LastRound(dsp)))
  }

  /** A new dispute waits for the draft of its first, regular round, due
      `evidenceTerms` after `term`, whose juror fees `creator` paid. */
  function NewDispute(cfg: Config, subject: Address, possibleRulings: nat, term: nat, creator: Address): Dispute
  {
    var n := cfg.firstRoundJurorsNumber;
    Dispute(subject, possibleRulings, PreDraft, 0, [NewRound(term + cfg.evidenceTerms, n, JurorFees(cfg, n), creator, false)])
  }

  /** A new dispute is valid: one undrafted regular round without appeal. */
  lemma NewDisputeValid(cfg: Config, subject: Address, possibleRulings: nat, term: nat, creator: Address)
    requires cfg.maxRegularAppealRounds > 0 && cfg.firstRoundJurorsNumber > 0
    ensures DisputeValid(cfg, NewDispute(cfg, subject, possibleRulings, term, creator))
  {
    var dsp := NewDispute(cfg, subject, possibleRulings, term, creator);
    assert RoundValid(dsp.rounds[0]);
  }

  // ---- Draft lemmas ------------------------------------------------------

  lemma {:induction false} SumWeightsFrame(js: seq<Address>, w: map<Address, nat>, j: Address, x: nat)
    requires j !in js
    ensures SumWeights(js, w[j := x]) == SumWeights(js, w)
    decreases |js|
  {
    if js != [] {
      var init := js[..|js| - 1];
      assert j !in init by {
        forall i | 0 <= i < |init| ensures init[i] != j {
          assert init[i] == js[i];
        }
      }
      SumWeightsFrame(init, w, j, x);
    }
  }

  /** One more unit of weight for a listed juror adds one to the total. */
  lemma {:induction false} SumWeightsBump(js: seq<Address>, w: map<Address, nat>, j: Address)
    requires Distinct(js) && j in js
    ensures SumWeights(js, Credit(w, j, 1)) == SumWeights(js, w) + 1
    decreases |js|
  {
    var init := js[..|js| - 1];
    var last := js[|js| - 1];
    if last == j {
      assert j !in init by {
        forall i | 0 <= i < |init| ensures init[i] != j {
          assert init[i] == js[i];
        }
      }
      SumWeightsFrame(init, w, j, Get(w, j) + 1);
    } else {
      assert j in init by {
        var i :| 0 <= i < |js| && js[i] == j;
        assert i < |js| - 1;
        assert init[i] == j;
      }
      assert Distinct(init) by {
        forall a, b | 0 <= a < b < |init| ensures init[a] != init[b] {
          assert init[a] == js[a] && init[b] == js[b];
        }
      }
      SumWeightsBump(init, w, j);
    }
  }

  lemma AddSlotValid(r: Round, j: Address, lock: nat)
    requires RoundValid(r) && !r.final && r.selectedJurors < r.jurorsNumber
    ensures RoundValid(AddSlot(r, j, lock))
  {
    if j in r.weight {
      AddSlotKnownValid(r, j, lock);
    } else {
      AddSlotNewValid(r, j, lock);
    }
  }

  lemma AddSlotKnownValid(r: Round, j: Address, lock: nat)
    requires RoundValid(r) && !r.final && r.selectedJurors < r.jurorsNumber && j in r.weight
    ensures RoundValid(AddSlot(r, j, lock))
  {
    SumWeightsBump(r.jurors, r.weight, j);
  }

  lemma AddSlotNewValid(r: Round, j: Address, lock: nat)
    requires RoundValid(r) && !r.final && r.selectedJurors < r.jurorsNumber && j !in r.weight
    ensures RoundValid(AddSlot(r, j, lock))
  {
    var r' := AddSlot(r, j, lock);
    SumWeightsFrame(r.jurors, r.weight, j, 1);
    assert r'.jurors[..|r'.jurors| - 1] == r.jurors;
    assert Distinct(r'.jurors) by {
      forall a, b | 0 <= a < b < |r'.jurors| ensures r'.jurors[a] != r'.jurors[b] {
        if b == |r.jurors| {
          assert r'.jurors[a] == r.jurors[a];
        }
      }
    }
  }

  /** Drafting keeps a regular round's records consistent: the weights of the
      listed jurors still add up to the slots drafted. */
  lemma {:induction false} AddSlotsValid(r: Round, js: seq<Address>, lock: nat)
    requires RoundValid(r) && !r.final && r.selectedJurors + |js| <= r.jurorsNumber
    ensures RoundValid(AddSlots(r, js, lock))
    decreases |js|
  {
    if js != [] {
      var init := js[..|js| - 1];
      AddSlotsValid(r, init, lock);
      AddSlotValid(AddSlots(r, init, lock), js[|js| - 1], lock);
    }
  }

  /** A draft batch completes the panel exactly when it fills the remaining
      slots; the dispute then adjudicates and the round starts committing at
      the term of the draft, otherwise the dispute stays in PreDraft and the
      round stays Invalid. */
  lemma DraftOutcome(cfg: Config, dsp: Dispute, drafted: seq<Address>, lock: nat, term: nat)
    requires |dsp.rounds| > 0 && cfg.phases.commitTerms > 0
    requires LastRound(dsp).draftTerm <= term && LastRound(dsp).delayedTerms == 0
    requires LastRound(dsp).selectedJurors + |drafted| <= LastRound(dsp).jurorsNumber
    ensures var after := DraftedDispute(dsp, drafted, lock, term);
            var complete := LastRound(dsp).selectedJurors + |drafted| == LastRound(dsp).jurorsNumber;
            |after.rounds| == |dsp.rounds| &&
            (complete ==> after.state == Adjudicating && RoundState(cfg, LastRound(after), term) == Committing) &&
            (!complete ==> after.state == PreDraft && RoundState(cfg, LastRound(after), term) == Invalid)
  {
  }

  /** A dispute waiting for its panel waits on a regular round whose slots
      are not overfilled. */
  lemma OpenRound(cfg: Config, dsp: Dispute)
    requires DisputeValid(cfg, dsp) && dsp.state == PreDraft
    ensures !LastRound(dsp).final && LastRound(dsp).selectedJurors <= LastRound(dsp).jurorsNumber
  {
    assert RoundValid(dsp.rounds[|dsp.rounds| - 1]);
  }

  lemma DraftBatchValid(r: Round, drafted: seq<Address>, lock: nat, term: nat)
    requires RoundValid(r) && !r.final && r.selectedJurors + |drafted| <= r.jurorsNumber
    ensures var r' := DraftBatch(r, drafted, lock, term);
            RoundValid(r') && r'.final == r.final && r'.appeal == r.appeal
  {
    AddSlotsValid(r, drafted, lock);
  }

  /** Replacing one round by a valid round with the same finality keeps the
      dispute valid, as long as an earlier round keeps its confirmed appeal,
      the last round's appeal stays unconfirmed and the dispute's state still
      matches its last round. */
  lemma ReplaceRoundValid(cfg: Config, dsp: Dispute, i: nat, r: Round, state: DisputeState)
    requires DisputeValid(cfg, dsp) && i < |dsp.rounds| && RoundValid(r) && r.final == dsp.rounds[i].final
    requires i + 1 < |dsp.rounds| ==> r.appeal == dsp.rounds[i].appeal && (state != PreDraft <==> Drafted(LastRound(dsp)))
    requires i + 1 == |dsp.rounds| ==> (r.appeal.Some? ==> !r.appeal.value.confirmed) && (state != PreDraft <==> Drafted(r))
    requires state == PreDraft ==> !LastRound(dsp).final
    ensures DisputeValid(cfg, dsp.(state := state, rounds := dsp.rounds[i := r]))
  {
    var after := dsp.(state := state, rounds := dsp.rounds[i := r]);
    forall k | 0 <= k < |after.rounds|
      ensures RoundValid(after.rounds[k])
    {
      if k != i {
        assert after.rounds[k] == dsp.rounds[k];
      }
    }
  }

  /** A draft batch that does not overfill the panel keeps the dispute valid. */
  lemma DraftKeepsValid(cfg: Config, dsp: Dispute, drafted: seq<Address>, lock: nat, term: nat)
    requires DisputeValid(cfg, dsp) && dsp.state == PreDraft
    requires LastRound(dsp).selectedJurors + |drafted| <= LastRound(dsp).jurorsNumber
    ensures DisputeValid(cfg, DraftedDispute(dsp, drafted, lock, term))
  {
    var last := |dsp.rounds| - 1;
    assert RoundValid(dsp.rounds[last]);
    DraftBatchValid(dsp.rounds[last], drafted, lock, term);
    var r := DraftBatch(dsp.rounds[last], drafted, lock, term);
    ReplaceRoundValid(cfg, dsp, last, r, if Drafted(r) then Adjudicating else PreDraft);
  }

  /** Every dispute of the court is valid. The per-dispute invariant is only
      unfolded for disputes a proof names. */
  ghost predicate AllValid(cfg: Config, ds: seq<Dispute>)
  {
    && (forall i :: 0 <= i < |ds| ==> |ds[i].rounds| > 0)
    && (forall i {:trigger DisputeValid(cfg, ds[i])} :: 0 <= i < |ds| ==> DisputeValid(cfg, ds[i]))
  }

  lemma ValidAt(cfg: Config, ds: seq<Dispute>, d: nat)
    requires AllValid(cfg, ds) && d < |ds|
    ensures DisputeValid(cfg, ds[d])
  {
  }

  lemma UpdateValid(cfg: Config, ds: seq<Dispute>, d: nat, x: Dispute)
    requires AllValid(cfg, ds) && d < |ds| && DisputeValid(cfg, x)
    ensures AllValid(cfg, ds[d := x])
  {
    var ds' := ds[d := x];
    forall i | 0 <= i < |ds'|
      ensures DisputeValid(cfg, ds'[i])
    {
      if i != d {
        ValidAt(cfg, ds, i);
      }
    }
  }

  lemma AppendValid(cfg: Config, ds: seq<Dispute>, x: Dispute)
    requires AllValid(cfg, ds) && DisputeValid(cfg, x)
    ensures AllValid(cfg, ds + [x])
  {
    var ds' := ds + [x];
    forall i | 0 <= i < |ds'|
      ensures DisputeValid(cfg, ds'[i])
    {
      if i < |ds| {
        ValidAt(cfg, ds, i);
      }
    }
  }

  /** Drafting a batch keeps every dispute of the court valid. */
  lemma DraftKeepsAllValid(cfg: Config, ds: seq<Dispute>, d: nat, drafted: seq<Address>, lock: nat, term: nat)
    requires AllValid(cfg, ds) && d < |ds| && ds[d].state == PreDraft
    requires LastRound(ds[d]).selectedJurors + |drafted| <= LastRound(ds[d]).jurorsNumber
    ensures AllValid(cfg, ds[d := DraftedDispute(ds[d], drafted, lock, term)])
  {
    ValidAt(cfg, ds, d);
    DraftKeepsValid(cfg, ds[d], drafted, lock, term);
    UpdateValid(cfg, ds, d, DraftedDispute(ds[d], drafted, lock, term));
  }

  // ---- Rulings before settlement -----------------------------------------

  /** Whether the last round of `dsp` has ended at `term`. */
  predicate LastEnded(cfg: Config, dsp: Dispute, term: nat)
    requires |dsp.rounds| > 0
  {
    RoundState(cfg, LastRound(dsp), term) == Ended
  }

  /** A dispute is executed, and the penalties of any of its rounds are
      settled, only once its last round has ended: both need the final ruling. */
  ghost predicate SettledAfterEnd(cfg: Config, dsp: Dispute, term: nat)
  {
    && |dsp.rounds| > 0
    && (dsp.state == Executed ==> LastEnded(cfg, dsp, term))
    && (forall k :: 0 <= k < |dsp.rounds| && dsp.rounds[k].settledPenalties ==> LastEnded(cfg, dsp, term))
  }

  ghost predicate AllSettledAfterEnd(cfg: Config, ds: seq<Dispute>, term: nat)
  {
    forall i {:trigger SettledAfterEnd(cfg, ds[i], term)} :: 0 <= i < |ds| ==> SettledAfterEnd(cfg, ds[i], term)
  }

  /** Under the invariant a dispute has a ruling exactly when its last round
      has ended, executed or not. */
  lemma RulingIffEnded(cfg: Config, dsp: Dispute, d: nat, term: nat, votes: map<nat, Voting.Vote>)
    requires SettledAfterEnd(cfg, dsp, term)
    ensures DisputeRuling(cfg, dsp, d, term, votes).Ok? <==> LastEnded(cfg, dsp, term)
  {
  }

  /** Before its last round ends, a dispute is not executed and none of its
      rounds has its penalties settled. */
  lemma UnendedUnsettled(cfg: Config, dsp: Dispute, term: nat)
    requires SettledAfterEnd(cfg, dsp, term) && !LastEnded(cfg, dsp, term)
    ensures dsp.state != Executed
    ensures forall k :: 0 <= k < |dsp.rounds| ==> !dsp.rounds[k].settledPenalties
  {
  }

  /** The invariant survives the clock moving forward: an ended round stays ended. */
  lemma SettledAfterEndLater(cfg: Config, ds: seq<Dispute>, t1: nat, t2: nat)
    requires AllSettledAfterEnd(cfg, ds, t1) && t1 <= t2
    ensures AllSettledAfterEnd(cfg, ds, t2)
  {
    forall i | 0 <= i < |ds|
      ensures SettledAfterEnd(cfg, ds[i], t2)
    {
      assert SettledAfterEnd(cfg, ds[i], t1);
      EndedIff(cfg.phases, ClockOf(LastRound(ds[i])), t1);
      EndedIff(cfg.phases, ClockOf(LastRound(ds[i])), t2);
    }
  }

  lemma UpdateSettledAfterEnd(cfg: Config, ds: seq<Dispute>, d: nat, x: Dispute, term: nat)
    requires AllSettledAfterEnd(cfg, ds, term) && d < |ds| && SettledAfterEnd(cfg, x, term)
    ensures AllSettledAfterEnd(cfg, ds[d := x], term)
  {
    var ds' := ds[d := x];
    forall i | 0 <= i < |ds'|
      ensures SettledAfterEnd(cfg, ds'[i], term)
    {
      if i != d {
        assert SettledAfterEnd(cfg, ds[i], term);
      }
    }
  }

  lemma AppendSettledAfterEnd(cfg: Config, ds: seq<Dispute>, x: Dispute, term: nat)
    requires AllSettledAfterEnd(cfg, ds, term) && SettledAfterEnd(cfg, x, term)
    ensures AllSettledAfterEnd(cfg, ds + [x], term)
  {
    var ds' := ds + [x];
    forall i | 0 <= i < |ds'|
      ensures SettledAfterEnd(cfg, ds'[i], term)
    {
      if i < |ds| {
        assert SettledAfterEnd(cfg, ds[i], term);
      }
    }
  }

  /** A change that keeps the rounds and the last round's schedule keeps a
      dispute whose last round has ended in the invariant, whatever it settles. */
  lemma EndedKept(cfg: Config, dsp: Dispute, x: Dispute, term: nat)
    requires |dsp.rounds| > 0 && LastEnded(cfg, dsp, term)
    requires |x.rounds| == |dsp.rounds| && ClockOf(LastRound(x)) == ClockOf(LastRound(dsp))
    ensures SettledAfterEnd(cfg, x, term)
  {
  }

  /** A new dispute has nothing settled and is not executed. */
  lemma NewDisputeSettledAfterEnd(cfg: Config, subject: Address, possibleRulings: nat, term: nat, creator: Address)
    ensures SettledAfterEnd(cfg, NewDispute(cfg, subject, possibleRulings, term, creator), term)
  {
  }

  /** A dispute waiting for its panel has nothing settled, and a draft batch
      settles nothing. */
  lemma DraftKeepsSettledAfterEnd(cfg: Config, ds: seq<Dispute>, d: nat, drafted: seq<Address>, lock: nat, term: nat)
    requires AllValid(cfg, ds) && AllSettledAfterEnd(cfg, ds, term) && d < |ds| && ds[d].state == PreDraft
    ensures AllSettledAfterEnd(cfg, ds[d := DraftedDispute(ds[d], drafted, lock, term)], term)
  {
    var dsp := ds[d];
    ValidAt(cfg, ds, d);
    assert SettledAfterEnd(cfg, dsp, term);
    UndraftedIsInvalid(cfg.phases, ClockOf(LastRound(dsp)), term);
    UnendedUnsettled(cfg, dsp, term);
    var after := DraftedDispute(dsp, drafted, lock, term);
    forall k | 0 <= k < |after.rounds|
      ensures !after.rounds[k].settledPenalties
    {
      assert !dsp.rounds[k].settledPenalties;
    }
    UpdateSettledAfterEnd(cfg, ds, d, after, term);
  }

  /** A round open to appeal, or to its confirmation, has not ended: nothing
      of its dispute is settled, and an appeal or its confirmation settles
      nothing. */
  lemma AppealKeepsSettledAfterEnd(cfg: Config, ds: seq<Dispute>, d: nat, maker: Address, ruling: nat, term: nat)
    requires AllSettledAfterEnd(cfg, ds, term) && d < |ds| && |ds[d].rounds| > 0
    requires RoundState(cfg, LastRound(ds[d]), term) == Appealing
    ensures AllSettledAfterEnd(cfg, ds[d := AppealedDispute(ds[d], maker, ruling)], term)
  {
    var dsp := ds[d];
    assert SettledAfterEnd(cfg, dsp, term);
    UnendedUnsettled(cfg, dsp, term);
    var after := AppealedDispute(dsp, maker, ruling);
    forall k | 0 <= k < |after.rounds|
      ensures !after.rounds[k].settledPenalties
    {
      assert !dsp.rounds[k].settledPenalties;
    }
    UpdateSettledAfterEnd(cfg, ds, d, after, term);
  }

  lemma ConfirmKeepsSettledAfterEnd(cfg: Config, ds: seq<Dispute>, d: nat, taker: Address, ruling: nat,
                                    finalJurorsNumber: nat, term: nat)
    requires AllSettledAfterEnd(cfg, ds, term) && d < |ds| && |ds[d].rounds| > 0 && LastRound(ds[d]).appeal.Some?
    requires RoundState(cfg, LastRound(ds[d]), term) == ConfirmingAppeal
    ensures AllSettledAfterEnd(cfg, ds[d := ConfirmedDispute(cfg, ds[d], taker, ruling, finalJurorsNumber)], term)
  {
    var dsp := ds[d];
    assert SettledAfterEnd(cfg, dsp, term);
    UnendedUnsettled(cfg, dsp, term);
    var after := ConfirmedDispute(cfg, dsp, taker, ruling, finalJurorsNumber);
    forall k | 0 <= k < |after.rounds|
      ensures !after.rounds[k].settledPenalties
    {
      if k < |dsp.rounds| {
        assert !dsp.rounds[k].settledPenalties;
      }
    }
    UpdateSettledAfterEnd(cfg, ds, d, after, term);
  }

  /** Executing a dispute whose last round has ended keeps the invariant. */
  lemma ExecuteKeepsSettledAfterEnd(cfg: Config, ds: seq<Dispute>, d: nat, ruling: nat, term: nat)
    requires AllSettledAfterEnd(cfg, ds, term) && d < |ds| && |ds[d].rounds| > 0 && LastEnded(cfg, ds[d], term)
    ensures AllSettledAfterEnd(cfg, ds[d := ExecutedDispute(ds[d], ruling)], term)
  {
    EndedKept(cfg, ds[d], ExecutedDispute(ds[d], ruling), term);
    UpdateSettledAfterEnd(cfg, ds, d, ExecutedDispute(ds[d], ruling), term);
  }

  /** Distinct (dispute, round) pairs never share a vote. */
  lemma VoteIdInjective(d1: nat, r1: nat, d2: nat, r2: nat)
    requires r1 < ROUND_ID_SPACE && r2 < ROUND_ID_SPACE
    ensures VoteId(d1, r1) == VoteId(d2, r2) <==> d1 == d2 && r1 == r2
  {
    if d1 < d2 {
      VoteIdGap(d1, r1, d2, r2);
    } else if d2 < d1 {
      VoteIdGap(d2, r2, d1, r1);
    }
  }

  lemma VoteIdGap(d1: nat, r1: nat, d2: nat, r2: nat)
    requires d1 < d2 && r1 < ROUND_ID_SPACE
    ensures VoteId(d1, r1) < VoteId(d2, r2)
  {
    Settlement.Distrib(d1, 1, ROUND_ID_SPACE);
    Settlement.MulLe(d1 + 1, d2, ROUND_ID_SPACE);
  }

  /** A change to the vote of one round, such as a leak, leaves the vote the
      court reads for every other round as it was. */
  lemma VoteOfFrame(votes: map<nat, Voting.Vote>, d1: nat, r1: nat, v: Voting.Vote, d2: nat, r2: nat)
    requires r1 < ROUND_ID_SPACE && r2 < ROUND_ID_SPACE
    ensures VoteOf(votes[VoteId(d1, r1) := v], d1, r1) == v
    ensures d1 != d2 || r1 != r2 ==> VoteOf(votes[VoteId(d1, r1) := v], d2, r2) == VoteOf(votes, d2, r2)
  {
    VoteIdInjective(d1, r1, d2, r2);
  }

  // ---- Appeals and execution -------------------------------------------

  /** The dispute after `maker` appealed its last round in favour of `ruling`. */
  function AppealedDispute(dsp: Dispute, maker: Address, ruling: nat): Dispute
    requires |dsp.rounds| > 0
  {
    var last := LastRound(dsp);
    dsp.(rounds := dsp.rounds[|dsp.rounds| - 1 := last.(appeal := Some(Appeal(maker, ruling, false, 0, 0)))])
  }

  /** Appealing a drafted last round keeps the dispute valid. */
  lemma AppealKeepsValid(cfg: Config, dsp: Dispute, maker: Address, ruling: nat)
    requires DisputeValid(cfg, dsp) && Drafted(LastRound(dsp))
    ensures DisputeValid(cfg, AppealedDispute(dsp, maker, ruling))
  {
    var last := |dsp.rounds| - 1;
    assert RoundValid(dsp.rounds[last]);
    var r := dsp.rounds[last].(appeal := Some(Appeal(maker, ruling, false, 0, 0)));
    ReplaceRoundValid(cfg, dsp, last, r, dsp.state);
  }

  /** The round a confirmed appeal of `last` opens as round number `index`: due
      when the appealed round ends, with three times the jurors (made odd) for
      a regular round and `finalJurorsNumber` for the final round, its juror
      fees paid by `taker`. */
  function NextRound(cfg: Config, last: Round, index: nat, taker: Address, finalJurorsNumber: nat): Round
  {
    var final := index >= cfg.maxRegularAppealRounds;
    var n := if final then finalJurorsNumber else NextRoundJurorsNumber(last.jurorsNumber);
    NewRound(EndTerm(cfg.phases, ClockOf(last)), n, JurorFees(cfg, n), taker, final)
  }

  /** The dispute after `taker` confirmed the appeal of its last round in
      favour of `ruling`: the appeal is marked confirmed and the next round is
      opened; a regular round waits for its draft, the final round adjudicates
      at once. */
  function ConfirmedDispute(cfg: Config, dsp: Dispute, taker: Address, ruling: nat, finalJurorsNumber: nat): Dispute
    requires |dsp.rounds| > 0 && LastRound(dsp).appeal.Some?
  {
    var last := LastRound(dsp);
    var confirmed := last.(appeal := Some(last.appeal.value.(confirmed := true, taker := taker, opposedRuling := ruling)));
    var next := NextRound(cfg, last, |dsp.rounds|, taker, finalJurorsNumber);
    dsp.(state := if next.final then Adjudicating else PreDraft,
         rounds := dsp.rounds[|dsp.rounds| - 1 := confirmed] + [next])
  }

  /** Confirming the appeal of a drafted regular last round keeps the dispute
      valid: one more round, final exactly from index maxRegularAppealRounds. */
  lemma ConfirmKeepsValid(cfg: Config, dsp: Dispute, taker: Address, ruling: nat, finalJurorsNumber: nat)
    requires DisputeValid(cfg, dsp) && Drafted(LastRound(dsp)) && !LastRound(dsp).final && LastRound(dsp).appeal.Some?
    ensures DisputeValid(cfg, ConfirmedDispute(cfg, dsp, taker, ruling, finalJurorsNumber))
  {
    var last := |dsp.rounds| - 1;
    var after := ConfirmedDispute(cfg, dsp, taker, ruling, finalJurorsNumber);
    assert RoundValid(dsp.rounds[last]);
    forall k | 0 <= k < |after.rounds|
      ensures RoundValid(after.rounds[k])
    {
      if k < last {
        assert after.rounds[k] == dsp.rounds[k];
      }
    }
    forall k | 0 <= k < |after.rounds| - 1
      ensures after.rounds[k].appeal.Some? && after.rounds[k].appeal.value.confirmed
    {
      if k < last {
        assert after.rounds[k] == dsp.rounds[k];
      }
    }
    forall k | 0 <= k < |after.rounds|
      ensures after.rounds[k].final <==> k >= cfg.maxRegularAppealRounds
    {
      if k < last {
        assert after.rounds[k] == dsp.rounds[k];
      }
    }
  }

  /** After a confirmed appeal the appealed round is Ended from the term its
      confirmation window closes, yet the dispute has no ruling until the new
      round ends: never while a regular new round waits for its draft, and not
      before the new round's end term otherwise. */
  lemma ConfirmedNotSettleable(cfg: Config, dsp: Dispute, d: nat, taker: Address, ruling: nat, finalJurorsNumber: nat,
                               term: nat, votes: map<nat, Voting.Vote>)
    requires DisputeValid(cfg, dsp) && Drafted(LastRound(dsp)) && !LastRound(dsp).final && LastRound(dsp).appeal.Some?
    ensures var after := ConfirmedDispute(cfg, dsp, taker, ruling, finalJurorsNumber);
            var appealed := after.rounds[|dsp.rounds| - 1];
            && (RoundState(cfg, appealed, term) == Ended <==> term >= EndTerm(cfg.phases, ClockOf(LastRound(dsp))))
            && (!LastRound(after).final ==> DisputeRuling(cfg, after, d, term, votes).Err?)
            && (term < EndTerm(cfg.phases, ClockOf(LastRound(after))) ==> DisputeRuling(cfg, after, d, term, votes).Err?)
  {
    var after := ConfirmedDispute(cfg, dsp, taker, ruling, finalJurorsNumber);
    var appealed := after.rounds[|dsp.rounds| - 1];
    assert ClockOf(appealed) == ClockOf(LastRound(dsp));
    EndedIff(cfg.phases, ClockOf(appealed), term);
    EndedIff(cfg.phases, ClockOf(LastRound(after)), term);
  }

  /** The dispute once its ruling was executed. */
  function ExecutedDispute(dsp: Dispute, ruling: nat): Dispute
  {
    dsp.(state := Executed, finalRuling := ruling)
  }

  /** Executing a dispute whose last round has ended keeps it valid. */
  lemma ExecuteKeepsValid(cfg: Config, dsp: Dispute, term: nat, ruling: nat)
    requires DisputeValid(cfg, dsp) && RoundState(cfg, LastRound(dsp), term) == Ended
    ensures DisputeValid(cfg, ExecutedDispute(dsp, ruling))
  {
    EndedIff(cfg.phases, ClockOf(LastRound(dsp)), term);
    var after := ExecutedDispute(dsp, ruling);
    assert after.rounds == dsp.rounds;
  }

  /** A round of a dispute with a ruling has been drafted: an earlier round
      was appealed, and the last round has ended or was executed. */
  lemma RuledRoundDrafted(cfg: Config, dsp: Dispute, d: nat, r: nat, term: nat, votes: map<nat, Voting.Vote>)
    requires DisputeValid(cfg, dsp) && r < |dsp.rounds| && DisputeRuling(cfg, dsp, d, term, votes).Ok?
    ensures Drafted(dsp.rounds[r])
  {
    assert RoundValid(dsp.rounds[r]);
    if r + 1 == |dsp.rounds| && dsp.state != Executed {
      EndedIff(cfg.phases, ClockOf(LastRound(dsp)), term);
    }
  }

  // ---- Withdrawals after a final round -----------------------------------

  /** The last term at which a coherent final-round juror cannot withdraw:
      the final round's vote closes `commitTerms + revealTerms` after its
      draft term, and the lock lasts `finalRoundLockTerms` more. */
  function FinalRoundLockEnd(cfg: Config, r: Round): nat
  {
    r.draftTerm + cfg.phases.commitTerms + cfg.phases.revealTerms + cfg.finalRoundLockTerms
  }

  /** Whether `j` may withdraw at `term` under the withdrawal locks `locks`. */
  predicate CanWithdraw(locks: map<Address, nat>, j: Address, term: nat)
  {
    term > Get(locks, j)
  }

  /** Locked up to and including the last locked term, free from the next one. */
  lemma WithdrawalLockWindow(cfg: Config, r: Round, j: Address, locks: map<Address, nat>, term: nat)
    requires Get(locks, j) == FinalRoundLockEnd(cfg, r)
    ensures !CanWithdraw(locks, j, FinalRoundLockEnd(cfg, r))
    ensures CanWithdraw(locks, j, FinalRoundLockEnd(cfg, r) + 1)
    ensures term <= r.draftTerm + cfg.phases.commitTerms + cfg.phases.revealTerms ==> !CanWithdraw(locks, j, term)
  {
  }
}
