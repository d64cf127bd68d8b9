/** The court: creates disputes, drafts the jurors of each round, takes
    appeals, executes the final ruling and settles every round in two phases
    (penalties in batches, then one reward per coherent juror). The voting
    contract's records are passed in as a snapshot wherever a ruling or a
    juror's vote is read. */
module Court {
  import opened Types
  import opened Phase
  import opened CourtRounds
  import Clock
  import Voting
  import Settlement

  /** How many of the round's jurors a penalties call settles: all pending
      jurors for a final round or a batch of 0, otherwise at most `batch`. */
  function SettleCount(r: Round, batch: nat): (n: nat)
    requires r.settledJurors <= |r.jurors|
    ensures n <= |r.jurors| - r.settledJurors
    ensures r.final || batch == 0 ==> n == |r.jurors| - r.settledJurors
    ensures !r.final && batch > 0 ==> n == Min(batch, |r.jurors| - r.settledJurors)
  {
    var pending := |r.jurors| - r.settledJurors;
    if r.final || batch == 0 then pending else Min(batch, pending)
  }

  function Participants(r: Round): Settlement.Participation
  {
    Settlement.Participation(r.weight, r.roundLock, r.final)
  }

  /** The treasury after the juror fees of round `r` went back to whoever paid
      them: the disputer for round 0, the appeal maker and taker of the
      previous round's appeal, half each, for later rounds. */
  function RefundFees(treasury: map<Address, nat>, dsp: Dispute, r: nat): (res: map<Address, nat>)
    requires r < |dsp.rounds|
    ensures r == 0 ==>
              Get(res, dsp.rounds[0].triggeredBy) == Get(treasury, dsp.rounds[0].triggeredBy) + dsp.rounds[0].jurorFees &&
              forall a :: a != dsp.rounds[0].triggeredBy ==> Get(res, a) == Get(treasury, a)
    ensures r > 0 && dsp.rounds[r - 1].appeal.Some? ==>
              var ap := dsp.rounds[r - 1].appeal.value;
              forall a :: Get(res, a) == Get(treasury, a) + (if a == ap.maker then dsp.rounds[r].jurorFees / 2 else 0)
                                                          + (if a == ap.taker then dsp.rounds[r].jurorFees / 2 else 0)
  {
    var (toDisputer, toMaker, toTaker) := Settlement.Refunds(r, dsp.rounds[r].jurorFees);
    if r == 0 then Credit(treasury, dsp.rounds[0].triggeredBy, toDisputer)
    else match dsp.rounds[r - 1].appeal
      case Some(a) => Credit(Credit(treasury, a.maker, toMaker), a.taker, toTaker)
      case None => treasury
  }

  /** The jurors of round `rd` that the next `n` penalty settlements cover. */
  function PendingJurors(rd: Round, n: nat): seq<Address>
    requires rd.settledJurors + n <= |rd.jurors|
  {
    rd.jurors[rd.settledJurors..rd.settledJurors + n]
  }

  lemma PendingSplit(rd: Round, a: nat, b: nat)
    requires rd.settledJurors + a + b <= |rd.jurors|
    ensures PendingJurors(rd, a + b) == PendingJurors(rd, a) + rd.jurors[rd.settledJurors + a..rd.settledJurors + a + b]
  {
  }

  /** Round `rd` after a penalty pass over `n` more jurors reached totals `t`. */
  function Advanced(rd: Round, n: nat, t: Settlement.Totals): Round
  {
    rd.(settledJurors := rd.settledJurors + n, collectedTokens := t.collected, coherentJurors := t.coherent)
  }

  /** The balances and the round after a penalty pass over `n` more jurors ended in `res`. */
  function Advance(rd: Round, n: nat, res: Result<Settlement.Totals>): Result<(Settlement.Stake, Round)>
  {
    match res
    case Err(e) => Err(e)
    case Ok(t) => Ok((t.stake, Advanced(rd, n, t)))
  }

  /** Settles the penalties of the next `n` pending jurors of round `rd` against
      the final ruling `ruling`: the new registry balances, and the round with
      its cursor, collected tokens and coherent weight advanced. */
  function PenaltyPass(stake: Settlement.Stake, rd: Round, n: nat, vote: Voting.Vote, ruling: nat)
    : Result<(Settlement.Stake, Round)>
    requires rd.settledJurors + n <= |rd.jurors|
  {
    Advance(rd, n, Settlement.PenalizeJurors(Settlement.Totals(stake, rd.collectedTokens, rd.coherentJurors),
                                             Participants(rd), vote, ruling, PendingJurors(rd, n)))
  }

  /** The end of a settlePenalties call that left round `r` as `rd` and the
      registry as `s`: the call that settles the last juror marks the round
      settled and, when no juror was coherent, burns the collected tokens and
      refunds the round's juror fees. */
  function Closing(s: Settlement.Stake, treasury: map<Address, nat>, dsp: Dispute, r: nat, rd: Round)
    : (Settlement.Stake, map<Address, nat>, Dispute)
    requires r < |dsp.rounds|
  {
    if rd.settledJurors < |rd.jurors| then (s, treasury, dsp.(rounds := dsp.rounds[r := rd]))
    else
      var closed := dsp.(rounds := dsp.rounds[r := rd.(settledPenalties := true)]);
      if rd.coherentJurors > 0 then (s, treasury, closed)
      else (s.(available := Credit(s.available, BURN_ADDRESS, rd.collectedTokens)), RefundFees(treasury, dsp, r), closed)
  }

  /** One settlePenalties call over the next `n` pending jurors of round `r`:
      the new registry balances, treasury and dispute. */
  function SettleOutcome(stake: Settlement.Stake, treasury: map<Address, nat>, dsp: Dispute, r: nat, n: nat,
                         vote: Voting.Vote, ruling: nat): Result<(Settlement.Stake, map<Address, nat>, Dispute)>
    requires r < |dsp.rounds| && dsp.rounds[r].settledJurors + n <= |dsp.rounds[r].jurors|
  {
    match PenaltyPass(stake, dsp.rounds[r], n, vote, ruling)
    case Err(e) => Err(e)
    case Ok((s, rd)) => Ok(Closing(s, treasury, dsp, r, rd))
  }

  /** Settling `a + b` jurors in one call is settling `a` and then `b`: the
      batch size never changes where a round's settlement ends. */
  lemma PenaltyPassSplit(stake: Settlement.Stake, rd: Round, a: nat, b: nat, vote: Voting.Vote, ruling: nat)
    requires rd.settledJurors + a + b <= |rd.jurors|
    ensures PenaltyPass(stake, rd, a + b, vote, ruling) ==
              match PenaltyPass(stake, rd, a, vote, ruling)
              case Err(e) => Err(e)
              case Ok((s, rd')) => PenaltyPass(s, rd', b, vote, ruling)
  {
    var p := Participants(rd);
    var t0 := Settlement.Totals(stake, rd.collectedTokens, rd.coherentJurors);
    var first := PendingJurors(rd, a);
    var rest := rd.jurors[rd.settledJurors + a..rd.settledJurors + a + b];
    PendingSplit(rd, a, b);
    Settlement.PenalizeSplit(t0, p, vote, ruling, first, rest);
    var r1 := Settlement.PenalizeJurors(t0, p, vote, ruling, first);
    var whole := Settlement.PenalizeJurors(t0, p, vote, ruling, first + rest);
    assert PenaltyPass(stake, rd, a + b, vote, ruling) == Advance(rd, a + b, whole);
    assert PenaltyPass(stake, rd, a, vote, ruling) == Advance(rd, a, r1);
    if r1.Ok? {
      PassContinues(rd, a, b, vote, ruling, r1.value);
    }
  }

  /** A settlePenalties call over `a` jurors that leaves some pending,
      followed by one over `b` more, ends with the registry, the treasury and
      the dispute a single call over `a + b` jurors ends with: intermediate
      calls neither burn, refund nor mark the round settled. */
  lemma SettleInBatches(stake: Settlement.Stake, treasury: map<Address, nat>, dsp: Dispute, r: nat, a: nat, b: nat,
                        vote: Voting.Vote, ruling: nat)
    requires r < |dsp.rounds| && dsp.rounds[r].settledJurors + a + b <= |dsp.rounds[r].jurors|
    requires dsp.rounds[r].settledJurors + a < |dsp.rounds[r].jurors|
    ensures SettleOutcome(stake, treasury, dsp, r, a + b, vote, ruling) ==
              match SettleOutcome(stake, treasury, dsp, r, a, vote, ruling)
              case Err(e) => Err(e)
              case Ok((s, t, dsp')) => SettleOutcome(s, t, dsp', r, b, vote, ruling)
  {
    var rd := dsp.rounds[r];
    PenaltyPassSplit(stake, rd, a, b, vote, ruling);
    var first := PenaltyPass(stake, rd, a, vote, ruling);
    if first.Ok? {
      var (s1, rd1) := first.value;
      assert rd1.jurors == rd.jurors && rd1.settledJurors == rd.settledJurors + a;
      var dsp1 := dsp.(rounds := dsp.rounds[r := rd1]);
      assert SettleOutcome(stake, treasury, dsp, r, a, vote, ruling) == Ok((s1, treasury, dsp1));
      var second := PenaltyPass(s1, rd1, b, vote, ruling);
      if second.Ok? {
        var (s2, rd2) := second.value;
        assert dsp1.(rounds := dsp1.rounds[r := rd2]) == dsp.(rounds := dsp.rounds[r := rd2]);
        assert dsp1.(rounds := dsp1.rounds[r := rd2.(settledPenalties := true)])
               == dsp.(rounds := dsp.rounds[r := rd2.(settledPenalties := true)]);
        assert RefundFees(treasury, dsp1, r) == RefundFees(treasury, dsp, r);
      }
    }
  }

  /** After a first pass over `a` jurors reached totals `t`, the second pass
      over `b` jurors starts where the first one stopped. */
  lemma PassContinues(rd: Round, a: nat, b: nat, vote: Voting.Vote, ruling: nat, t: Settlement.Totals)
    requires rd.settledJurors + a + b <= |rd.jurors|
    ensures PenaltyPass(t.stake, Advanced(rd, a, t), b, vote, ruling) ==
            Advance(rd, a + b, Settlement.PenalizeJurors(t, Participants(rd), vote, ruling,
                                                         rd.jurors[rd.settledJurors + a..rd.settledJurors + a + b]))
  {
    var rd' := Advanced(rd, a, t);
    var rest := rd.jurors[rd.settledJurors + a..rd.settledJurors + a + b];
    assert Settlement.Totals(t.stake, rd'.collectedTokens, rd'.coherentJurors) == t;
    assert Participants(rd') == Participants(rd);
    assert PendingJurors(rd', b) == rest;
    AdvanceTwice(rd, a, b, t, Settlement.PenalizeJurors(t, Participants(rd), vote, ruling, rest));
  }

  lemma AdvanceTwice(rd: Round, a: nat, b: nat, t: Settlement.Totals, res: Result<Settlement.Totals>)
    ensures Advance(Advanced(rd, a, t), b, res) == Advance(rd, a + b, res)
  {
  }

  /** A complete pass over a round nobody settled yet collects the round lock
      of every incoherent juror (of every juror in a final round), counts the
      weight of the coherent jurors, and moves each juror's balances once:
      a regular round unlocks every juror's round lock and slashes it from the
      active balance of the incoherent ones; nobody's available balance moves. */
  lemma PenaltiesOfRound(stake: Settlement.Stake, rd: Round, vote: Voting.Vote, ruling: nat, k: Address)
    requires Distinct(rd.jurors)
    requires rd.settledJurors == 0 && rd.collectedTokens == 0 && rd.coherentJurors == 0
    requires PenaltyPass(stake, rd, |rd.jurors|, vote, ruling).Ok?
    ensures var (s, rd') := PenaltyPass(stake, rd, |rd.jurors|, vote, ruling).value;
            && rd'.settledJurors == |rd.jurors|
            && rd'.collectedTokens == Settlement.CollectedSum(Participants(rd), vote, ruling, rd.jurors)
            && rd'.coherentJurors == Settlement.CoherentSum(Participants(rd), vote, ruling, rd.jurors)
            && Get(stake.locked, k) ==
                 Get(s.locked, k) + (if k in rd.jurors then Settlement.LockedRelease(Participants(rd), k) else 0)
            && Get(stake.active, k) ==
                 Get(s.active, k) +
                 (if k in rd.jurors then Settlement.ActiveSlash(Participants(rd), Settlement.Coherent(vote, ruling, k), k) else 0)
            && s.available == stake.available
  {
    var t0 := Settlement.Totals(stake, 0, 0);
    assert PendingJurors(rd, |rd.jurors|) == rd.jurors;
    Settlement.PenalizeTotals(t0, Participants(rd), vote, ruling, rd.jurors);
    Settlement.PenalizeBalances(t0, Participants(rd), vote, ruling, rd.jurors, k);
  }

  /** The last penalty call burns and refunds exactly when no juror was
      coherent; any other call leaves the burn address and the treasury alone. */
  lemma SettleBurnsIff(stake: Settlement.Stake, treasury: map<Address, nat>, dsp: Dispute, r: nat, n: nat,
                       vote: Voting.Vote, ruling: nat)
    requires r < |dsp.rounds| && dsp.rounds[r].settledJurors + n <= |dsp.rounds[r].jurors|
    requires Distinct(dsp.rounds[r].jurors)
    requires SettleOutcome(stake, treasury, dsp, r, n, vote, ruling).Ok?
    ensures var (s, t, dsp') := SettleOutcome(stake, treasury, dsp, r, n, vote, ruling).value;
            var rd' := dsp'.rounds[r];
            && rd'.settledJurors == dsp.rounds[r].settledJurors + n
            && (rd'.settledPenalties <==> dsp.rounds[r].settledPenalties || rd'.settledJurors == |rd'.jurors|)
            && (rd'.settledJurors == |rd'.jurors| && rd'.coherentJurors == 0 ==>
                  Get(s.available, BURN_ADDRESS) == Get(stake.available, BURN_ADDRESS) + rd'.collectedTokens &&
                  t == RefundFees(treasury, dsp, r))
            && (rd'.settledJurors < |rd'.jurors| || rd'.coherentJurors > 0 ==> s.available == stake.available && t == treasury)
  {
    var rd := dsp.rounds[r];
    PassKeepsAvailable(stake, rd, n, vote, ruling);
    var (s, rd') := PenaltyPass(stake, rd, n, vote, ruling).value;
    ClosingEffects(s, treasury, dsp, r, rd');
  }

  /** A penalty pass moves the round's cursor by `n` and never touches an
      available balance. */
  lemma PassKeepsAvailable(stake: Settlement.Stake, rd: Round, n: nat, vote: Voting.Vote, ruling: nat)
    requires rd.settledJurors + n <= |rd.jurors| && Distinct(rd.jurors)
    requires PenaltyPass(stake, rd, n, vote, ruling).Ok?
    ensures var (s, rd') := PenaltyPass(stake, rd, n, vote, ruling).value;
            s.available == stake.available && rd' == rd.(settledJurors := rd.settledJurors + n,
                                                         collectedTokens := rd'.collectedTokens, coherentJurors := rd'.coherentJurors)
  {
    var js := PendingJurors(rd, n);
    assert Distinct(js) by {
      forall a, b | 0 <= a < b < |js| ensures js[a] != js[b] {
        assert js[a] == rd.jurors[rd.settledJurors + a] && js[b] == rd.jurors[rd.settledJurors + b];
      }
    }
    Settlement.PenalizeBalances(Settlement.Totals(stake, rd.collectedTokens, rd.coherentJurors),
                                Participants(rd), vote, ruling, js, BURN_ADDRESS);
  }

  /** The closing step burns and refunds exactly when the round is complete
      and nobody was coherent, and marks the round settled when it is complete. */
  lemma ClosingEffects(s: Settlement.Stake, treasury: map<Address, nat>, dsp: Dispute, r: nat, rd: Round)
    requires r < |dsp.rounds| && rd.settledJurors <= |rd.jurors|
    ensures var (s', t, dsp') := Closing(s, treasury, dsp, r, rd);
            && dsp'.rounds[r] == rd.(settledPenalties := dsp'.rounds[r].settledPenalties)
            && (dsp'.rounds[r].settledPenalties <==> rd.settledPenalties || rd.settledJurors == |rd.jurors|)
            && (rd.settledJurors == |rd.jurors| && rd.coherentJurors == 0 ==>
                  Get(s'.available, BURN_ADDRESS) == Get(s.available, BURN_ADDRESS) + rd.collectedTokens &&
                  t == RefundFees(treasury, dsp, r))
            && (rd.settledJurors < |rd.jurors| || rd.coherentJurors > 0 ==> s'.available == s.available && t == treasury)
  {
  }

  /** Settling part of a drafted round only moves its settlement fields, which
      keeps the dispute valid. */
  lemma SettleKeepsValid(cfg: Config, dsp: Dispute, r: nat, rd: Round)
    requires DisputeValid(cfg, dsp) && r < |dsp.rounds| && Drafted(dsp.rounds[r])
    requires rd == dsp.rounds[r].(settledJurors := rd.settledJurors, collectedTokens := rd.collectedTokens,
                                  coherentJurors := rd.coherentJurors, settledPenalties := rd.settledPenalties)
    requires rd.settledJurors <= |rd.jurors|
    ensures DisputeValid(cfg, dsp.(rounds := dsp.rounds[r := rd]))
  {
    assert RoundValid(dsp.rounds[r]);
    ReplaceRoundValid(cfg, dsp, r, rd, dsp.state);
    assert dsp.(state := dsp.state, rounds := dsp.rounds[r := rd]) == dsp.(rounds := dsp.rounds[r := rd]);
  }

  /** The settlement fields of a round play no part in the dispute's ruling. */
  lemma SettleKeepsRuling(cfg: Config, dsp: Dispute, d: nat, r: nat, rd: Round, term: nat, votes: map<nat, Voting.Vote>)
    requires |dsp.rounds| > 0 && r < |dsp.rounds|
    requires rd == dsp.rounds[r].(settledJurors := rd.settledJurors, collectedTokens := rd.collectedTokens,
                                  coherentJurors := rd.coherentJurors, settledPenalties := rd.settledPenalties)
    ensures DisputeRuling(cfg, dsp.(rounds := dsp.rounds[r := rd]), d, term, votes) == DisputeRuling(cfg, dsp, d, term, votes)
  {
    var after := dsp.(rounds := dsp.rounds[r := rd]);
    assert ClockOf(LastRound(after)) == ClockOf(LastRound(dsp));
    assert LastRound(after).appeal == LastRound(dsp).appeal;
  }

  /** The closing step keeps the dispute valid and its ruling unchanged, and
      marks the round settled exactly when no juror is left to settle. */
  lemma ClosingKeepsValid(cfg: Config, dsp: Dispute, d: nat, r: nat, s: Settlement.Stake, treasury: map<Address, nat>,
                          rd: Round, term: nat, votes: map<nat, Voting.Vote>)
    requires DisputeValid(cfg, dsp) && r < |dsp.rounds| && Drafted(dsp.rounds[r])
    requires rd == dsp.rounds[r].(settledJurors := rd.settledJurors, collectedTokens := rd.collectedTokens,
                                  coherentJurors := rd.coherentJurors)
    requires rd.settledJurors <= |rd.jurors| && !rd.settledPenalties
    ensures var after := Closing(s, treasury, dsp, r, rd).2;
            && DisputeValid(cfg, after)
            && after == dsp.(rounds := after.rounds)
            && |after.rounds| == |dsp.rounds|
            && DisputeRuling(cfg, after, d, term, votes) == DisputeRuling(cfg, dsp, d, term, votes)
            && (after.rounds[r].settledPenalties <==> rd.settledJurors == |rd.jurors|)
  {
    if rd.settledJurors < |rd.jurors| {
      SettleKeepsValid(cfg, dsp, r, rd);
      SettleKeepsRuling(cfg, dsp, d, r, rd, term, votes);
    } else {
      SettleKeepsValid(cfg, dsp, r, rd.(settledPenalties := true));
      SettleKeepsRuling(cfg, dsp, d, r, rd.(settledPenalties := true), term, votes);
    }
  }

  /** Closing a round keeps every dispute of the court valid. */
  lemma ClosingKeepsAllValid(cfg: Config, ds: seq<Dispute>, d: nat, r: nat, s: Settlement.Stake,
                             treasury: map<Address, nat>, rd: Round, term: nat, votes: map<nat, Voting.Vote>)
    requires AllValid(cfg, ds) && d < |ds| && r < |ds[d].rounds| && Drafted(ds[d].rounds[r])
    requires rd == ds[d].rounds[r].(settledJurors := rd.settledJurors, collectedTokens := rd.collectedTokens,
                                    coherentJurors := rd.coherentJurors)
    requires rd.settledJurors <= |rd.jurors| && !rd.settledPenalties
    ensures var after := Closing(s, treasury, ds[d], r, rd).2;
            && AllValid(cfg, ds[d := after])
            && |after.rounds| == |ds[d].rounds|
            && DisputeRuling(cfg, after, d, term, votes) == DisputeRuling(cfg, ds[d], d, term, votes)
            && (after.rounds[r].settledPenalties <==> rd.settledJurors == |rd.jurors|)
  {
    ValidAt(cfg, ds, d);
    ClosingKeepsValid(cfg, ds[d], d, r, s, treasury, rd, term, votes);
    UpdateValid(cfg, ds, d, Closing(s, treasury, ds[d], r, rd).2);
  }

  /** The dispute once `juror` was rewarded for round `r`. */
  function Rewarded(dsp: Dispute, r: nat, juror: Address): Dispute
    requires r < |dsp.rounds|
  {
    dsp.(rounds := dsp.rounds[r := dsp.rounds[r].(rewarded := dsp.rounds[r].rewarded + {juror})])
  }

  /** Marking a juror with weight in a round rewarded keeps the dispute valid. */
  lemma RewardKeepsValid(cfg: Config, dsp: Dispute, r: nat, juror: Address)
    requires DisputeValid(cfg, dsp) && r < |dsp.rounds| && Get(dsp.rounds[r].weight, juror) > 0
    ensures DisputeValid(cfg, Rewarded(dsp, r, juror))
  {
    var rd := dsp.rounds[r].(rewarded := dsp.rounds[r].rewarded + {juror});
    assert RoundValid(dsp.rounds[r]);
    ReplaceRoundValid(cfg, dsp, r, rd, dsp.state);
    assert dsp.(state := dsp.state, rounds := dsp.rounds[r := rd]) == Rewarded(dsp, r, juror);
  }

  /** Rewarding a juror leaves the dispute's ruling alone. */
  lemma RewardKeepsRuling(cfg: Config, dsp: Dispute, d: nat, r: nat, juror: Address, term: nat, votes: map<nat, Voting.Vote>)
    requires |dsp.rounds| > 0 && r < |dsp.rounds|
    ensures DisputeRuling(cfg, Rewarded(dsp, r, juror), d, term, votes) == DisputeRuling(cfg, dsp, d, term, votes)
  {
    var after := Rewarded(dsp, r, juror);
    assert ClockOf(LastRound(after)) == ClockOf(LastRound(dsp));
    assert LastRound(after).appeal == LastRound(dsp).appeal;
  }

  lemma RewardKeepsAllValid(cfg: Config, ds: seq<Dispute>, d: nat, r: nat, juror: Address, term: nat,
                            votes: map<nat, Voting.Vote>)
    requires AllValid(cfg, ds) && d < |ds| && r < |ds[d].rounds| && Get(ds[d].rounds[r].weight, juror) > 0
    ensures AllValid(cfg, ds[d := Rewarded(ds[d], r, juror)])
    ensures DisputeRuling(cfg, Rewarded(ds[d], r, juror), d, term, votes) == DisputeRuling(cfg, ds[d], d, term, votes)
  {
    ValidAt(cfg, ds, d);
    RewardKeepsValid(cfg, ds[d], r, juror);
    RewardKeepsRuling(cfg, ds[d], d, r, juror, term, votes);
    UpdateValid(cfg, ds, d, Rewarded(ds[d], r, juror));
  }

  lemma AppealKeepsAllValid(cfg: Config, ds: seq<Dispute>, d: nat, maker: Address, ruling: nat)
    requires AllValid(cfg, ds) && d < |ds| && Drafted(LastRound(ds[d]))
    ensures AllValid(cfg, ds[d := AppealedDispute(ds[d], maker, ruling)])
  {
    ValidAt(cfg, ds, d);
    AppealKeepsValid(cfg, ds[d], maker, ruling);
    UpdateValid(cfg, ds, d, AppealedDispute(ds[d], maker, ruling));
  }

  lemma ConfirmKeepsAllValid(cfg: Config, ds: seq<Dispute>, d: nat, taker: Address, ruling: nat, finalJurorsNumber: nat)
    requires AllValid(cfg, ds) && d < |ds|
    requires Drafted(LastRound(ds[d])) && !LastRound(ds[d]).final && LastRound(ds[d]).appeal.Some?
    ensures AllValid(cfg, ds[d := ConfirmedDispute(cfg, ds[d], taker, ruling, finalJurorsNumber)])
  {
    ValidAt(cfg, ds, d);
    ConfirmKeepsValid(cfg, ds[d], taker, ruling, finalJurorsNumber);
    UpdateValid(cfg, ds, d, ConfirmedDispute(cfg, ds[d], taker, ruling, finalJurorsNumber));
  }

  lemma ExecuteKeepsAllValid(cfg: Config, ds: seq<Dispute>, d: nat, term: nat, ruling: nat)
    requires AllValid(cfg, ds) && d < |ds| && RoundState(cfg, LastRound(ds[d]), term) == Ended
    ensures AllValid(cfg, ds[d := ExecutedDispute(ds[d], ruling)])
  {
    ValidAt(cfg, ds, d);
    ExecuteKeepsValid(cfg, ds[d], term, ruling);
    UpdateValid(cfg, ds, d, ExecutedDispute(ds[d], ruling));
  }

  /** Round `rd` after `juror`, who had no weight in it, committed to its
      vote with weight `w` and `lock` of their active stake collected. */
  function Joined(rd: Round, juror: Address, w: nat, lock: nat): Round
  {
    rd.(jurors := rd.jurors + [juror], weight := rd.weight[juror := w], roundLock := rd.roundLock[juror := lock])
  }

  /** The dispute once `juror` joined its final round `r`. */
  function JoinedDispute(dsp: Dispute, r: nat, juror: Address, w: nat, lock: nat): Dispute
    requires r < |dsp.rounds|
  {
    dsp.(rounds := dsp.rounds[r := Joined(dsp.rounds[r], juror, w, lock)])
  }

  /** A new voter with positive weight keeps a final round valid. */
  lemma JoinKeepsValid(cfg: Config, dsp: Dispute, r: nat, juror: Address, w: nat, lock: nat)
    requires DisputeValid(cfg, dsp) && r < |dsp.rounds| && dsp.rounds[r].final
    requires Get(dsp.rounds[r].weight, juror) == 0 && w > 0
    ensures DisputeValid(cfg, JoinedDispute(dsp, r, juror, w, lock))
  {
    var old_rd := dsp.rounds[r];
    assert RoundValid(old_rd);
    var rd := Joined(old_rd, juror, w, lock);
    assert juror !in old_rd.jurors;
    assert Distinct(rd.jurors) by {
      forall a, b | 0 <= a < b < |rd.jurors| ensures rd.jurors[a] != rd.jurors[b] {
        if b == |old_rd.jurors| {
          assert rd.jurors[a] == old_rd.jurors[a];
        }
      }
    }
    assert RoundValid(rd);
    ReplaceRoundValid(cfg, dsp, r, rd, dsp.state);
    assert dsp.(state := dsp.state, rounds := dsp.rounds[r := rd]) == JoinedDispute(dsp, r, juror, w, lock);
  }

  lemma JoinKeepsAllValid(cfg: Config, ds: seq<Dispute>, d: nat, r: nat, juror: Address, w: nat, lock: nat)
    requires AllValid(cfg, ds) && d < |ds| && r < |ds[d].rounds| && ds[d].rounds[r].final
    requires Get(ds[d].rounds[r].weight, juror) == 0 && w > 0
    ensures AllValid(cfg, ds[d := JoinedDispute(ds[d], r, juror, w, lock)])
  {
    ValidAt(cfg, ds, d);
    JoinKeepsValid(cfg, ds[d], r, juror, w, lock);
    UpdateValid(cfg, ds, d, JoinedDispute(ds[d], r, juror, w, lock));
  }

  /** Settling penalties needs the final ruling, so the last round has ended,
      and settlement leaves every round's schedule alone. */
  lemma ClosingKeepsSettledAfterEnd(cfg: Config, ds: seq<Dispute>, d: nat, r: nat, s: Settlement.Stake,
                                    treasury: map<Address, nat>, rd: Round, term: nat)
    requires AllSettledAfterEnd(cfg, ds, term) && d < |ds| && r < |ds[d].rounds| && LastEnded(cfg, ds[d], term)
    requires rd == ds[d].rounds[r].(settledJurors := rd.settledJurors, collectedTokens := rd.collectedTokens,
                                    coherentJurors := rd.coherentJurors)
    ensures AllSettledAfterEnd(cfg, ds[d := Closing(s, treasury, ds[d], r, rd).2], term)
  {
    var after := Closing(s, treasury, ds[d], r, rd).2;
    assert ClockOf(LastRound(after)) == ClockOf(LastRound(ds[d]));
    EndedKept(cfg, ds[d], after, term);
    UpdateSettledAfterEnd(cfg, ds, d, after, term);
  }

  lemma RewardKeepsSettledAfterEnd(cfg: Config, ds: seq<Dispute>, d: nat, r: nat, juror: Address, term: nat)
    requires AllSettledAfterEnd(cfg, ds, term) && d < |ds| && r < |ds[d].rounds| && LastEnded(cfg, ds[d], term)
    ensures AllSettledAfterEnd(cfg, ds[d := Rewarded(ds[d], r, juror)], term)
  {
    var after := Rewarded(ds[d], r, juror);
    assert ClockOf(LastRound(after)) == ClockOf(LastRound(ds[d]));
    EndedKept(cfg, ds[d], after, term);
    UpdateSettledAfterEnd(cfg, ds, d, after, term);
  }

  /** A juror joining a round changes neither its schedule nor what is settled. */
  lemma JoinKeepsSettledAfterEnd(cfg: Config, ds: seq<Dispute>, d: nat, r: nat, juror: Address, w: nat, lock: nat,
                                 term: nat)
    requires AllSettledAfterEnd(cfg, ds, term) && d < |ds| && r < |ds[d].rounds|
    ensures AllSettledAfterEnd(cfg, ds[d := JoinedDispute(ds[d], r, juror, w, lock)], term)
  {
    var dsp := ds[d];
    var after := JoinedDispute(dsp, r, juror, w, lock);
    assert SettledAfterEnd(cfg, dsp, term);
    assert ClockOf(LastRound(after)) == ClockOf(LastRound(dsp));
    if LastEnded(cfg, dsp, term) {
      EndedKept(cfg, dsp, after, term);
    } else {
      UnendedUnsettled(cfg, dsp, term);
      forall k | 0 <= k < |after.rounds|
        ensures !after.rounds[k].settledPenalties
      {
        assert !dsp.rounds[k].settledPenalties;
      }
    }
    UpdateSettledAfterEnd(cfg, ds, d, after, term);
  }

  class Court {
    const clock: Clock.CourtClock
    const config: Config
    var maxJurorsPerDraftBatch: nat
    var disputes: seq<Dispute>
    /** Fee-token balances and the allowances holders granted the court. */
    var tokens: map<Address, nat>
    var allowance: map<Address, nat>
    /** Fee balances the treasury holds on behalf of each account. */
    var treasury: map<Address, nat>
    /** The juror registry's balances. */
    var stake: Settlement.Stake
    /** Last term at which each juror cannot withdraw. */
    var withdrawalsLock: map<Address, nat>
    /** CourtRuling notifications sent to subjects, as (dispute id, ruling). */
    ghost var rulings: seq<(nat, nat)>

    ghost predicate Valid()
      reads this, clock
    {
      && clock.Valid()
      && maxJurorsPerDraftBatch > 0
      && config.maxRegularAppealRounds > 0
      && config.firstRoundJurorsNumber > 0
      && AllValid(config, disputes)
      && AllSettledAfterEnd(config, disputes, Term())
    }

    ghost function State(): (nat, seq<Dispute>, map<Address, nat>, map<Address, nat>, map<Address, nat>,
                             Settlement.Stake, map<Address, nat>, seq<(nat, nat)>)
      reads this
    {
      (maxJurorsPerDraftBatch, disputes, tokens, allowance, treasury, stake, withdrawalsLock, rulings)
    }

    function Term(): nat
      reads clock
    {
      clock.lastEnsuredTerm
    }

    constructor (clock: Clock.CourtClock, config: Config, maxJurorsPerDraftBatch: nat,
                 tokens: map<Address, nat>, allowance: map<Address, nat>, stake: Settlement.Stake)
      requires clock.Valid() && maxJurorsPerDraftBatch > 0 && config.maxRegularAppealRounds > 0
      requires config.firstRoundJurorsNumber > 0
      ensures Valid()
      ensures this.clock == clock && this.config == config && this.maxJurorsPerDraftBatch == maxJurorsPerDraftBatch
      ensures this.tokens == tokens && this.allowance == allowance && this.stake == stake
      ensures disputes == [] && treasury == map[] && withdrawalsLock == map[] && rulings == []
    {
      this.clock := clock;
      this.config := config;
      this.maxJurorsPerDraftBatch := maxJurorsPerDraftBatch;
      this.tokens := tokens;
      this.allowance := allowance;
      this.stake := stake;
      disputes := [];
      treasury := map[];
      withdrawalsLock := map[];
      rulings := [];
    }

    // ---- Reading -----------------------------------------------------------

    method GetDispute(d: nat) returns (res: Result<Dispute>)
      ensures d < |disputes| <==> res.Ok?
      ensures res.Ok? ==> res.value == disputes[d]
      ensures res.Err? ==> res.error == DisputeDoesNotExist
    {
      if d >= |disputes| {
        return Err(DisputeDoesNotExist);
      }
      res := Ok(disputes[d]);
    }

    /** A round with its adjudication state at the last ensured term. */
    method GetRound(d: nat, r: nat) returns (res: Result<(Round, AdjudicationState)>)
      ensures d >= |disputes| ==> res == Err(DisputeDoesNotExist)
      ensures d < |disputes| ==> (r < |disputes[d].rounds| <==> res.Ok?)
      ensures d < |disputes| && r >= |disputes[d].rounds| ==> res == Err(RoundDoesNotExist)
      ensures res.Ok? ==> res.value == (disputes[d].rounds[r], RoundState(config, disputes[d].rounds[r], Term()))
    {
      if d >= |disputes| {
        return Err(DisputeDoesNotExist);
      }
      if r >= |disputes[d].rounds| {
        return Err(RoundDoesNotExist);
      }
      var round := disputes[d].rounds[r];
      res := Ok((round, RoundState(config, round, clock.lastEnsuredTerm)));
    }

    /** A juror's weight in a round and whether they were rewarded for it; a
        juror who was never drafted has weight 0. */
    method GetJuror(d: nat, r: nat, juror: Address) returns (res: Result<(nat, bool)>)
      requires Valid()
      ensures d >= |disputes| ==> res == Err(DisputeDoesNotExist)
      ensures d < |disputes| && r >= |disputes[d].rounds| ==> res == Err(RoundDoesNotExist)
      ensures d < |disputes| && r < |disputes[d].rounds| ==>
                res.Ok? &&
                res.value.0 == Get(disputes[d].rounds[r].weight, juror) &&
                (res.value.1 <==> juror in disputes[d].rounds[r].rewarded) &&
                (res.value.1 ==> res.value.0 > 0)
    {
      if d >= |disputes| {
        return Err(DisputeDoesNotExist);
      }
      if r >= |disputes[d].rounds| {
        return Err(RoundDoesNotExist);
      }
      var round := disputes[d].rounds[r];
      ValidAt(config, disputes, d);
      res := Ok((Get(round.weight, juror), juror in round.rewarded));
    }

    // ---- Configuration -----------------------------------------------------

    method SetMaxJurorsPerDraftBatch(sender: Address, n: nat) returns (res: Result<()>)
      requires Valid()
      modifies this
      ensures Valid()
      ensures sender != config.governor ==> res == Err(SenderNotConfigGovernor)
      ensures sender == config.governor ==> (n == 0 <==> res == Err(BadMaxDraftBatchSize))
      ensures sender == config.governor && n > 0 ==> res == Ok(())
      ensures res.Err? ==> State() == old(State())
      ensures res.Ok? ==> State() == old(State()).(0 := n)
    {
      if sender != config.governor {
        return Err(SenderNotConfigGovernor);
      }
      if n == 0 {
        return Err(BadMaxDraftBatchSize);
      }
      maxJurorsPerDraftBatch := n;
      res := Ok(());
    }

    // ---- Disputes ----------------------------------------------------------

    /** Opens a dispute about `subject` with its first round, drafted
        `evidenceTerms` after the current term, and takes the dispute fees
        from `sender`. `subscriptionUpToDate` is the subscriptions' answer;
        `now` is the term the clock's time says it is and `block` the current
        block number. */
    method CreateDispute(sender: Address, subject: Address, possibleRulings: nat, subscriptionUpToDate: bool,
                         now: nat, block: nat) returns (res: Result<nat>)
      requires Valid()
      modifies this, clock
      ensures Valid()
      ensures !(MIN_RULING_OPTIONS <= possibleRulings <= MAX_RULING_OPTIONS) ==> res == Err(InvalidRulingOptions)
      ensures MIN_RULING_OPTIONS <= possibleRulings <= MAX_RULING_OPTIONS && !subscriptionUpToDate ==>
                res == Err(SubscriptionNotPaid)
      ensures MIN_RULING_OPTIONS <= possibleRulings <= MAX_RULING_OPTIONS && subscriptionUpToDate ==>
                (Clock.NeededTransitions(old(clock.lastEnsuredTerm), now) > Clock.MAX_AUTO_TERM_TRANSITIONS
                 <==> res == Err(TooManyTransitions))
      ensures MIN_RULING_OPTIONS <= possibleRulings <= MAX_RULING_OPTIONS && subscriptionUpToDate &&
              Clock.NeededTransitions(old(clock.lastEnsuredTerm), now) <= Clock.MAX_AUTO_TERM_TRANSITIONS ==>
                (Get(old(tokens), sender) < DisputeFees(config) || Get(old(allowance), sender) < DisputeFees(config)
                 <==> res == Err(DepositFailed))
      ensures MIN_RULING_OPTIONS <= possibleRulings <= MAX_RULING_OPTIONS && subscriptionUpToDate &&
              Clock.NeededTransitions(old(clock.lastEnsuredTerm), now) <= Clock.MAX_AUTO_TERM_TRANSITIONS &&
              Get(old(tokens), sender) >= DisputeFees(config) && Get(old(allowance), sender) >= DisputeFees(config) ==>
                res == Ok(|old(disputes)|)
      ensures res.Err? ==> State() == old(State()) && clock.lastEnsuredTerm == old(clock.lastEnsuredTerm)
                           && clock.randomnessBlock == old(clock.randomnessBlock)
      ensures res.Ok? ==>
                res.value == |old(disputes)| &&
                clock.lastEnsuredTerm == old(clock.lastEnsuredTerm) + Clock.NeededTransitions(old(clock.lastEnsuredTerm), now) &&
                (forall t :: t in old(clock.randomnessBlock) ==>
                   t in clock.randomnessBlock && clock.randomnessBlock[t] == old(clock.randomnessBlock)[t]) &&
                (forall t :: old(clock.lastEnsuredTerm) < t <= clock.lastEnsuredTerm ==>
                   t in clock.randomnessBlock && clock.randomnessBlock[t] == block + 1) &&
                disputes == old(disputes) + [NewDispute(config, subject, possibleRulings, clock.lastEnsuredTerm, sender)] &&
                Get(old(tokens), sender) >= DisputeFees(config) && Get(old(allowance), sender) >= DisputeFees(config) &&
                tokens == Credit(Debit(old(tokens), sender, DisputeFees(config)), config.treasury, DisputeFees(config)) &&
                allowance == Debit(old(allowance), sender, DisputeFees(config)) &&
                maxJurorsPerDraftBatch == old(maxJurorsPerDraftBatch) && treasury == old(treasury) &&
                stake == old(stake) && withdrawalsLock == old(withdrawalsLock) && rulings == old(rulings)
    {
      if !(MIN_RULING_OPTIONS <= possibleRulings <= MAX_RULING_OPTIONS) {
        return Err(InvalidRulingOptions);
      }
      if !subscriptionUpToDate {
        return Err(SubscriptionNotPaid);
      }
      if Clock.NeededTransitions(clock.lastEnsuredTerm, now) > Clock.MAX_AUTO_TERM_TRANSITIONS {
        return Err(TooManyTransitions);
      }
      var fees := DisputeFees(config);
      if Get(tokens, sender) < fees || Get(allowance, sender) < fees {
        return Err(DepositFailed);
      }
      ghost var before := clock.lastEnsuredTerm;
      var ensured := clock.EnsureCurrentTerm(now, block);
      SettledAfterEndLater(config, disputes, before, clock.lastEnsuredTerm);
      var id := ApplyCreate(sender, subject, possibleRulings);
      res := Ok(id);
    }

    /** Appends the new dispute, opened at the current term, and moves the
        dispute fees from `sender` to the treasury. */
    method ApplyCreate(sender: Address, subject: Address, possibleRulings: nat) returns (id: nat)
      requires Valid()
      requires Get(tokens, sender) >= DisputeFees(config) && Get(allowance, sender) >= DisputeFees(config)
      modifies this
      ensures Valid()
      ensures id == |old(disputes)|
      ensures disputes == old(disputes) + [NewDispute(config, subject, possibleRulings, clock.lastEnsuredTerm, sender)]
      ensures tokens == Credit(Debit(old(tokens), sender, DisputeFees(config)), config.treasury, DisputeFees(config))
      ensures allowance == Debit(old(allowance), sender, DisputeFees(config))
      ensures maxJurorsPerDraftBatch == old(maxJurorsPerDraftBatch) && treasury == old(treasury) &&
              stake == old(stake) && withdrawalsLock == old(withdrawalsLock) && rulings == old(rulings)
    {
      var fees := DisputeFees(config);
      var dsp := NewDispute(config, subject, possibleRulings, clock.lastEnsuredTerm, sender);
      NewDisputeValid(config, subject, possibleRulings, clock.lastEnsuredTerm, sender);
      AppendValid(config, disputes, dsp);
      NewDisputeSettledAfterEnd(config, subject, possibleRulings, clock.lastEnsuredTerm, sender);
      AppendSettledAfterEnd(config, disputes, dsp, clock.lastEnsuredTerm);
      id := |disputes|;
      disputes := disputes + [dsp];
      tokens := Credit(Debit(tokens, sender, fees), config.treasury, fees);
      allowance := Debit(allowance, sender, fees);
    }

    // ---- Draft -------------------------------------------------------------

    /** Picks `count` draft slots one after the other, each for an active
        juror whose active stake covers the stake already locked for them,
        including the slots picked before, plus one more draft lock. Which
        eligible juror the sortition picks depends on the term's randomness
        and is left open; when nobody is eligible the draft fails. */
    method Sortition(count: nat) returns (res: Result<seq<Address>>)
      ensures res.Err? ==> res.error == NoEligibleJuror
      ensures (exists j :: j in stake.active && Get(stake.locked, j) + SlotsLock(count, config.draftLock) <= Get(stake.active, j)) ==>
                res.Ok?
      ensures res.Ok? ==>
                |res.value| == count &&
                forall j :: j in res.value ==>
                  j in stake.active && Get(LockSlots(stake.locked, res.value, config.draftLock), j) <= Get(stake.active, j)
    {
      var drafted: seq<Address> := [];
      var locked := stake.locked;
      while |drafted| < count
        invariant |drafted| <= count
        invariant locked == LockSlots(stake.locked, drafted, config.draftLock)
        invariant forall j :: j in drafted ==> j in stake.active && Get(locked, j) <= Get(stake.active, j)
        invariant forall k :: Get(locked, k) <= Get(stake.locked, k) + SlotsLock(|drafted|, config.draftLock)
      {
        var pool := set j | j in stake.active && Get(locked, j) + config.draftLock <= Get(stake.active, j);
        SlotsLockStep(|drafted|, config.draftLock);
        Settlement.MulLe(|drafted| + 1, count, config.draftLock);
        if pool == {} {
          // A juror who could take all `count` slots could still take this one.
          forall j | j in stake.active
            ensures Get(stake.locked, j) + SlotsLock(count, config.draftLock) > Get(stake.active, j)
          {
            assert j !in pool;
          }
          return Err(NoEligibleJuror);
        }
        var j :| j in pool;
        assert (drafted + [j])[..|drafted|] == drafted;
        drafted := drafted + [j];
        locked := Credit(locked, j, config.draftLock);
      }
      res := Ok(drafted);
    }

    /** The guards of a draft, in the order they revert: the dispute must
        exist, the clock must be up to date, the dispute must still be waiting
        for its last round's panel, the draft term must have started and its
        randomness must be available. */
    function DraftCheck(d: nat, now: nat, block: nat): (res: Result<()>)
      requires Valid()
      reads this, clock
      ensures d >= |disputes| ==> res == Err(DisputeDoesNotExist)
      ensures d < |disputes| && Clock.NeededTransitions(Term(), now) > 0 ==> res == Err(TermOutdated)
      ensures d < |disputes| && Clock.NeededTransitions(Term(), now) == 0 && disputes[d].state != PreDraft ==>
                res == Err(RoundAlreadyDrafted)
      ensures d < |disputes| && Clock.NeededTransitions(Term(), now) == 0 && disputes[d].state == PreDraft ==>
                (LastRound(disputes[d]).draftTerm > Term() <==> res == Err(TermDoesNotExist)) &&
                (LastRound(disputes[d]).draftTerm <= Term() ==>
                   var rand := Clock.RandomnessAt(clock.randomnessBlock[LastRound(disputes[d]).draftTerm], block);
                   (rand == Clock.NotYet <==> res == Err(RandomnessNotYet)) &&
                   (rand == Clock.Expired <==> res == Err(RandomnessUnavailable)) &&
                   (rand == Clock.Available <==> res.Ok?))
    {
      if d >= |disputes| then Err(DisputeDoesNotExist)
      else if Clock.NeededTransitions(clock.lastEnsuredTerm, now) > 0 then Err(TermOutdated)
      else if disputes[d].state != PreDraft then Err(RoundAlreadyDrafted)
      else if LastRound(disputes[d]).draftTerm > clock.lastEnsuredTerm then Err(TermDoesNotExist)
      else
        match Clock.RandomnessAt(clock.randomnessBlock[LastRound(disputes[d]).draftTerm], block)
        case NotYet => Err(RandomnessNotYet)
        case Expired => Err(RandomnessUnavailable)
        case Available => Ok(())
    }

    /** Drafts the next batch of the last round of dispute `d` at the current
        term: at most `maxJurorsPerDraftBatch` slots, chosen by the sortition.
        The draft fee of every drafted slot is credited to `drafter` in the
        treasury. */
    method Draft(d: nat, drafter: Address, now: nat, block: nat) returns (res: Result<seq<Address>>)
      requires Valid()
      modifies this
      ensures Valid()
      ensures old(DraftCheck(d, now, block)).Err? ==> res == Err(old(DraftCheck(d, now, block)).error)
      ensures old(DraftCheck(d, now, block)).Ok? ==> res.Ok? || res == Err(NoEligibleJuror)
      ensures old(DraftCheck(d, now, block)).Ok? ==>
                var r0 := LastRound(old(disputes)[d]);
                r0.selectedJurors <= r0.jurorsNumber &&
                ((exists j :: j in old(stake).active &&
                    Get(old(stake).locked, j) + SlotsLock(Min(old(maxJurorsPerDraftBatch), r0.jurorsNumber - r0.selectedJurors),
                                                          config.draftLock) <= Get(old(stake).active, j)) ==>
                   res.Ok?)
      ensures res.Err? ==> State() == old(State())
      ensures res.Ok? ==>
                d < |old(disputes)| && old(disputes)[d].state == PreDraft &&
                var r0 := LastRound(old(disputes)[d]);
                r0.selectedJurors <= r0.jurorsNumber &&
                |res.value| == Min(old(maxJurorsPerDraftBatch), r0.jurorsNumber - r0.selectedJurors) &&
                (forall j :: j in res.value ==> j in stake.active && Get(stake.locked, j) <= Get(stake.active, j)) &&
                disputes == old(disputes)[d := DraftedDispute(old(disputes)[d], res.value, config.draftLock, Term())] &&
                stake == old(stake).(locked := LockSlots(old(stake).locked, res.value, config.draftLock)) &&
                treasury == Credit(old(treasury), drafter, DraftFees(config, |res.value|)) &&
                maxJurorsPerDraftBatch == old(maxJurorsPerDraftBatch) && tokens == old(tokens) &&
                allowance == old(allowance) && withdrawalsLock == old(withdrawalsLock) && rulings == old(rulings)
    {
      var check := DraftCheck(d, now, block);
      if check.Err? {
        return Err(check.error);
      }
      var round := LastRound(disputes[d]);
      OpenRound(config, disputes[d]);
      var count := Min(maxJurorsPerDraftBatch, round.jurorsNumber - round.selectedJurors);
      var sortition := Sortition(count);
      if sortition.Err? {
        return Err(sortition.error);
      }
      ApplyDraft(d, drafter, sortition.value);
      res := Ok(sortition.value);
    }

    /** Records the slots `drafted` in the last round of dispute `d`, locks
        their stake and pays their draft fees to `drafter`. */
    method ApplyDraft(d: nat, drafter: Address, drafted: seq<Address>)
      requires Valid() && d < |disputes| && disputes[d].state == PreDraft
      requires LastRound(disputes[d]).selectedJurors + |drafted| <= LastRound(disputes[d]).jurorsNumber
      modifies this
      ensures Valid()
      ensures disputes == old(disputes)[d := DraftedDispute(old(disputes)[d], drafted, config.draftLock, Term())]
      ensures stake == old(stake).(locked := LockSlots(old(stake).locked, drafted, config.draftLock))
      ensures treasury == Credit(old(treasury), drafter, DraftFees(config, |drafted|))
      ensures maxJurorsPerDraftBatch == old(maxJurorsPerDraftBatch) && tokens == old(tokens) &&
              allowance == old(allowance) && withdrawalsLock == old(withdrawalsLock) && rulings == old(rulings)
    {
      DraftKeepsAllValid(config, disputes, d, drafted, config.draftLock, clock.lastEnsuredTerm);
      DraftKeepsSettledAfterEnd(config, disputes, d, drafted, config.draftLock, clock.lastEnsuredTerm);
      disputes := disputes[d := DraftedDispute(disputes[d], drafted, config.draftLock, clock.lastEnsuredTerm)];
      stake := stake.(locked := LockSlots(stake.locked, drafted, config.draftLock));
      treasury := Credit(treasury, drafter, DraftFees(config, |drafted|));
    }

    // ---- Settlement --------------------------------------------------------

    /** The guards of settlePenalties, in the order they revert: the dispute
        and the round must exist, the dispute must have a final ruling at the
        current term, and the round must not be settled yet. Yields the final
        ruling the jurors are settled against. */
    function SettleCheck(d: nat, r: nat, votes: map<nat, Voting.Vote>): (res: Result<nat>)
      requires Valid()
      reads this, clock
      ensures d >= |disputes| ==> res == Err(DisputeDoesNotExist)
      ensures d < |disputes| && r >= |disputes[d].rounds| ==> res == Err(RoundDoesNotExist)
      ensures d < |disputes| && r < |disputes[d].rounds| ==>
                var ruling := DisputeRuling(config, disputes[d], d, Term(), votes);
                (ruling.Err? ==> res == Err(InvalidAdjudicationState)) &&
                (ruling.Ok? ==> (disputes[d].rounds[r].settledPenalties <==> res == Err(RoundAlreadySettled)) &&
                                (res.Ok? ==> res == ruling))
      ensures res.Ok? ==>
                d < |disputes| && r < |disputes[d].rounds| && DisputeValid(config, disputes[d]) &&
                Drafted(disputes[d].rounds[r]) && !disputes[d].rounds[r].settledPenalties &&
                disputes[d].rounds[r].settledJurors <= |disputes[d].rounds[r].jurors| &&
                LastEnded(config, disputes[d], Term())
      ensures d < |disputes| && r < |disputes[d].rounds| && !LastEnded(config, disputes[d], Term()) ==>
                res == Err(InvalidAdjudicationState)
    {
      if d >= |disputes| then Err(DisputeDoesNotExist)
      else if r >= |disputes[d].rounds| then Err(RoundDoesNotExist)
      else
        ValidAt(config, disputes, d);
        assert SettledAfterEnd(config, disputes[d], Term());
        var ruling := DisputeRuling(config, disputes[d], d, clock.lastEnsuredTerm, votes);
        if ruling.Err? then Err(InvalidAdjudicationState)
        else if disputes[d].rounds[r].settledPenalties then Err(RoundAlreadySettled)
        else
          RuledRoundDrafted(config, disputes[d], d, r, clock.lastEnsuredTerm, votes);
          assert RoundValid(disputes[d].rounds[r]);
          ruling
    }

    /** settlePenalties: settles the penalties of the next `batch` pending
        jurors of round `r` (all of them when `batch` is 0 or the round is the
        final one) against the dispute's final ruling. Returns whether this call
        settled the round's last juror, that is, whether it emitted
        PenaltiesSettled. */
    method SettlePenalties(d: nat, r: nat, batch: nat, votes: map<nat, Voting.Vote>) returns (res: Result<bool>)
      requires Valid()
      modifies this
      ensures Valid()
      ensures old(SettleCheck(d, r, votes)).Err? ==> res == Err(old(SettleCheck(d, r, votes)).error)
      ensures res.Err? ==> State() == old(State())
      ensures old(SettleCheck(d, r, votes)).Ok? ==>
                var n := SettleCount(old(disputes)[d].rounds[r], batch);
                var out := SettleOutcome(old(stake), old(treasury), old(disputes)[d], r, n, VoteOf(votes, d, r),
                                         old(SettleCheck(d, r, votes)).value);
                (out.Err? ==> res == Err(out.error)) &&
                (out.Ok? ==> res == Ok(n == |old(disputes)[d].rounds[r].jurors| - old(disputes)[d].rounds[r].settledJurors) &&
                             stake == out.value.0 && treasury == out.value.1 && disputes == old(disputes)[d := out.value.2] &&
                             maxJurorsPerDraftBatch == old(maxJurorsPerDraftBatch) && tokens == old(tokens) &&
                             allowance == old(allowance) && withdrawalsLock == old(withdrawalsLock) && rulings == old(rulings))
      ensures res == Ok(true) ==> SettleCheck(d, r, votes) == Err(RoundAlreadySettled)
    {
      var check := SettleCheck(d, r, votes);
      if check.Err? {
        return Err(check.error);
      }
      var round := disputes[d].rounds[r];
      var n := SettleCount(round, batch);
      var t0 := Settlement.Totals(stake, round.collectedTokens, round.coherentJurors);
      var pass := Settlement.PenalizeBatch(t0, Participants(round), VoteOf(votes, d, r), check.value, PendingJurors(round, n));
      if pass.Err? {
        return Err(pass.error);
      }
      var done := ApplySettlement(d, r, n, pass.value, votes);
      res := Ok(done);
    }

    /** Writes back the penalty pass that reached totals `t` after `n` more
        jurors of round `r`, and closes the round when no juror is left. */
    method ApplySettlement(d: nat, r: nat, n: nat, t: Settlement.Totals, ghost votes: map<nat, Voting.Vote>)
      returns (done: bool)
      requires Valid() && d < |disputes| && r < |disputes[d].rounds| && Drafted(disputes[d].rounds[r])
      requires !disputes[d].rounds[r].settledPenalties && LastEnded(config, disputes[d], Term())
      requires disputes[d].rounds[r].settledJurors + n <= |disputes[d].rounds[r].jurors|
      modifies this
      ensures Valid()
      ensures |disputes| == |old(disputes)| && |disputes[d].rounds| == |old(disputes)[d].rounds|
      ensures (stake, treasury, disputes[d]) ==
              Closing(t.stake, old(treasury), old(disputes)[d], r, Advanced(old(disputes)[d].rounds[r], n, t))
      ensures disputes == old(disputes)[d := disputes[d]]
      ensures done <==> old(disputes)[d].rounds[r].settledJurors + n == |old(disputes)[d].rounds[r].jurors|
      ensures done ==> disputes[d].rounds[r].settledPenalties
      ensures DisputeRuling(config, disputes[d], d, Term(), votes) == DisputeRuling(config, old(disputes)[d], d, Term(), votes)
      ensures maxJurorsPerDraftBatch == old(maxJurorsPerDraftBatch) && tokens == old(tokens) &&
              allowance == old(allowance) && withdrawalsLock == old(withdrawalsLock) && rulings == old(rulings)
    {
      var dsp := disputes[d];
      var rd := Advanced(dsp.rounds[r], n, t);
      ClosingKeepsAllValid(config, disputes, d, r, t.stake, treasury, rd, clock.lastEnsuredTerm, votes);
      ClosingKeepsSettledAfterEnd(config, disputes, d, r, t.stake, treasury, rd, clock.lastEnsuredTerm);
      var (s, fees, closed) := Closing(t.stake, treasury, dsp, r, rd);
      disputes := disputes[d := closed];
      stake := s;
      treasury := fees;
      done := rd.settledJurors == |rd.jurors|;
    }

    // ---- Rewards -----------------------------------------------------------

    /** The guards of settleReward, in the order they revert: the dispute and
        the round must exist, the round's penalties must be settled, the juror
        must not be rewarded yet and must have voted in the round, and the
        juror must be coherent with the dispute's final ruling, which exists
        once penalties are settled. Yields that ruling. */
    function RewardCheck(d: nat, r: nat, juror: Address, votes: map<nat, Voting.Vote>): (res: Result<nat>)
      requires Valid()
      reads this, clock
      ensures d >= |disputes| ==> res == Err(DisputeDoesNotExist)
      ensures d < |disputes| && r >= |disputes[d].rounds| ==> res == Err(RoundDoesNotExist)
      ensures d < |disputes| && r < |disputes[d].rounds| ==>
                var rd := disputes[d].rounds[r];
                var ruling := DisputeRuling(config, disputes[d], d, Term(), votes);
                && (!rd.settledPenalties ==> res == Err(RoundPenaltiesNotSettled))
                && (rd.settledPenalties && juror in rd.rewarded ==> res == Err(JurorAlreadyRewarded))
                && (rd.settledPenalties && Get(rd.weight, juror) == 0 ==> res == Err(WontRewardNonVoterJuror))
                && (rd.settledPenalties && juror !in rd.rewarded && Get(rd.weight, juror) > 0 ==>
                      ruling.Ok? &&
                      (res.Ok? <==> rd.coherentJurors > 0 && Settlement.Coherent(VoteOf(votes, d, r), ruling.value, juror)) &&
                      (res.Ok? ==> res == ruling) &&
                      (res.Err? ==> res == Err(WontRewardIncoherentJuror)))
      ensures d < |disputes| && r < |disputes[d].rounds| && !LastEnded(config, disputes[d], Term()) ==>
                res == Err(RoundPenaltiesNotSettled)
      ensures res.Ok? ==>
                d < |disputes| && r < |disputes[d].rounds| && disputes[d].rounds[r].settledPenalties &&
                Get(disputes[d].rounds[r].weight, juror) > 0 && disputes[d].rounds[r].coherentJurors > 0 &&
                LastEnded(config, disputes[d], Term())
    {
      if d >= |disputes| then Err(DisputeDoesNotExist)
      else if r >= |disputes[d].rounds| then Err(RoundDoesNotExist)
      else
        var rd := disputes[d].rounds[r];
        ValidAt(config, disputes, d);
        assert RoundValid(rd);
        assert SettledAfterEnd(config, disputes[d], Term());
        if !rd.settledPenalties then Err(RoundPenaltiesNotSettled)
        else if juror in rd.rewarded then Err(JurorAlreadyRewarded)
        else if Get(rd.weight, juror) == 0 then Err(WontRewardNonVoterJuror)
        else
          RulingIffEnded(config, disputes[d], d, clock.lastEnsuredTerm, votes);
          var ruling := DisputeRuling(config, disputes[d], d, clock.lastEnsuredTerm, votes);
          if rd.coherentJurors == 0 || !Settlement.Coherent(VoteOf(votes, d, r), ruling.value, juror) then
            Err(WontRewardIncoherentJuror)
          else ruling
    }

    /** settleReward: pays a coherent juror their share of round `r`'s
        collected tokens, to their available stake, and of its juror fees, in
        the treasury, both pro rata to their weight among the coherent jurors
        and rounded down. A coherent juror of the final round cannot withdraw
        until the final round's lock has passed. Returns the two amounts. */
    method SettleReward(d: nat, r: nat, juror: Address, votes: map<nat, Voting.Vote>) returns (res: Result<(nat, nat)>)
      requires Valid()
      modifies this
      ensures Valid()
      ensures old(RewardCheck(d, r, juror, votes)).Err? ==> res == Err(old(RewardCheck(d, r, juror, votes)).error)
      ensures old(RewardCheck(d, r, juror, votes)).Ok? ==> res.Ok?
      ensures res.Err? ==> State() == old(State())
      ensures res.Ok? ==>
                old(RewardCheck(d, r, juror, votes)).Ok? &&
                var rd := old(disputes)[d].rounds[r];
                var w := Get(rd.weight, juror);
                res.value == (Settlement.Reward(rd.collectedTokens, w, rd.coherentJurors),
                              Settlement.Reward(rd.jurorFees, w, rd.coherentJurors)) &&
                stake == old(stake).(available := Credit(old(stake).available, juror, res.value.0)) &&
                treasury == Credit(old(treasury), juror, res.value.1) &&
                disputes == old(disputes)[d := Rewarded(old(disputes)[d], r, juror)] &&
                withdrawalsLock == (if rd.final then old(withdrawalsLock)[juror := FinalRoundLockEnd(config, rd)]
                                    else old(withdrawalsLock)) &&
                maxJurorsPerDraftBatch == old(maxJurorsPerDraftBatch) && tokens == old(tokens) &&
                allowance == old(allowance) && rulings == old(rulings)
      ensures res.Ok? ==> RewardCheck(d, r, juror, votes) == Err(JurorAlreadyRewarded)
    {
      var check := RewardCheck(d, r, juror, votes);
      if check.Err? {
        return Err(check.error);
      }
      var rd := disputes[d].rounds[r];
      var w := Get(rd.weight, juror);
      var tokenReward := Settlement.Reward(rd.collectedTokens, w, rd.coherentJurors);
      var feeReward := Settlement.Reward(rd.jurorFees, w, rd.coherentJurors);
      RewardKeepsAllValid(config, disputes, d, r, juror, clock.lastEnsuredTerm, votes);
      RewardKeepsSettledAfterEnd(config, disputes, d, r, juror, clock.lastEnsuredTerm);
      disputes := disputes[d := Rewarded(disputes[d], r, juror)];
      stake := stake.(available := Credit(stake.available, juror, tokenReward));
      treasury := Credit(treasury, juror, feeReward);
      if rd.final {
        withdrawalsLock := withdrawalsLock[juror := FinalRoundLockEnd(config, rd)];
      }
      res := Ok((tokenReward, feeReward));
    }

    // ---- Appeals -----------------------------------------------------------

    /** The guards of createAppeal, in the order they revert: the dispute and
        the round must exist, the round must be the last one and in its appeal
        window, nobody may have appealed it yet, and the appealed ruling must
        be a valid ruling other than the round's winning outcome. */
    function AppealCheck(d: nat, r: nat, ruling: nat, votes: map<nat, Voting.Vote>): (res: Result<()>)
      requires Valid()
      reads this, clock
      ensures d >= |disputes| ==> res == Err(DisputeDoesNotExist)
      ensures d < |disputes| && r >= |disputes[d].rounds| ==> res == Err(RoundDoesNotExist)
      ensures d < |disputes| && r < |disputes[d].rounds| ==>
                var dsp := disputes[d];
                var open := r + 1 == |dsp.rounds| && RoundState(config, dsp.rounds[r], Term()) == Appealing;
                && (!open ==> res == Err(InvalidAdjudicationState))
                && (open && dsp.rounds[r].appeal.Some? ==> res == Err(AppealAlreadyExists))
                && (open && dsp.rounds[r].appeal.None? ==>
                      (res.Ok? <==> ValidRuling(dsp, ruling) && ruling != Voting.WinningOutcome(VoteOf(votes, d, r))) &&
                      (res.Err? ==> res == Err(InvalidAppealRuling)))
      ensures d < |disputes| && r < |disputes[d].rounds| && disputes[d].state == Executed ==>
                res == Err(InvalidAdjudicationState)
      ensures res.Ok? ==>
                d < |disputes| && r + 1 == |disputes[d].rounds| && Drafted(LastRound(disputes[d])) &&
                !LastRound(disputes[d]).final && LastRound(disputes[d]).appeal.None?
    {
      if d >= |disputes| then Err(DisputeDoesNotExist)
      else if r >= |disputes[d].rounds| then Err(RoundDoesNotExist)
      else
        assert SettledAfterEnd(config, disputes[d], Term());
        if r + 1 != |disputes[d].rounds| || RoundState(config, disputes[d].rounds[r], clock.lastEnsuredTerm) != Appealing then
          Err(InvalidAdjudicationState)
        else if disputes[d].rounds[r].appeal.Some? then Err(AppealAlreadyExists)
        else if !ValidRuling(disputes[d], ruling) || ruling == Voting.WinningOutcome(VoteOf(votes, d, r)) then
          Err(InvalidAppealRuling)
        else Ok(())
    }

    /** createAppeal: `maker` appeals the last round of dispute `d` in favour
        of `ruling` while the round is appealable. */
    method CreateAppeal(d: nat, r: nat, maker: Address, ruling: nat, votes: map<nat, Voting.Vote>) returns (res: Result<()>)
      requires Valid()
      modifies this
      ensures Valid()
      ensures res == old(AppealCheck(d, r, ruling, votes))
      ensures res.Err? ==> State() == old(State())
      ensures res.Ok? ==>
                disputes == old(disputes)[d := AppealedDispute(old(disputes)[d], maker, ruling)] &&
                maxJurorsPerDraftBatch == old(maxJurorsPerDraftBatch) && tokens == old(tokens) && allowance == old(allowance) &&
                treasury == old(treasury) && stake == old(stake) && withdrawalsLock == old(withdrawalsLock) && rulings == old(rulings)
      ensures res.Ok? ==> forall x :: AppealCheck(d, r, x, votes) == Err(AppealAlreadyExists)
    {
      res := AppealCheck(d, r, ruling, votes);
      if res.Err? {
        return;
      }
      AppealKeepsAllValid(config, disputes, d, maker, ruling);
      AppealKeepsSettledAfterEnd(config, disputes, d, maker, ruling, clock.lastEnsuredTerm);
      disputes := disputes[d := AppealedDispute(disputes[d], maker, ruling)];
    }

    /** The guards of confirmAppeal, in the order they revert: the dispute and
        the round must exist, the round must be the last one and waiting for its
        appeal to be confirmed, and the opposed ruling must be a valid ruling
        other than the appealed one. */
    function ConfirmCheck(d: nat, r: nat, ruling: nat): (res: Result<()>)
      requires Valid()
      reads this, clock
      ensures d >= |disputes| ==> res == Err(DisputeDoesNotExist)
      ensures d < |disputes| && r >= |disputes[d].rounds| ==> res == Err(RoundDoesNotExist)
      ensures d < |disputes| && r < |disputes[d].rounds| ==>
                var dsp := disputes[d];
                var open := r + 1 == |dsp.rounds| && RoundState(config, dsp.rounds[r], Term()) == ConfirmingAppeal;
                && (!open ==> res == Err(InvalidAdjudicationState))
                && (open ==> dsp.rounds[r].appeal.Some? &&
                              (res.Ok? <==> ValidRuling(dsp, ruling) && ruling != dsp.rounds[r].appeal.value.appealedRuling) &&
                              (res.Err? ==> res == Err(InvalidAppealRuling)))
      ensures d < |disputes| && r < |disputes[d].rounds| && disputes[d].state == Executed ==>
                res == Err(InvalidAdjudicationState)
      ensures res.Ok? ==>
                d < |disputes| && r + 1 == |disputes[d].rounds| && Drafted(LastRound(disputes[d])) &&
                !LastRound(disputes[d]).final && LastRound(disputes[d]).appeal.Some?
    {
      if d >= |disputes| then Err(DisputeDoesNotExist)
      else if r >= |disputes[d].rounds| then Err(RoundDoesNotExist)
      else
        assert SettledAfterEnd(config, disputes[d], Term());
        if r + 1 != |disputes[d].rounds| || RoundState(config, disputes[d].rounds[r], clock.lastEnsuredTerm) != ConfirmingAppeal then
          Err(InvalidAdjudicationState)
        else if !ValidRuling(disputes[d], ruling) || ruling == disputes[d].rounds[r].appeal.value.appealedRuling then
          Err(InvalidAppealRuling)
        else Ok(())
    }

    /** confirmAppeal: `taker` confirms the appeal of the last round of
        dispute `d` in favour of `ruling`, which opens the next round: three
        times the jurors (made odd) for a regular round, `finalJurorsNumber`
        for the final one. */
    method ConfirmAppeal(d: nat, r: nat, taker: Address, ruling: nat, finalJurorsNumber: nat) returns (res: Result<()>)
      requires Valid()
      modifies this
      ensures Valid()
      ensures res == old(ConfirmCheck(d, r, ruling))
      ensures res.Err? ==> State() == old(State())
      ensures res.Ok? ==>
                disputes == old(disputes)[d := ConfirmedDispute(config, old(disputes)[d], taker, ruling, finalJurorsNumber)] &&
                maxJurorsPerDraftBatch == old(maxJurorsPerDraftBatch) && tokens == old(tokens) && allowance == old(allowance) &&
                treasury == old(treasury) && stake == old(stake) && withdrawalsLock == old(withdrawalsLock) && rulings == old(rulings)
      ensures res.Ok? ==> forall x :: ConfirmCheck(d, r, x) == Err(InvalidAdjudicationState)
    {
      res := ConfirmCheck(d, r, ruling);
      if res.Err? {
        return;
      }
      ConfirmKeepsAllValid(config, disputes, d, taker, ruling, finalJurorsNumber);
      ConfirmKeepsSettledAfterEnd(config, disputes, d, taker, ruling, finalJurorsNumber, clock.lastEnsuredTerm);
      disputes := disputes[d := ConfirmedDispute(config, disputes[d], taker, ruling, finalJurorsNumber)];
    }

    // ---- Execution ---------------------------------------------------------

    /** executeRuling: records the dispute's final ruling once its last round
        has ended and notifies the subject of it, once. */
    method ExecuteRuling(d: nat, votes: map<nat, Voting.Vote>) returns (res: Result<nat>)
      requires Valid()
      modifies this
      ensures Valid()
      ensures d >= |old(disputes)| ==> res == Err(DisputeDoesNotExist)
      ensures d < |old(disputes)| && old(disputes)[d].state == Executed ==> res == Err(InvalidDisputeState)
      ensures d < |old(disputes)| && old(disputes)[d].state != Executed ==>
                (old(DisputeRuling(config, disputes[d], d, Term(), votes)).Err? <==> res == Err(InvalidAdjudicationState))
      ensures d < |old(disputes)| && old(disputes)[d].state != Executed &&
              old(DisputeRuling(config, disputes[d], d, Term(), votes)).Ok? ==>
                res == old(DisputeRuling(config, disputes[d], d, Term(), votes))
      ensures res.Err? ==> State() == old(State())
      ensures res.Ok? ==>
                d < |old(disputes)| && old(disputes)[d].state != Executed &&
                Ok(res.value) == old(DisputeRuling(config, disputes[d], d, Term(), votes)) &&
                disputes == old(disputes)[d := ExecutedDispute(old(disputes)[d], res.value)] &&
                rulings == old(rulings) + [(d, res.value)] &&
                maxJurorsPerDraftBatch == old(maxJurorsPerDraftBatch) && tokens == old(tokens) && allowance == old(allowance) &&
                treasury == old(treasury) && stake == old(stake) && withdrawalsLock == old(withdrawalsLock)
      ensures res.Ok? ==> forall term, vs :: DisputeRuling(config, disputes[d], d, term, vs) == res
    {
      if d >= |disputes| {
        return Err(DisputeDoesNotExist);
      }
      if disputes[d].state == Executed {
        return Err(InvalidDisputeState);
      }
      var ruling := DisputeRuling(config, disputes[d], d, clock.lastEnsuredTerm, votes);
      if ruling.Err? {
        return Err(InvalidAdjudicationState);
      }
      ExecuteKeepsAllValid(config, disputes, d, clock.lastEnsuredTerm, ruling.value);
      ExecuteKeepsSettledAfterEnd(config, disputes, d, ruling.value, clock.lastEnsuredTerm);
      disputes := disputes[d := ExecutedDispute(disputes[d], ruling.value)];
      rulings := rulings + [(d, ruling.value)];
      res := ruling;
    }

    // ---- Voting --------------------------------------------------------------

    /** ensureCanCommit: the weight `juror` votes with in round `r` while the
        round is committing. A drafted juror votes with the slots they won. In
        the final round nobody is drafted: a juror joins on their first commit
        with `finalWeight`, their weight from the registry, and `finalLock` of
        their active stake is collected at once; a juror without weight, or
        whose active stake cannot cover the collection, cannot vote. */
    method EnsureCanCommit(d: nat, r: nat, juror: Address, finalWeight: nat, finalLock: nat) returns (res: Result<nat>)
      requires Valid()
      modifies this
      ensures Valid()
      ensures d >= |old(disputes)| ==> res == Err(DisputeDoesNotExist)
      ensures d < |old(disputes)| && r >= |old(disputes)[d].rounds| ==> res == Err(RoundDoesNotExist)
      ensures d < |old(disputes)| && r < |old(disputes)[d].rounds| ==>
                var rd := old(disputes)[d].rounds[r];
                && (RoundState(config, rd, Term()) != Committing ==> res == Err(InvalidAdjudicationState))
                && (RoundState(config, rd, Term()) == Committing ==>
                      (Get(rd.weight, juror) > 0 ==> res == Ok(Get(rd.weight, juror))) &&
                      (Get(rd.weight, juror) == 0 && !rd.final ==> res == Err(VoterWeightZero)) &&
                      (Get(rd.weight, juror) == 0 && rd.final ==>
                         (finalWeight == 0 || Get(old(stake).active, juror) < finalLock <==> res == Err(VoterWeightZero)) &&
                         (finalWeight > 0 && finalLock <= Get(old(stake).active, juror) ==> res == Ok(finalWeight)) &&
                         (res.Ok? ==> res.value == finalWeight)))
      ensures res.Err? || Get(old(disputes)[d].rounds[r].weight, juror) > 0 ==> State() == old(State())
      ensures res.Ok? && Get(old(disputes)[d].rounds[r].weight, juror) == 0 ==>
                old(disputes)[d].rounds[r].final && finalLock <= Get(old(stake).active, juror) &&
                disputes == old(disputes)[d := JoinedDispute(old(disputes)[d], r, juror, finalWeight, finalLock)] &&
                stake == old(stake).(active := Debit(old(stake).active, juror, finalLock)) &&
                maxJurorsPerDraftBatch == old(maxJurorsPerDraftBatch) && tokens == old(tokens) && allowance == old(allowance) &&
                treasury == old(treasury) && withdrawalsLock == old(withdrawalsLock) && rulings == old(rulings)
      ensures res.Ok? ==> d < |disputes| && r < |disputes[d].rounds| && res.value == Get(disputes[d].rounds[r].weight, juror) > 0
    {
      if d >= |disputes| {
        return Err(DisputeDoesNotExist);
      }
      if r >= |disputes[d].rounds| {
        return Err(RoundDoesNotExist);
      }
      var rd := disputes[d].rounds[r];
      if RoundState(config, rd, clock.lastEnsuredTerm) != Committing {
        return Err(InvalidAdjudicationState);
      }
      var w := Get(rd.weight, juror);
      if w > 0 {
        return Ok(w);
      }
      if !rd.final || finalWeight == 0 || Get(stake.active, juror) < finalLock {
        return Err(VoterWeightZero);
      }
      JoinKeepsAllValid(config, disputes, d, r, juror, finalWeight, finalLock);
      JoinKeepsSettledAfterEnd(config, disputes, d, r, juror, finalWeight, finalLock, clock.lastEnsuredTerm);
      disputes := disputes[d := JoinedDispute(disputes[d], r, juror, finalWeight, finalLock)];
      stake := stake.(active := Debit(stake.active, juror, finalLock));
      res := Ok(finalWeight);
    }
  }
}
