/** The adjudication state of a round is not stored: it is a function of how
    many terms have passed since the round finished drafting. */
module Phase {

  datatype AdjudicationState = Invalid | Committing | Revealing | Appealing | ConfirmingAppeal | Ended

  /** Lengths, in terms, of the voting and appeal windows of every round. */
  datatype PhaseConfig = PhaseConfig(commitTerms: nat, revealTerms: nat, appealTerms: nat, appealConfirmTerms: nat)

  /** What the state function needs to know about a round. `activationTerm`
      is the draft term plus the terms the draft was delayed; `final` holds for
      the last possible round, which cannot be appealed. */
  datatype RoundClock = RoundClock(drafted: bool, activationTerm: nat, final: bool, appealed: bool)

  function Rank(s: AdjudicationState): nat
  {
    match s
    case Invalid => 0
    case Committing => 1
    case Revealing => 2
    case Appealing => 3
    case ConfirmingAppeal => 4
    case Ended => 5
  }

  function RevealStart(cfg: PhaseConfig, rc: RoundClock): nat
  {
    rc.activationTerm + cfg.commitTerms
  }

  function AppealStart(cfg: PhaseConfig, rc: RoundClock): nat
  {
    RevealStart(cfg, rc) + cfg.revealTerms
  }

  function ConfirmStart(cfg: PhaseConfig, rc: RoundClock): nat
  {
    AppealStart(cfg, rc) + cfg.appealTerms
  }

  /** First term at which the round has ended: right after revealing for a
      final round, after the appeal window when nobody appealed, and after the
      confirmation window otherwise. */
  function EndTerm(cfg: PhaseConfig, rc: RoundClock): (t: nat)
    ensures RevealStart(cfg, rc) <= AppealStart(cfg, rc) <= t
  {
    if rc.final then AppealStart(cfg, rc)
    else if !rc.appealed then ConfirmStart(cfg, rc)
    else ConfirmStart(cfg, rc) + cfg.appealConfirmTerms
  }

  /** The state of a round at `term`. */
  function StateAt(cfg: PhaseConfig, rc: RoundClock, term: nat): AdjudicationState
  {
    if !rc.drafted || term < rc.activationTerm then Invalid
    else if term < RevealStart(cfg, rc) then Committing
    else if term < AppealStart(cfg, rc) then Revealing
    else if rc.final then Ended
    else if term < ConfirmStart(cfg, rc) then Appealing
    else if !rc.appealed then Ended
    else if term < ConfirmStart(cfg, rc) + cfg.appealConfirmTerms then ConfirmingAppeal
    else Ended
  }

  /** A round is Ended exactly from its end term on, once it has been drafted. */
  lemma EndedIff(cfg: PhaseConfig, rc: RoundClock, term: nat)
    ensures StateAt(cfg, rc, term) == Ended <==> rc.drafted && term >= EndTerm(cfg, rc)
  {
  }

  /** The state never goes back as terms pass. */
  lemma StateMonotone(cfg: PhaseConfig, rc: RoundClock, t1: nat, t2: nat)
    requires t1 <= t2
    ensures Rank(StateAt(cfg, rc, t1)) <= Rank(StateAt(cfg, rc, t2))
  {
  }

  /** The states follow each other in order as the windows elapse: a drafted
      round commits from its activation term, reveals after the commit terms,
      is appealable after the reveal terms, and an appealed round waits for
      confirmation before it ends. */
  lemma Schedule(cfg: PhaseConfig, rc: RoundClock)
    requires rc.drafted && !rc.final
    requires cfg.commitTerms > 0 && cfg.revealTerms > 0 && cfg.appealTerms > 0 && cfg.appealConfirmTerms > 0
    ensures StateAt(cfg, rc, rc.activationTerm) == Committing
    ensures StateAt(cfg, rc, RevealStart(cfg, rc)) == Revealing
    ensures StateAt(cfg, rc, AppealStart(cfg, rc)) == Appealing
    ensures rc.appealed ==> StateAt(cfg, rc, ConfirmStart(cfg, rc)) == ConfirmingAppeal
    ensures !rc.appealed ==> StateAt(cfg, rc, ConfirmStart(cfg, rc)) == Ended
    ensures StateAt(cfg, rc, ConfirmStart(cfg, rc) + cfg.appealConfirmTerms) == Ended
  {
  }

  /** A round that has not finished drafting is Invalid whatever the term. */
  lemma UndraftedIsInvalid(cfg: PhaseConfig, rc: RoundClock, term: nat)
    requires !rc.drafted
    ensures StateAt(cfg, rc, term) == Invalid
  {
  }
}
