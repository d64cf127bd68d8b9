/** Court subscriptions: fees are accounted per period of `periodDuration`
    terms. Only donations are modelled. */
module Subscriptions {
  import opened Types

  /** Terms are numbered from 1 for the purpose of periods: term 1 opens period 0. */
  const START_TERM_ID: nat := 1

  /** The period that `term` falls in. */
  function PeriodOf(term: nat, periodDuration: nat): (p: nat)
    requires term >= START_TERM_ID && periodDuration > 0
    ensures p * periodDuration <= term - START_TERM_ID < (p + 1) * periodDuration
  {
    (term - START_TERM_ID) / periodDuration
  }

  /** Collected fees of period `p`; a period nobody paid in has collected nothing. */
  function Collected(periods: map<nat, nat>, p: nat): nat
  {
    if p in periods then periods[p] else 0
  }

  class CourtSubscriptions {
    /** The address of the subscriptions contract on the fee-token ledger. */
    const self: Address
    const periodDuration: nat
    /** Fee-token balances and the allowances holders granted this contract. */
    var tokens: map<Address, nat>
    var allowance: map<Address, nat>
    /** Collected fees of each period. */
    var periods: map<nat, nat>
    /** FeesDonated events, as (payer, amount). */
    ghost var donations: seq<(Address, nat)>

    constructor (self: Address, periodDuration: nat, tokens: map<Address, nat>, allowance: map<Address, nat>)
      requires periodDuration > 0
      ensures this.self == self && this.periodDuration == periodDuration
      ensures this.tokens == tokens && this.allowance == allowance && periods == map[] && donations == []
    {
      this.self := self;
      this.periodDuration := periodDuration;
      this.tokens := tokens;
      this.allowance := allowance;
      periods := map[];
      donations := [];
    }

    /** `payer` gives `amount` fee tokens to the current period's collected
        fees. `currentTerm` is the court's current term, 0 before it starts.
        The contract never calls its own `donate`, so `payer` is not `self`. */
    method Donate(payer: Address, amount: nat, currentTerm: nat) returns (res: Result<()>)
      requires periodDuration > 0 && payer != self
      modifies this
      ensures amount == 0 ==> res == Err(DonationAmountZero)
      ensures amount > 0 && currentTerm < START_TERM_ID ==> res == Err(CourtHasNotStarted)
      ensures amount > 0 && currentTerm >= START_TERM_ID ==>
                (res == Err(TokenTransferFailed) <==> Get(old(tokens), payer) < amount || Get(old(allowance), payer) < amount)
      ensures amount > 0 && currentTerm >= START_TERM_ID && Get(old(tokens), payer) >= amount && Get(old(allowance), payer) >= amount ==>
                res.Ok?
      ensures res.Err? ==> tokens == old(tokens) && allowance == old(allowance) && periods == old(periods) && donations == old(donations)
      ensures res.Ok? ==>
                currentTerm >= START_TERM_ID &&
                Get(tokens, self) == Get(old(tokens), self) + amount &&
                Get(tokens, payer) == Get(old(tokens), payer) - amount &&
                (forall a :: a != self && a != payer ==> Get(tokens, a) == Get(old(tokens), a)) &&
                Get(allowance, payer) == Get(old(allowance), payer) - amount &&
                (forall a :: a != payer ==> Get(allowance, a) == Get(old(allowance), a)) &&
                Collected(periods, PeriodOf(currentTerm, periodDuration)) ==
                  Collected(old(periods), PeriodOf(currentTerm, periodDuration)) + amount &&
                (forall p :: p != PeriodOf(currentTerm, periodDuration) ==> Collected(periods, p) == Collected(old(periods), p)) &&
                donations == old(donations) + [(payer, amount)]
    {
      if amount == 0 {
        return Err(DonationAmountZero);
      }
      if currentTerm < START_TERM_ID {
        return Err(CourtHasNotStarted);
      }
      var period := PeriodOf(currentTerm, periodDuration);
      if Get(tokens, payer) < amount || Get(allowance, payer) < amount {
        return Err(TokenTransferFailed);
      }
      tokens := Credit(Debit(tokens, payer, amount), self, amount);
      allowance := Debit(allowance, payer, amount);
      periods := periods[period := Collected(periods, period) + amount];
      donations := donations + [(payer, amount)];
      res := Ok(());
    }
  }
}
