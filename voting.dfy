/** Commit-reveal voting: each vote keeps, per voter, the commitment they made
    and the outcome recorded for them, plus the tally of each outcome and the
    winning outcome. Committing and revealing are not part of this model; a
    leak is. */
module Voting {
  import opened Types

  /** The commitment hash of an outcome under a salt. The keccak hash of the
      contract is abstracted to a constructor, which is injective by construction. */
  datatype Commitment = Commitment(outcome: nat, salt: seq<bv8>)

  function Commit(outcome: nat, salt: seq<bv8>): Commitment
  {
    Commitment(outcome, salt)
  }

  /** Only the outcome and salt that produced a commitment open it. */
  lemma CommitInjective(o1: nat, s1: seq<bv8>, o2: nat, s2: seq<bv8>)
    ensures Commit(o1, s1) == Commit(o2, s2) <==> o1 == o2 && s1 == s2
  {
  }

  datatype CastVote = CastVote(commitment: Commitment, outcome: nat)

  datatype Vote = Vote(
    possibleOutcomes: nat,
    votes: map<Address, CastVote>,
    tally: map<nat, nat>,
    winningOutcome: nat)

  /** A vote's winning outcome is a real or refused outcome, never LEAKED: leaked
      votes are never tallied. */
  ghost predicate ValidVote(v: Vote)
  {
    v.winningOutcome != LEAKED
  }

  /** The winning outcome as the voting contract reports it: REFUSED when nobody
      revealed a vote. */
  function WinningOutcome(v: Vote): (o: nat)
    ensures ValidVote(v) ==> o != LEAKED && o != MISSING
  {
    if v.winningOutcome == MISSING then REFUSED else v.winningOutcome
  }

  function OutcomeTally(v: Vote, outcome: nat): nat
  {
    if outcome in v.tally then v.tally[outcome] else 0
  }

  function VoterOutcome(v: Vote, voter: Address): nat
  {
    if voter in v.votes then v.votes[voter].outcome else MISSING
  }

  /** Whether `voter`'s recorded outcome is `outcome`. */
  function HasVotedInFavorOf(v: Vote, outcome: nat, voter: Address): bool
  {
    voter in v.votes && v.votes[voter].outcome == outcome
  }

  /** The vote after `voter`'s vote was leaked: only that voter's outcome changes. */
  function Leaked(v: Vote, voter: Address): (r: Vote)
    requires voter in v.votes
    ensures VoterOutcome(r, voter) == LEAKED
    ensures r.tally == v.tally && r.winningOutcome == v.winningOutcome && r.possibleOutcomes == v.possibleOutcomes
    ensures r.votes.Keys == v.votes.Keys
    ensures forall w :: w != voter ==> VoterOutcome(r, w) == VoterOutcome(v, w)
    ensures ValidVote(v) ==> !HasVotedInFavorOf(r, WinningOutcome(r), voter)
  {
    v.(votes := v.votes[voter := v.votes[voter].(outcome := LEAKED)])
  }

  /** A leak changes neither any tally nor the winning outcome, and the leaked
      voter no longer counts as having voted for the winner. */
  lemma LeakKeepsResult(v: Vote, voter: Address, outcome: nat)
    requires ValidVote(v) && voter in v.votes
    ensures OutcomeTally(Leaked(v, voter), outcome) == OutcomeTally(v, outcome)
    ensures WinningOutcome(Leaked(v, voter)) == WinningOutcome(v)
    ensures OutcomeTally(Leaked(v, voter), WinningOutcome(Leaked(v, voter))) == OutcomeTally(v, WinningOutcome(v))
    ensures !HasVotedInFavorOf(Leaked(v, voter), WinningOutcome(v), voter)
  {
  }

  class CRVoting {
    var votes: map<nat, Vote>

    ghost predicate Valid()
      reads this
    {
      forall id :: id in votes ==> ValidVote(votes[id])
    }

    /** The votes are created, committed and revealed by operations outside
        this model; the contract starts from those records. */
    constructor (initial: map<nat, Vote>)
      requires forall id :: id in initial ==> ValidVote(initial[id])
      ensures Valid() && votes == initial
    {
      votes := initial;
    }

    /** Anyone who knows a voter's outcome and salt before the reveal can leak
        the vote, which then counts as LEAKED. `ownerCheckReverts` is whether
        the owner's check that the voter may still commit reverts. */
    method Leak(voteId: nat, voter: Address, outcome: nat, salt: seq<bv8>, ownerCheckReverts: bool)
      returns (res: Result<()>)
      requires Valid()
      modifies this
      ensures Valid()
      ensures voteId !in old(votes) ==> res == Err(VoteDoesNotExist)
      ensures voteId in old(votes) ==>
                (voter !in old(votes)[voteId].votes || old(votes)[voteId].votes[voter].commitment != Commit(outcome, salt)
                 <==> res == Err(InvalidCommitmentSalt))
      ensures voteId in old(votes) && voter in old(votes)[voteId].votes
              && old(votes)[voteId].votes[voter].commitment == Commit(outcome, salt) ==>
                (ownerCheckReverts <==> res == Err(OwnerCheckReverted))
      ensures voteId in old(votes) && voter in old(votes)[voteId].votes
              && old(votes)[voteId].votes[voter].commitment == Commit(outcome, salt) && !ownerCheckReverts ==>
                res.Ok?
      ensures res.Err? ==> votes == old(votes)
      ensures res.Ok? ==> voteId in old(votes) && voter in old(votes)[voteId].votes
                          && votes == old(votes)[voteId := Leaked(old(votes)[voteId], voter)]
    {
      if voteId !in votes {
        return Err(VoteDoesNotExist);
      }
      var v := votes[voteId];
      if voter !in v.votes || v.votes[voter].commitment != Commit(outcome, salt) {
        return Err(InvalidCommitmentSalt);
      }
      if ownerCheckReverts {
        return Err(OwnerCheckReverted);
      }
      votes := votes[voteId := Leaked(v, voter)];
      res := Ok(());
    }
  }
}
