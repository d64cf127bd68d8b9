/** The court's term clock: the last ensured term, advanced by heartbeats, and
    the block from which each ensured term's randomness can be read. The term
    implied by the wall clock (`now`) and the current block number are inputs. */
module Clock {
  import opened Types

  /** Blocks after a term's randomness block during which its randomness can still be read. */
  const RANDOMNESS_WINDOW: nat := 256

  /** Most terms a state-changing court operation may transition on its own. */
  const MAX_AUTO_TERM_TRANSITIONS: nat := 1

  datatype Randomness = NotYet | Available | Expired

  /** Terms the clock lags behind the term implied by `now`. */
  function NeededTransitions(lastEnsured: nat, now: nat): (n: nat)
    ensures lastEnsured + n == if now > lastEnsured then now else lastEnsured
  {
    if now > lastEnsured then now - lastEnsured else 0
  }

  /** Whether the randomness recorded at `randomnessBlock` can be read at `block`. */
  function RandomnessAt(randomnessBlock: nat, block: nat): Randomness
  {
    if block <= randomnessBlock then NotYet
    else if block <= randomnessBlock + RANDOMNESS_WINDOW then Available
    else Expired
  }

  function RandomnessRank(r: Randomness): nat
  {
    match r
    case NotYet => 0
    case Available => 1
    case Expired => 2
  }

  /** The randomness of a term is readable from the block after its randomness
      block up to 256 blocks after it, and never again once it has expired. */
  lemma RandomnessWindow(randomnessBlock: nat, b1: nat, b2: nat)
    requires b1 <= b2
    ensures RandomnessAt(randomnessBlock, randomnessBlock) == NotYet
    ensures RandomnessAt(randomnessBlock, randomnessBlock + 1) == Available
    ensures RandomnessAt(randomnessBlock, randomnessBlock + RANDOMNESS_WINDOW) == Available
    ensures RandomnessAt(randomnessBlock, randomnessBlock + RANDOMNESS_WINDOW + 1) == Expired
    ensures RandomnessRank(RandomnessAt(randomnessBlock, b1)) <= RandomnessRank(RandomnessAt(randomnessBlock, b2))
  {
  }

  class CourtClock {
    var lastEnsuredTerm: nat
    /** Block from which the randomness of each ensured term can be read. */
    var randomnessBlock: map<nat, nat>

    ghost predicate Valid()
      reads this
    {
      forall t: nat :: t in randomnessBlock <==> t <= lastEnsuredTerm
    }

    constructor ()
      ensures Valid() && lastEnsuredTerm == 0 && randomnessBlock == map[0 := 0]
    {
      lastEnsuredTerm := 0;
      randomnessBlock := map[0 := 0];
    }

    /** Transitions up to `maxTransitions` terms towards `now`, one at a time;
        each new term's randomness becomes readable from the next block. */
    method Heartbeat(maxTransitions: nat, now: nat, block: nat) returns (transitions: nat)
      requires Valid()
      modifies this
      ensures Valid()
      ensures transitions == Min(maxTransitions, NeededTransitions(old(lastEnsuredTerm), now))
      ensures lastEnsuredTerm == old(lastEnsuredTerm) + transitions
      ensures lastEnsuredTerm <= now || lastEnsuredTerm == old(lastEnsuredTerm)
      ensures forall t :: t in old(randomnessBlock) ==> t in randomnessBlock && randomnessBlock[t] == old(randomnessBlock)[t]
      ensures forall t :: old(lastEnsuredTerm) < t <= lastEnsuredTerm ==> t in randomnessBlock && randomnessBlock[t] == block + 1
    {
      transitions := Min(maxTransitions, NeededTransitions(lastEnsuredTerm, now));
      var i := 0;
      while i < transitions
        invariant 0 <= i <= transitions
        invariant lastEnsuredTerm == old(lastEnsuredTerm) + i
        invariant Valid()
        invariant forall t :: t in old(randomnessBlock) ==> t in randomnessBlock && randomnessBlock[t] == old(randomnessBlock)[t]
        invariant forall t :: old(lastEnsuredTerm) < t <= lastEnsuredTerm ==> t in randomnessBlock && randomnessBlock[t] == block + 1
      {
        lastEnsuredTerm := lastEnsuredTerm + 1;
        randomnessBlock := randomnessBlock[lastEnsuredTerm := block + 1];
        i := i + 1;
      }
    }

    /** Brings the clock up to `now` before a court operation, refusing to do
        more than MAX_AUTO_TERM_TRANSITIONS transitions. */
    method EnsureCurrentTerm(now: nat, block: nat) returns (res: Result<nat>)
      requires Valid()
      modifies this
      ensures Valid()
      ensures NeededTransitions(old(lastEnsuredTerm), now) > MAX_AUTO_TERM_TRANSITIONS <==> res.Err?
      ensures res.Err? ==> res.error == TooManyTransitions
      ensures res.Err? ==> lastEnsuredTerm == old(lastEnsuredTerm) && randomnessBlock == old(randomnessBlock)
      ensures res.Ok? ==>
                res.value == NeededTransitions(old(lastEnsuredTerm), now) &&
                lastEnsuredTerm == old(lastEnsuredTerm) + res.value &&
                NeededTransitions(lastEnsuredTerm, now) == 0
      ensures forall t :: t in old(randomnessBlock) ==> t in randomnessBlock && randomnessBlock[t] == old(randomnessBlock)[t]
      ensures forall t :: old(lastEnsuredTerm) < t <= lastEnsuredTerm ==> t in randomnessBlock && randomnessBlock[t] == block + 1
    {
      var needed := NeededTransitions(lastEnsuredTerm, now);
      if needed > MAX_AUTO_TERM_TRANSITIONS {
        return Err(TooManyTransitions);
      }
      var done := Heartbeat(needed, now, block);
      res := Ok(done);
    }
  }
}
