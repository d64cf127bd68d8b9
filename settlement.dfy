/** Settlement of a round once its final ruling is known: the penalty pass over
    the round's jurors (batched by the court) and the pro-rata rewards paid to
    coherent jurors afterwards. Everything here works on values; the court
    applies the results to its state. */
module Settlement {
  import opened Types
  import Voting

  /** The juror registry's balance classes. */
  datatype Stake = Stake(active: map<Address, nat>, locked: map<Address, nat>, available: map<Address, nat>)

  /** The running result of the penalty pass: the registry balances, the tokens
      collected from jurors so far and the weight of the coherent jurors so far. */
  datatype Totals = Totals(stake: Stake, collected: nat, coherent: nat)

  /** What settlement reads of a round: each juror's weight, the stake locked
      (or, in a final round, already slashed) for the round, and whether the
      round is the final one. */
  datatype Participation = Participation(weight: map<Address, nat>, roundLock: map<Address, nat>, final: bool)

  /** A juror is coherent when their recorded vote is the final ruling. */
  predicate Coherent(vote: Voting.Vote, ruling: nat, j: Address)
  {
    Voting.HasVotedInFavorOf(vote, ruling, j)
  }

  function Weight(p: Participation, j: Address): nat
  {
    Get(p.weight, j)
  }

  function RoundLock(p: Participation, j: Address): nat
  {
    Get(p.roundLock, j)
  }

  /** Stake returned from locked to unlocked-active for `j`: a regular round
      releases the round lock of every juror; a final round locked nothing. */
  function LockedRelease(p: Participation, j: Address): nat
  {
    if p.final then 0 else RoundLock(p, j)
  }

  /** Stake taken from `j`'s active balance: the round lock of an incoherent
      juror in a regular round; final-round stake was taken when voting. */
  function ActiveSlash(p: Participation, coherent: bool, j: Address): nat
  {
    if p.final || coherent then 0 else RoundLock(p, j)
  }

  /** Tokens collected from `j`: the round lock of an incoherent juror, and in a
      final round every juror's pre-slashed stake. */
  function CollectedFrom(p: Participation, coherent: bool, j: Address): nat
  {
    if p.final || !coherent then RoundLock(p, j) else 0
  }

  /** Settles the penalties of one juror. The registry's checked subtractions
      revert when a balance does not cover the round lock. */
  function PenalizeJuror(t: Totals, p: Participation, coherent: bool, j: Address): (r: Result<Totals>)
    ensures r.Ok? ==>
              Get(t.stake.locked, j) == Get(r.value.stake.locked, j) + LockedRelease(p, j) &&
              Get(t.stake.active, j) == Get(r.value.stake.active, j) + ActiveSlash(p, coherent, j) &&
              r.value.stake.available == t.stake.available &&
              (forall k :: k != j ==> Get(r.value.stake.locked, k) == Get(t.stake.locked, k) &&
                                      Get(r.value.stake.active, k) == Get(t.stake.active, k)) &&
              r.value.collected == t.collected + CollectedFrom(p, coherent, j) &&
              r.value.coherent == t.coherent + (if coherent then Weight(p, j) else 0)
    ensures r.Err? <==> LockedRelease(p, j) > Get(t.stake.locked, j) || ActiveSlash(p, coherent, j) > Get(t.stake.active, j)
  {
    var release := LockedRelease(p, j);
    var slash := ActiveSlash(p, coherent, j);
    if release > Get(t.stake.locked, j) || slash > Get(t.stake.active, j) then Err(MathUnderflow)
    else
      Ok(Totals(
        Stake(Debit(t.stake.active, j, slash), Debit(t.stake.locked, j, release), t.stake.available),
        t.collected + CollectedFrom(p, coherent, j),
        t.coherent + (if coherent then Weight(p, j) else 0)))
  }

  /** Settles the penalties of `js`, in order; the first failure aborts the pass. */
  function PenalizeJurors(t: Totals, p: Participation, vote: Voting.Vote, ruling: nat, js: seq<Address>): (r: Result<Totals>)
    ensures r.Err? ==> r.error == MathUnderflow
    decreases |js|
  {
    if js == [] then Ok(t)
    else
      match PenalizeJuror(t, p, Coherent(vote, ruling, js[0]), js[0])
      case Err(e) => Err(e)
      case Ok(t') => PenalizeJurors(t', p, vote, ruling, js[1..])
  }

  /** Continues a pass that may already have failed. */
  function Then(r: Result<Totals>, p: Participation, vote: Voting.Vote, ruling: nat, js: seq<Address>): Result<Totals>
  {
    match r
    case Err(e) => Err(e)
    case Ok(t) => PenalizeJurors(t, p, vote, ruling, js)
  }

  /** Settling `a + b` in one batch is settling `a` and then `b`: how a round's
      jurors are split into batches does not change the outcome. */
  lemma {:induction false} PenalizeSplit(t: Totals, p: Participation, vote: Voting.Vote, ruling: nat, a: seq<Address>, b: seq<Address>)
    ensures PenalizeJurors(t, p, vote, ruling, a + b) == Then(PenalizeJurors(t, p, vote, ruling, a), p, vote, ruling, b)
    decreases |a|
  {
    if a == [] {
      assert a + b == b;
    } else {
      assert (a + b)[0] == a[0];
      assert (a + b)[1..] == a[1..] + b;
      match PenalizeJuror(t, p, Coherent(vote, ruling, a[0]), a[0])
      case Err(e) =>
      case Ok(t') => PenalizeSplit(t', p, vote, ruling, a[1..], b);
    }
  }

  /** Settling one juror at a time, batch after batch, ends where a single
      batch over all of them ends. */
  lemma {:induction false} PenalizeOneByOne(t: Totals, p: Participation, vote: Voting.Vote, ruling: nat, js: seq<Address>, i: nat)
    requires i < |js|
    ensures PenalizeJurors(t, p, vote, ruling, js[..i + 1]) == Then(PenalizeJurors(t, p, vote, ruling, js[..i]), p, vote, ruling, [js[i]])
  {
    assert js[..i + 1] == js[..i] + [js[i]];
    PenalizeSplit(t, p, vote, ruling, js[..i], [js[i]]);
  }

  /** The penalty pass as the court runs it: juror after juror, stopping at
      the first checked subtraction that reverts. */
  method PenalizeBatch(t: Totals, p: Participation, vote: Voting.Vote, ruling: nat, js: seq<Address>)
    returns (res: Result<Totals>)
    ensures res == PenalizeJurors(t, p, vote, ruling, js)
  {
    var acc := t;
    var i := 0;
    while i < |js|
      invariant i <= |js|
      invariant PenalizeJurors(t, p, vote, ruling, js[..i]) == Ok(acc)
    {
      PenalizeOneByOne(t, p, vote, ruling, js, i);
      var step := PenalizeJuror(acc, p, Coherent(vote, ruling, js[i]), js[i]);
      if step.Err? {
        assert js == js[..i + 1] + js[i + 1..];
        PenalizeSplit(t, p, vote, ruling, js[..i + 1], js[i + 1..]);
        return Err(step.error);
      }
      assert [js[i]][1..] == [];
      assert PenalizeJurors(acc, p, vote, ruling, [js[i]]) == PenalizeJurors(step.value, p, vote, ruling, []);
      acc := step.value;
      i := i + 1;
    }
    assert js[..i] == js;
    res := Ok(acc);
  }

  /** Sum over `js` of the tokens each juror contributes to the pool. */
  function CollectedSum(p: Participation, vote: Voting.Vote, ruling: nat, js: seq<Address>): nat
    decreases |js|
  {
    if js == [] then 0
    else CollectedFrom(p, Coherent(vote, ruling, js[0]), js[0]) + CollectedSum(p, vote, ruling, js[1..])
  }

  /** Sum over `js` of the weights of the coherent jurors. */
  function CoherentSum(p: Participation, vote: Voting.Vote, ruling: nat, js: seq<Address>): nat
    decreases |js|
  {
    if js == [] then 0
    else (if Coherent(vote, ruling, js[0]) then Weight(p, js[0]) else 0) + CoherentSum(p, vote, ruling, js[1..])
  }

  /** A completed pass collects the round locks of the incoherent jurors (of
      every juror in a final round) and counts the weight of the coherent ones. */
  lemma {:induction false} PenalizeTotals(t: Totals, p: Participation, vote: Voting.Vote, ruling: nat, js: seq<Address>)
    requires PenalizeJurors(t, p, vote, ruling, js).Ok?
    ensures PenalizeJurors(t, p, vote, ruling, js).value.collected == t.collected + CollectedSum(p, vote, ruling, js)
    ensures PenalizeJurors(t, p, vote, ruling, js).value.coherent == t.coherent + CoherentSum(p, vote, ruling, js)
    decreases |js|
  {
    if js != [] {
      var t' := PenalizeJuror(t, p, Coherent(vote, ruling, js[0]), js[0]).value;
      PenalizeTotals(t', p, vote, ruling, js[1..]);
    }
  }

  /** A completed pass over distinct jurors releases each juror's round lock
      once (regular rounds), slashes it from the active balance of each
      incoherent juror once (regular rounds), and touches nobody else and no
      available balance. */
  lemma {:induction false} PenalizeBalances(t: Totals, p: Participation, vote: Voting.Vote, ruling: nat, js: seq<Address>, k: Address)
    requires forall a, b :: 0 <= a < b < |js| ==> js[a] != js[b]
    requires PenalizeJurors(t, p, vote, ruling, js).Ok?
    ensures Get(t.stake.locked, k) ==
              Get(PenalizeJurors(t, p, vote, ruling, js).value.stake.locked, k) + (if k in js then LockedRelease(p, k) else 0)
    ensures Get(t.stake.active, k) ==
              Get(PenalizeJurors(t, p, vote, ruling, js).value.stake.active, k) + (if k in js then ActiveSlash(p, Coherent(vote, ruling, k), k) else 0)
    ensures PenalizeJurors(t, p, vote, ruling, js).value.stake.available == t.stake.available
    decreases |js|
  {
    if js != [] {
      var t' := PenalizeJuror(t, p, Coherent(vote, ruling, js[0]), js[0]).value;
      PenalizeBalances(t', p, vote, ruling, js[1..], k);
      assert k in js <==> k == js[0] || k in js[1..];
      if k == js[0] {
        assert k !in js[1..] by {
          forall i | 0 <= i < |js[1..]| ensures js[1..][i] != k {
            assert js[1..][i] == js[i + 1];
          }
        }
      }
    }
  }

  // ---- Rewards ----------------------------------------------------------

  /** A coherent juror's share of `total`: total * weight / coherentJurors,
      rounded down. */
  function Reward(total: nat, weight: nat, coherent: nat): (r: nat)
    requires coherent > 0
    ensures weight <= coherent ==> r <= total
  {
    RewardAtMostTotal(total, weight, coherent);
    total * weight / coherent
  }

  lemma DivMod(x: nat, d: nat)
    requires d > 0
    ensures x == (x / d) * d + x % d && x % d < d
  {
  }

  lemma MulLe(a: nat, b: nat, c: nat)
    requires a <= b
    ensures a * c <= b * c
  {
  }

  lemma MulStrict(a: nat, b: nat, w: nat)
    requires w > 0 && a > b
    ensures a * w >= b * w + w
  {
    assert a * w == b * w + (a - b) * w;
    MulLe(1, a - b, w);
  }

  /** Cancelling a positive factor from both sides of an inequality. */
  lemma MulCancel(a: nat, b: nat, w: nat)
    requires w > 0 && a * w <= b * w
    ensures a <= b
  {
    if a > b {
      MulStrict(a, b, w);
    }
  }

  lemma Distrib(a: nat, b: nat, c: nat)
    ensures (a + b) * c == a * c + b * c
  {
  }

  lemma RewardAtMostTotal(total: nat, weight: nat, coherent: nat)
    requires coherent > 0
    ensures weight <= coherent ==> total * weight / coherent <= total
  {
    if weight > coherent {
      return;
    }
    var q := total * weight / coherent;
    DivMod(total * weight, coherent);
    MulLe(weight, coherent, total);
    assert weight * total == total * weight && coherent * total == total * coherent;
    assert q * coherent <= total * coherent;
    MulCancel(q, total, coherent);
  }

  function Sum(ws: seq<nat>): nat
  {
    if ws == [] then 0 else ws[0] + Sum(ws[1..])
  }

  /** Sum of the rewards paid to jurors of weights `ws` out of `total`. */
  function RewardSum(total: nat, ws: seq<nat>, coherent: nat): nat
    requires coherent > 0
  {
    if ws == [] then 0 else total * ws[0] / coherent + RewardSum(total, ws[1..], coherent)
  }

  /** Sum of the remainders the integer division drops. */
  function RemainderSum(total: nat, ws: seq<nat>, coherent: nat): nat
    requires coherent > 0
  {
    if ws == [] then 0 else total * ws[0] % coherent + RemainderSum(total, ws[1..], coherent)
  }

  lemma {:induction false} RewardSplit(total: nat, ws: seq<nat>, coherent: nat)
    requires coherent > 0
    ensures RewardSum(total, ws, coherent) * coherent + RemainderSum(total, ws, coherent) == total * Sum(ws)
    ensures RemainderSum(total, ws, coherent) + |ws| <= |ws| * coherent
  {
    if ws != [] {
      var rest := ws[1..];
      RewardSplit(total, rest, coherent);
      var x := total * ws[0];
      var q, m := x / coherent, x % coherent;
      var qs, ms := RewardSum(total, rest, coherent), RemainderSum(total, rest, coherent);
      DivMod(x, coherent);
      Distrib(q, qs, coherent);
      DistribLeft(total, ws[0], Sum(rest));
      Distrib(1, |rest|, coherent);
      SplitStep((q + qs) * coherent, q * coherent, qs * coherent, m, ms, x, total * Sum(rest), total * (ws[0] + Sum(rest)));
      assert RewardSum(total, ws, coherent) == q + qs;
      assert RemainderSum(total, ws, coherent) == m + ms;
      assert Sum(ws) == ws[0] + Sum(rest);
    }
  }

  lemma DistribLeft(a: nat, b: nat, c: nat)
    ensures a * (b + c) == a * b + a * c
  {
  }

  /** The linear step of RewardSplit, with every product named. */
  lemma SplitStep(all: nat, head: nat, tail: nat, m: nat, ms: nat, x: nat, y: nat, z: nat)
    requires all == head + tail && x == head + m && tail + ms == y && z == x + y
    ensures all + (m + ms) == z
  {
  }

  /** Paying every coherent juror total * weight / coherentJurors never pays out
      more than `total`, and the truncation leaves less than one unit per juror
      unpaid. Holds for the collected tokens and for the juror fees alike. */
  lemma {:induction false} RewardsBounded(total: nat, ws: seq<nat>)
    requires Sum(ws) > 0
    ensures RewardSum(total, ws, Sum(ws)) <= total
    ensures total < RewardSum(total, ws, Sum(ws)) + |ws|
  {
    RewardSplit(total, ws, Sum(ws));
    assert Sum(ws) * total == total * Sum(ws);
    BoundsFromSplit(RewardSum(total, ws, Sum(ws)), RemainderSum(total, ws, Sum(ws)), total, Sum(ws), |ws|);
  }

  /** From r*w + m == total*w with m < n*w: r <= total < r + n. */
  lemma BoundsFromSplit(r: nat, m: nat, total: nat, w: nat, n: nat)
    requires w > 0 && n > 0
    requires r * w + m == w * total && m + n <= n * w
    ensures r <= total && total < r + n
  {
    assert w * total == total * w;
    MulCancel(r, total, w);
    Distrib(r, n, w);
    MulCancelStrict(total, r + n, w);
  }

  lemma MulCancelStrict(a: nat, b: nat, w: nat)
    requires a * w < b * w
    ensures a < b
  {
    if a >= b {
      MulLe(b, a, w);
    }
  }

  // ---- Refunds ----------------------------------------------------------

  /** When no juror was coherent the round's juror fees go back to whoever paid
      them: all of it to the disputer for round 0, half each to the appeal maker
      and the appeal taker for later rounds. Returns (disputer, maker, taker). */
  function Refunds(roundId: nat, jurorFees: nat): (r: (nat, nat, nat))
    ensures roundId == 0 ==> r.0 == jurorFees && r.1 == 0 && r.2 == 0
    ensures roundId > 0 ==> r.0 == 0 && r.1 == r.2 && r.1 + r.2 <= jurorFees < r.1 + r.2 + 2
  {
    if roundId == 0 then (jurorFees, 0, 0) else (0, jurorFees / 2, jurorFees / 2)
  }
}
