/** Sortition of a block hash to one of the parallel chains, src/config.rs. */
module Sortition {
  import opened Prelude

  const PROPOSER_INDEX := 0
  const TRANSACTION_INDEX := 1
  const FIRST_VOTER_INDEX := 2

  /** `SORTITION_PRECISION`, the largest 64-bit number. */
  const TOTAL_WIDTH: nat := 0xFFFF_FFFF_FFFF_FFFF

  datatype Widths = Widths(voterChains: nat, proposer: nat, voter: nat, tx: nat)
  {
    /** What `BlockchainConfig::new` establishes: the transaction width is the rest, and
        `chain_num + FIRST_VOTER_INDEX` fits 16 bits. */
    ghost predicate Valid() {
      && 1 <= voterChains <= 65533
      && proposer + voter * voterChains + tx == TOTAL_WIDTH
    }
  }

  /** `Mined` and `NotMined` are the source's `Some` and `None`; `Panic` is an addition
      leaving 256 bits. */
  datatype Outcome = Mined(id: nat) | NotMined | Panic

  function ProposerEnd(w: Widths, difficulty: nat): nat {
    difficulty / TOTAL_WIDTH * w.proposer
  }

  /** Where the voter interval starts. The proposer width enters twice: once in
      `transaction_width` and once more when the two widths are added. */
  function VoterStart(w: Widths, difficulty: nat): nat {
    difficulty / TOTAL_WIDTH * (w.proposer + w.tx) + ProposerEnd(w, difficulty)
  }

  /** `sortition_hash`. */
  function SortitionHash(w: Widths, hash: nat, difficulty: nat): Outcome
    requires w.Valid()
  {
    if hash < ProposerEnd(w, difficulty) then
      Mined(PROPOSER_INDEX)
    else if VoterStart(w, difficulty) >= TWO_256 then
      Panic
    else if hash < VoterStart(w, difficulty) then
      Mined(TRANSACTION_INDEX)
    else if hash < difficulty then
      Mined((hash - VoterStart(w, difficulty)) % w.voterChains + FIRST_VOTER_INDEX)
    else
      NotMined
  }

  lemma EndsBelowDifficulty(w: Widths, difficulty: nat)
    requires w.Valid()
    ensures ProposerEnd(w, difficulty) <= difficulty
    ensures w.proposer <= w.voter * w.voterChains ==> VoterStart(w, difficulty) <= difficulty
  {
    var m := difficulty / TOTAL_WIDTH;
    assert m * TOTAL_WIDTH <= difficulty;
    assert w.voter * w.voterChains >= 0;
    MulLe(w.proposer, TOTAL_WIDTH, m);
    if w.proposer <= w.voter * w.voterChains {
      assert VoterStart(w, difficulty) == m * (w.proposer + w.tx + w.proposer);
      MulLe(w.proposer + w.tx + w.proposer, TOTAL_WIDTH, m);
    }
  }

  /** The chain id always indexes the miner's list of contents. */
  lemma IdInRange(w: Widths, hash: nat, difficulty: nat)
    requires w.Valid() && SortitionHash(w, hash, difficulty).Mined?
    ensures SortitionHash(w, hash, difficulty).id < w.voterChains + FIRST_VOTER_INDEX
  {
  }

  /** What a proof of work should mean: mined below the difficulty, not mined otherwise. */
  ghost predicate MinesExactlyBelow(w: Widths, difficulty: nat)
    requires w.Valid()
  {
    forall hash: nat | hash < TWO_256 ::
      if hash < difficulty then SortitionHash(w, hash, difficulty).Mined?
      else SortitionHash(w, hash, difficulty) == NotMined
  }

  /** That holds exactly when the voter interval starts within the difficulty. */
  lemma MinedIffBelowDifficulty(w: Widths, difficulty: nat)
    requires w.Valid() && difficulty < TWO_256
    ensures MinesExactlyBelow(w, difficulty) <==> VoterStart(w, difficulty) <= difficulty
  {
    EndsBelowDifficulty(w, difficulty);
    assert SortitionHash(w, difficulty, difficulty) == NotMined <==> VoterStart(w, difficulty) <= difficulty;
  }

  /** The configured widths meet that condition as soon as the proposer width is at most
      the width of all voter chains together, whatever the difficulty. */
  lemma NarrowProposersMineExactly(w: Widths, hash: nat, difficulty: nat)
    requires w.Valid() && w.proposer <= w.voter * w.voterChains
    requires hash < TWO_256 && difficulty < TWO_256
    ensures SortitionHash(w, hash, difficulty) != Panic
    ensures SortitionHash(w, hash, difficulty).Mined? <==> hash < difficulty
  {
    EndsBelowDifficulty(w, difficulty);
  }

  /** The widths are right for every difficulty exactly if proposers are that narrow. */
  lemma MinesExactlyIffNarrow(w: Widths)
    requires w.Valid()
    ensures (forall difficulty: nat | difficulty < TWO_256 :: MinesExactlyBelow(w, difficulty)) <==>
            w.proposer <= w.voter * w.voterChains
  {
    hide SortitionHash, MinesExactlyBelow;
    if forall difficulty: nat | difficulty < TWO_256 :: MinesExactlyBelow(w, difficulty) {
      assert MinesExactlyBelow(w, TOTAL_WIDTH);
      MinedIffBelowDifficulty(w, TOTAL_WIDTH);
      assert TOTAL_WIDTH / TOTAL_WIDTH == 1;
      assert VoterStart(w, TOTAL_WIDTH) == w.proposer + w.tx + w.proposer;
    }
    if w.proposer <= w.voter * w.voterChains {
      forall difficulty: nat | difficulty < TWO_256
        ensures MinesExactlyBelow(w, difficulty)
      {
        EndsBelowDifficulty(w, difficulty);
        MinedIffBelowDifficulty(w, difficulty);
      }
    }
  }

  /** A hash below the difficulty gets an id unless the sum of the widths overflows first. */
  lemma MinedUnlessOverflow(w: Widths, hash: nat, difficulty: nat)
    requires w.Valid() && hash < difficulty
    ensures SortitionHash(w, hash, difficulty).Mined? <==> hash < ProposerEnd(w, difficulty) || VoterStart(w, difficulty) < TWO_256
  {
  }

  /** Wider proposers break it: a hash equal to the difficulty, which is no proof of work,
      is taken for a transaction block. */
  lemma WideProposersMineTooMuch()
    ensures var w := Widths(1, TOTAL_WIDTH - 2, 1, 1);
            w.Valid() && SortitionHash(w, TOTAL_WIDTH, TOTAL_WIDTH) == Mined(TRANSACTION_INDEX)
  {
    assert TOTAL_WIDTH / TOTAL_WIDTH == 1;
  }

  /** How many hashes below `limit` are sorted into chain `id`. */
  function CountMined(w: Widths, difficulty: nat, id: nat, limit: nat): nat
    requires w.Valid()
  {
    if limit == 0 then 0
    else
      CountMined(w, difficulty, id, limit - 1) +
      (if SortitionHash(w, limit - 1, difficulty) == Mined(id) then 1 else 0)
  }

  function RoundRobinShare(total: nat, n: nat, k: nat): nat
    requires n >= 1
  {
    total / n + (if k < total % n then 1 else 0)
  }

  lemma DivModStep(x: nat, n: nat)
    requires n >= 1
    ensures if x % n == n - 1 then (x + 1) / n == x / n + 1 && (x + 1) % n == 0
            else (x + 1) / n == x / n && (x + 1) % n == x % n + 1
  {
    var q, r := x / n, x % n;
    assert x == n * q + r;
    if r == n - 1 {
      DivModUnique(x + 1, n, q + 1, 0);
    } else {
      DivModUnique(x + 1, n, q, r + 1);
    }
  }

  lemma DivModUnique(x: nat, n: nat, q: nat, r: nat)
    requires n >= 1 && r < n && x == n * q + r
    ensures x / n == q && x % n == r
  {
    var q', r' := x / n, x % n;
    assert x == n * q' + r';
    assert n * (q - q') == r' - r;
    assert q - q' >= 1 ==> n * (q - q') >= n;
    assert q' - q >= 1 ==> n * (q' - q) >= n;
  }

  lemma ShareStep(total: nat, n: nat, k: nat)
    requires k < n
    ensures RoundRobinShare(total + 1, n, k) ==
            RoundRobinShare(total, n, k) + (if total % n == k then 1 else 0)
  {
    DivModStep(total, n);
  }

  lemma {:induction false} CountVoters(w: Widths, difficulty: nat, k: nat, limit: nat)
    requires w.Valid() && k < w.voterChains
    requires VoterStart(w, difficulty) < TWO_256 && limit <= difficulty
    ensures CountMined(w, difficulty, k + FIRST_VOTER_INDEX, limit) ==
            if limit <= VoterStart(w, difficulty) then 0
            else RoundRobinShare(limit - VoterStart(w, difficulty), w.voterChains, k)
  {
    if limit > 0 {
      CountVoters(w, difficulty, k, limit - 1);
      var start := VoterStart(w, difficulty);
      if limit > start {
        assert RoundRobinShare(0, w.voterChains, k) == 0;
        ShareStep(limit - 1 - start, w.voterChains, k);
      }
    }
  }

  lemma {:induction false} CountProposersAndTransactions(w: Widths, difficulty: nat, limit: nat)
    requires w.Valid()
    requires VoterStart(w, difficulty) <= difficulty < TWO_256 && limit <= difficulty
    ensures CountMined(w, difficulty, PROPOSER_INDEX, limit) ==
            if limit <= ProposerEnd(w, difficulty) then limit else ProposerEnd(w, difficulty)
    ensures CountMined(w, difficulty, TRANSACTION_INDEX, limit) ==
            if limit <= ProposerEnd(w, difficulty) then 0
            else if limit <= VoterStart(w, difficulty) then limit - ProposerEnd(w, difficulty)
            else VoterStart(w, difficulty) - ProposerEnd(w, difficulty)
  {
    if limit > 0 {
      CountProposersAndTransactions(w, difficulty, limit - 1);
    }
  }

  /** Fairness: the three classes take up exactly the difficulty, and the numbers of hashes
      of any two voter chains differ by at most one. */
  lemma VoterChainsAreFair(w: Widths, difficulty: nat, j: nat, k: nat)
    requires w.Valid() && j < w.voterChains && k < w.voterChains
    requires VoterStart(w, difficulty) <= difficulty < TWO_256
    ensures var a := CountMined(w, difficulty, j + FIRST_VOTER_INDEX, difficulty);
            var b := CountMined(w, difficulty, k + FIRST_VOTER_INDEX, difficulty);
            && -1 <= a - b <= 1
            && CountMined(w, difficulty, PROPOSER_INDEX, difficulty) == ProposerEnd(w, difficulty)
            && CountMined(w, difficulty, TRANSACTION_INDEX, difficulty) == VoterStart(w, difficulty) - ProposerEnd(w, difficulty)
            && a == RoundRobinShare(difficulty - VoterStart(w, difficulty), w.voterChains, j)
  {
    EndsBelowDifficulty(w, difficulty);
    CountVoters(w, difficulty, j, difficulty);
    CountVoters(w, difficulty, k, difficulty);
    CountProposersAndTransactions(w, difficulty, difficulty);
    assert 0 / w.voterChains == 0 && 0 % w.voterChains == 0;
  }

  /** At a difficulty of `m` times the total width, `m` hashes per unit of width make proposer
      blocks; transaction blocks get the proposer width on top of their own, which is taken from
      the voter blocks. */
  lemma SharesByWidth(w: Widths, m: nat)
    requires w.Valid() && w.proposer <= w.voter * w.voterChains && m * TOTAL_WIDTH < TWO_256
    ensures CountMined(w, m * TOTAL_WIDTH, PROPOSER_INDEX, m * TOTAL_WIDTH) == m * w.proposer
    ensures CountMined(w, m * TOTAL_WIDTH, TRANSACTION_INDEX, m * TOTAL_WIDTH) == m * (w.tx + w.proposer)
  {
    hide CountMined;
    EndsBelowDifficulty(w, m * TOTAL_WIDTH);
    assert m * TOTAL_WIDTH / TOTAL_WIDTH == m;
    assert ProposerEnd(w, m * TOTAL_WIDTH) == m * w.proposer;
    assert VoterStart(w, m * TOTAL_WIDTH) == m * (w.proposer + w.tx) + m * w.proposer;
    VoterChainsAreFair(w, m * TOTAL_WIDTH, 0, 0);
  }
}
