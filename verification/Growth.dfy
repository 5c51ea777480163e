/** The chain only grows, and a verdict on a block does not change afterwards. */
module Growth {
  import opened Prelude
  import opened Blocks
  import opened ProposerGraph
  import opened VoterTrees
  import opened VoteLevels
  import opened VoterForest
  import opened LeaderUpdate
  import opened ChainSteps
  import opened ChainState
  import opened ChainUpdate
  import opened Validation

  /** Every block is still there, with its level, chain and deepest voted level. */
  ghost predicate Grown(s: State, s': State) {
    && (forall h | h in s.db.proposers.level :: h in s'.db.proposers.level && s'.db.proposers.level[h] == s.db.proposers.level[h])
    && (forall h | h in s.db.voters.level :: h in s'.db.voters.level)
    && (forall h | h in s.db.voters.chain :: h in s'.db.voters.chain && s'.db.voters.chain[h] == s.db.voters.chain[h])
    && (forall h | h in s.db.voters.votedLevel :: h in s'.db.voters.votedLevel && s'.db.voters.votedLevel[h] == s.db.voters.votedLevel[h])
    && s.db.parentOf.Keys <= s'.db.parentOf.Keys
  }

  lemma InsertGrows(c: Config, s: State, b: Block)
    requires ValidState(c, s) && b.hash !in Known(c, s) && Acceptable(s, b)
    ensures Grown(s, Inserted(s, b))
  {
    hide ValidState, CoversLevels, RefsBelow, Inserted;
    NewHash(c, s, b.hash);
    GraphAfter(s, b);
    ParentAfter(s, b);
  }

  lemma NewHash(c: Config, s: State, h: Hash)
    requires ValidState(c, s) && h !in Known(c, s)
    ensures h !in s.db.proposers.level && h !in s.db.voters.level && h !in s.db.voters.chain && h !in s.db.voters.votedLevel
  {
    hide GraphOk, UnreferredExact, IndexOk, LedgerOk, ValidConfig, VoteCountsExact, OneRoot, VotesInOrder, BestVoters, CountsExact,
      HangsBelowParent, PlantedAt;
  }

  lemma UpdateGrows(c: Config, s: State, s': State)
    requires Updated(c, s, s')
    ensures Grown(s, s')
  {
    hide ValidState, ValidElectorate, LeadersElected, OnlyAffectedElected;
  }

  /** What is available stays available. */
  lemma {:induction false} AbsentShrinks(s: State, s': State, refs: seq<Reference>)
    requires Grown(s, s') && Absent(s, refs) == []
    ensures Absent(s', refs) == []
  {
    if refs != [] {
      AbsentShrinks(s, s', Init(refs));
    }
  }

  /** The verdict of `check_content_semantic` on a block whose references are there is final. */
  lemma VerdictIsFinal(s: State, s': State, b: Block)
    requires Grown(s, s') && Linked(s.db.voters) && Available(s, b)
    ensures Available(s', b) && (Acceptable(s', b) <==> Acceptable(s, b))
  {
    AbsentShrinks(s, s', References(b));
    AvailableBlock(s, b);
    hide Absent, References, HangsBelowParent;
  }

  /** Two chains have what the reference names, with the same data. */
  ghost predicate SameData(s: State, s': State, r: Reference) {
    match r
    case ToProposer(h) =>
      h in s.db.proposers.level && h in s'.db.proposers.level && s'.db.proposers.level[h] == s.db.proposers.level[h]
    case ToVoter(h) =>
      && h in s.db.voters.level && h in s.db.voters.chain && h in s.db.voters.votedLevel
      && h in s'.db.voters.level && h in s'.db.voters.chain && h in s'.db.voters.votedLevel
      && s'.db.voters.chain[h] == s.db.voters.chain[h] && s'.db.voters.votedLevel[h] == s.db.voters.votedLevel[h]
    case ToTransaction(h) => h in s.db.parentOf && h in s'.db.parentOf
  }

  /** Two chains agree on everything the block refers to. */
  ghost predicate AgreeOn(s: State, s': State, b: Block) {
    forall r | r in References(b) :: SameData(s, s', r)
  }

  lemma {:induction false} NothingAbsent(s: State, refs: seq<Reference>)
    requires forall r | r in refs :: Present(s, r)
    ensures Absent(s, refs) == []
  {
    if refs != [] {
      NothingAbsent(s, Init(refs));
    }
  }

  /** Peers that agree on the references of a block come to the same verdict on it, whatever else
      their chains hold. */
  lemma PeersDecideAlike(s: State, s': State, b: Block)
    requires AgreeOn(s, s', b)
    ensures Available(s, b) && Available(s', b) && (Acceptable(s', b) <==> Acceptable(s, b))
  {
    hide Absent;
    NothingAbsent(s, References(b));
    NothingAbsent(s', References(b));
    AvailableBlock(s, b);
    AvailableBlock(s', b);
    SameParent(s, s', b);
    SameRefs(s, s', b);
    hide References, AgreeOn;
    if b.content.Proposer? {
      assert forall h | h in b.content.proposerRefs :: SameData(s, s', ToProposer(h));
    } else if b.content.Voter? {
      SameCover(s, s', b.content.votes, s.db.voters.votedLevel[b.content.voterParent], s.db.proposers.level[b.header.parent]);
    }
  }

  lemma SameCover(s: State, s': State, votes: seq<Hash>, start: nat, end: nat)
    requires forall h | h in votes :: SameData(s, s', ToProposer(h))
    ensures CoversLevels(votes, s'.db.proposers.level, start, end) <==> CoversLevels(votes, s.db.proposers.level, start, end)
  {
    assert forall i | 0 <= i < |votes| :: SameData(s, s', ToProposer(votes[i]));
  }

  lemma SameParent(s: State, s': State, b: Block)
    requires AgreeOn(s, s', b)
    ensures SameData(s, s', ToProposer(b.header.parent))
    ensures b.content.Voter? ==> SameData(s, s', ToVoter(b.content.voterParent))
  {
    assert References(b)[0] == ToProposer(b.header.parent);
    assert b.content.Voter? ==> References(b)[1] == ToVoter(b.content.voterParent);
  }

  lemma SameRefs(s: State, s': State, b: Block)
    requires AgreeOn(s, s', b)
    ensures b.content.Proposer? ==> forall h | h in b.content.proposerRefs :: SameData(s, s', ToProposer(h))
    ensures b.content.Voter? ==> forall h | h in b.content.votes :: SameData(s, s', ToProposer(h))
  {
    hide SameData;
    match b.content {
      case Proposer(txRefs, refs) =>
        forall h | h in refs
          ensures SameData(s, s', ToProposer(h))
        {
          ListedProposer(refs, h);
        }
      case Voter(_, _, votes) =>
        forall h | h in votes
          ensures SameData(s, s', ToProposer(h))
        {
          ListedProposer(votes, h);
        }
      case Transaction(_) =>
    }
  }

  lemma ListedProposer(hashes: seq<Hash>, h: Hash)
    requires h in hashes
    ensures ToProposer(h) in ProposerRefs(hashes)
  {
    var i :| 0 <= i < |hashes| && hashes[i] == h;
    assert ProposerRefs(hashes)[i] == ToProposer(h);
  }
}
