/** `BlockChain`, src/blockchain/mod.rs. The column families and the fields behind mutexes are
    fields of one object, and every public call is one step. */
module Chain {
  import opened Prelude
  import opened Blocks
  import opened ProposerGraph
  import opened VoteLevels
  import opened VoterForest
  import opened LeaderUpdate
  import opened ChainSteps
  import opened ChainState
  import opened ChainUpdate

  /** The best block of a voter chain gives way to a higher block only. */
  ghost predicate OnlyHigherIsBetter(best: seq<(Hash, nat)>, best': seq<(Hash, nat)>) {
    |best'| == |best| && forall c | 0 <= c < |best| :: best'[c] == best[c] || best'[c].1 > best[c].1
  }

  class BlockChain {
    const config: Config
    var db: Database
    var proposerBestLevel: nat
    var voterBest: seq<(Hash, nat)>
    var unreferredTransactions: map<Hash, nat>
    var unreferredProposers: map<Hash, nat>
    var unconfirmed: set<Hash>
    var ledgerTip: nat
    var voterLedgerTips: seq<Hash>

    function View(): State
      reads this
    {
      State(db, proposerBestLevel, voterBest, unreferredTransactions, unreferredProposers, unconfirmed, ledgerTip, voterLedgerTips)
    }

    ghost predicate Valid()
      reads this
    {
      ValidState(config, View())
    }

    /** `new`: the genesis blocks, confirmed and voted for by every chain. */
    constructor (config: Config)
      requires ValidConfig(config)
      ensures Valid() && this.config == config
      ensures db.proposers == GenesisGraph(config.proposerGenesis)
      ensures db.voters.level.Keys == Elements(config.voterGenesis)
      ensures unreferredProposers == map[config.proposerGenesis := 0] && unreferredTransactions == map[]
      ensures Confirmed(config, View()) == [config.proposerGenesis] && TransactionLedger(config, View()) == []
      ensures forall h: Hash :: h in Known(config, View()) <==> h == config.proposerGenesis || h in config.voterGenesis
    {
      hide ValidState, Confirmed, TransactionLedger;
      this.config := config;
      var s := Genesis(config);
      db, proposerBestLevel, voterBest, unreferredTransactions, unreferredProposers, unconfirmed, ledgerTip, voterLedgerTips :=
        s.db, s.proposerBestLevel, s.voterBest, s.unreferredTransactions, s.unreferredProposers, s.unconfirmed, s.ledgerTip,
        s.voterLedgerTips;
      new;
      assert View() == s;
    }

    /** `update_ledger`: the transaction blocks that joined and left the ledger. */
    method UpdateLedger() returns (added: seq<Hash>, removed: seq<Hash>, ghost kept: seq<Hash>)
      requires Valid()
      modifies `db, `unconfirmed, `ledgerTip, `voterLedgerTips
      ensures Valid() && Updated(config, old(View()), View())
      ensures LeadersJudged(config, old(View()), View())
      ensures old(TransactionLedger(config, View())) == kept + removed
      ensures TransactionLedger(config, View()) == kept + added
      ensures old(CaughtUp(View())) ==> View() == old(View()) && added == [] && removed == []
    {
      hide ValidState, TransactionLedger, LeadersElected, OnlyAffectedElected, ValidElectorate, LeadersJudged;
      var s;
      s, added, removed, kept := Update(config, View());
      db, unconfirmed, ledgerTip, voterLedgerTips := s.db, s.unconfirmed, s.ledgerTip, s.voterLedgerTips;
      assert View() == s;
    }

    /** `insert_block`. */
    method InsertBlock(b: Block)
      requires Valid() && b.hash !in Known(config, View()) && Acceptable(View(), b)
      modifies this
      ensures Valid() && View() == Inserted(old(View()), b)
      ensures OnlyHigherIsBetter(old(voterBest), voterBest)
    {
      hide ValidState, RefsBelow, CoversLevels, WithProposer, WithVoter;
      InsertKeepsValid(config, View(), b);
      db := db.(parentOf := db.parentOf[b.hash := b.header.parent]);
      match b.content {
        case Proposer(txRefs, refs) =>
          InsertProposer(b.hash, b.header, txRefs, refs);
        case Voter(_, parent, votes) =>
          InsertVoter(b.hash, b.header, parent, votes);
        case Transaction(_) =>
          unreferredTransactions := unreferredTransactions[b.hash := b.header.timestamp];
      }
    }

    method InsertProposer(h: Hash, header: Header, txRefs: seq<Hash>, refs: seq<Hash>)
      requires header.parent in db.proposers.level
      modifies `db, `unreferredProposers, `unreferredTransactions, `unconfirmed, `proposerBestLevel
      ensures View() == WithProposer(old(View()), h, header, txRefs, refs)
    {
      hide AddProposer, Elements;
      var level := db.proposers.level[header.parent] + 1;
      var proposersLeft := RemoveAll(unreferredProposers[h := header.timestamp], refs);
      var transactionsLeft := RemoveAll(unreferredTransactions, txRefs);
      unreferredProposers := proposersLeft - {header.parent};
      unreferredTransactions := transactionsLeft;
      unconfirmed := unconfirmed + {h};
      db := db.(proposers := AddProposer(db.proposers, h, header.parent, refs, txRefs));
      if level > proposerBestLevel {
        proposerBestLevel := level;
      }
    }

    method InsertVoter(h: Hash, header: Header, parent: Hash, votes: seq<Hash>)
      requires header.parent in db.proposers.level && parent in db.voters.level && parent in db.voters.chain
      requires db.voters.chain[parent] < |voterBest|
      modifies `db, `voterBest
      ensures View() == WithVoter(old(View()), h, header, parent, votes)
      ensures OnlyHigherIsBetter(old(voterBest), voterBest)
      ensures forall c | 0 <= c < |voterBest| :: voterBest[c] != old(voterBest[c]) ==> c == old(db.voters.chain[parent]) && voterBest[c].0 == h
    {
      hide AddVoter, AddCounts;
      var level, chain := db.voters.level[parent] + 1, db.voters.chain[parent];
      var count := CountVotes(db.voteCount, votes);
      db := db.(voters := AddVoter(db.voters, h, parent, votes, db.proposers.level[header.parent]), voteCount := count);
      if level > voterBest[chain].1 {
        voterBest := voterBest[chain := (h, level)];
      }
    }
  }
}
