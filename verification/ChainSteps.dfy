/** Facts about single operations of the chain. */
module ChainSteps {
  import opened Prelude
  import opened LedgerSpec
  import opened LedgerUpdate
  import opened ProposerGraph
  import opened VoterTrees
  import opened VoteIndex
  import opened VoterForest

  /** The ledger holds what the leaders make of the graph, up to the first level without one. */
  ghost predicate LedgerOk(g: Proposers, leaders: map<nat, Hash>, order: map<nat, seq<Hash>>, unconfirmed: set<Hash>, tip: nat)
    requires Acyclic(g)
  {
    LeadersInPlace(g, leaders) && Stored(g, leaders, order, unconfirmed, tip + 1) && tip + 1 !in leaders
  }

  lemma GenesisLedger(genesis: Hash)
    ensures var g := GenesisGraph(genesis);
            Acyclic(g) && LedgerOk(g, map[0 := genesis], map[0 := [genesis]], {}, 0)
    ensures var g := GenesisGraph(genesis);
            Led(g, map[0 := genesis], 1) && Flatten(Ledger(g, map[0 := genesis], 1)) == [genesis]
  {
    var g, leaders := GenesisGraph(genesis), map[0 := genesis];
    assert Acyclic(g) && Led(g, leaders, 1) && LeadersInPlace(g, leaders) && g.level.Keys == {genesis} && g.refs[genesis] == [];
    hide Acyclic, LeadersInPlace, GenesisGraph;
    LoneLedger(g, leaders, genesis);
    hide Ledger, Led;
    assert {genesis} - Elements([genesis]) == {};
  }

  lemma LoneLedger(g: Proposers, leaders: map<nat, Hash>, h: Hash)
    requires Acyclic(g) && Led(g, leaders, 1) && leaders[0] == h && g.refs[h] == []
    ensures Ledger(g, leaders, 1) == [[h]] && Flatten(Ledger(g, leaders, 1)) == [h]
  {
    LoneOrder(g, {}, h);
    hide OrderOf, Acyclic;
    assert Ledger(g, leaders, 0) == [] && Elements(Flatten<Hash>([])) == {};
    FlattenSnoc([], [h]);
    assert [] + [[h]] == [[h]] && Flatten<Hash>([]) + [h] == [h];
  }

  /** A new proposer block is unconfirmed and leaves the ledger as it is. */
  lemma LedgerAfterInsert(g: Proposers, g': Proposers, leaders: map<nat, Hash>, order: map<nat, seq<Hash>>, unconfirmed: set<Hash>,
                          tip: nat, h: Hash)
    requires Acyclic(g) && Acyclic(g') && Extends(g, g') && h !in g.level && g'.level.Keys == g.level.Keys + {h}
    requires LedgerOk(g, leaders, order, unconfirmed, tip)
    ensures LedgerOk(g', leaders, order, unconfirmed + {h}, tip)
    ensures Led(g, leaders, tip + 1) && Led(g', leaders, tip + 1)
    ensures Ledger(g', leaders, tip + 1) == Ledger(g, leaders, tip + 1)
  {
    hide LeadersInPlace, Ledger, Flatten, Acyclic, Extends, Led, NoDup;
    StoredIsLed(g, leaders, order, unconfirmed, tip + 1);
    LedgerStable(g, g', leaders, leaders, tip + 1);
    LedgerHasNoDup(g, leaders, tip + 1);
    LeadersStayInPlace(g, g', leaders);
    var confirmed := Elements(Flatten(Ledger(g, leaders, tip + 1)));
    assert h !in confirmed;
    assert g'.level.Keys - confirmed == g.level.Keys - confirmed + {h};
  }

  lemma LeadersStayInPlace(g: Proposers, g': Proposers, leaders: map<nat, Hash>)
    requires Extends(g, g') && LeadersInPlace(g, leaders)
    ensures LeadersInPlace(g', leaders)
  {
  }

  lemma {:induction false} TransactionsStable(g: Proposers, g': Proposers, s: seq<Hash>)
    requires forall x | x in s :: x in g.txRefs && x in g'.txRefs && g'.txRefs[x] == g.txRefs[x]
    ensures TransactionsOf(g', s) == TransactionsOf(g, s)
  {
    if s != [] {
      TransactionsStable(g, g', Init(s));
    }
  }

  /** A new chain with its genesis block as tip. */
  lemma IndexWithOneMoreChain(index: map<Hash, seq<Vote>>, index': map<Hash, seq<Vote>>, v: Voters, v': Voters, tips: seq<Hash>,
                              h: Hash, proposerGenesis: Hash)
    requires Linked(v) && Linked(v') && VotersExtend(v, v') && TipsKnown(v, tips) && IndexExact(index, v, tips)
    requires h in v'.level && v'.level[h] == 0 && v'.votes[h] == [proposerGenesis]
    requires NoDuplicates(index') && Changed(index, index', |tips|, [(proposerGenesis, 0)], true)
    ensures TipsKnown(v', tips + [h]) && IndexExact(index', v', tips + [h])
  {
    IndexStable(index, v, v', tips);
    hide NoDuplicates, Linked, VotersExtend;
    forall p: Hash, c: nat, l: nat
      ensures (c, l) in Lookup(index', p) <==> c < |tips + [h]| && VotesFor(v', (tips + [h])[c], p, l)
    {
      if c < |tips| {
        assert (tips + [h])[c] == tips[c];
      } else if c == |tips| {
        assert (c, l) !in Lookup(index, p);
      }
    }
  }

  function CountOf(count: map<Hash, nat>, p: Hash): nat {
    if p in count then count[p] else 0
  }

  /** PROPOSER_VOTE_COUNT after one merge of 1 for every vote. */
  function AddCounts(count: map<Hash, nat>, votes: seq<Hash>): map<Hash, nat> {
    if votes == [] then count
    else
      var before := AddCounts(count, Init(votes));
      before[Last(votes) := CountOf(before, Last(votes)) + 1]
  }

  lemma {:induction false} AddCountsAddsOne(count: map<Hash, nat>, votes: seq<Hash>, p: Hash)
    requires NoDup(votes)
    ensures CountOf(AddCounts(count, votes), p) == CountOf(count, p) + if p in votes then 1 else 0
  {
    if votes != [] {
      AddCountsAddsOne(count, Init(votes), p);
      assert p in votes <==> p in Init(votes) || p == Last(votes);
    }
  }

  /** All voter blocks, on any fork, that vote for `p`. */
  ghost function VotersOf(v: Voters, p: Hash): set<Hash> {
    set h | h in v.votes && p in v.votes[h]
  }

  ghost predicate VoteCountsExact(v: Voters, count: map<Hash, nat>) {
    forall p: Hash :: CountOf(count, p) == |VotersOf(v, p)|
  }

  lemma OneMoreVoteCount(v: Voters, v': Voters, count: map<Hash, nat>, h: Hash)
    requires Linked(v) && Linked(v') && OneMore(v, v', h) && VoteCountsExact(v, count) && NoDup(v'.votes[h])
    ensures VoteCountsExact(v', AddCounts(count, v'.votes[h]))
  {
    forall p: Hash
      ensures CountOf(AddCounts(count, v'.votes[h]), p) == |VotersOf(v', p)|
    {
      AddCountsAddsOne(count, v'.votes[h], p);
      VotersOfOneMore(v, v', h, p);
    }
  }

  lemma VotersOfOneMore(v: Voters, v': Voters, h: Hash, p: Hash)
    requires Linked(v) && Linked(v') && OneMore(v, v', h)
    ensures VotersOf(v', p) == VotersOf(v, p) + (if p in v'.votes[h] then {h} else {})
    ensures h !in VotersOf(v, p)
  {
    forall q: Hash
      ensures q in VotersOf(v', p) <==> q in VotersOf(v, p) || (q == h && p in v'.votes[h])
    {
      if q in v'.level && q != h { Kept(v, v', h, q); }
    }
  }
}
