/** Two nodes can have different ledgers for the same leaders: the Merkle roots in a header do not
    bind the list of transaction references, so a block and its twin have one hash, and each is as
    valid as the other. */
module Twins {
  import opened Prelude
  import opened Blocks
  import opened BlockHashes
  import opened LedgerSpec
  import opened LedgerUpdate
  import opened ChainState
  import opened Validation
  import opened Buffer
  import opened IntakeSpec
  import opened Worker

  /** Its twin in place of the block. */
  ghost function TwinWorld(w: World, b: Block): World
    requires HasTwin(b)
  {
    w.(blocks := w.blocks[b.hash := Twin(b)])
  }

  predicate HasTwin(b: Block) {
    b.content.Proposer? && |b.content.transactionRefs| > 1 && |b.content.transactionRefs| % 2 == 1
  }

  /** The twin refers to what the block refers to. */
  lemma TwinReferences(b: Block, r: Reference)
    requires HasTwin(b) && r in References(Twin(b))
    ensures r in References(b)
  {
    var refs := b.content.transactionRefs;
    var i :| 0 <= i < |References(Twin(b))| && References(Twin(b))[i] == r;
    if r.ToTransaction? {
      assert r.hash in refs + [Last(refs)];
      var k :| 0 <= k < |refs| && refs[k] == r.hash;
      assert TransactionRefs(refs)[k] == r;
    }
  }

  lemma LawfulStays(rules: Rules, w: World, b: Block, x: Block)
    requires rules.widths.Valid() && HasTwin(b) && b.hash in w.blocks && w.blocks[b.hash] == b && Lawful(rules, w, x)
    ensures Lawful(rules, TwinWorld(w, b), x)
  {
    hide References, CheckPowSortitionId, ProvesContent, Hashed;
    forall r | r in References(x)
      ensures Named(TwinWorld(w, b), r) && Ranked(TwinWorld(w, b), x.hash, r)
    {
      assert Named(w, r) && Ranked(w, x.hash, r);
    }
  }

  lemma TwinIsLawful(rules: Rules, w: World, b: Block)
    requires rules.widths.Valid() && HasTwin(b) && Lawful(rules, w, b)
    ensures Lawful(rules, w, Twin(b))
  {
    hide References, CheckPowSortitionId, ProvesContent, Hashed, Named, Ranked;
    TwinProves(rules, b);
    forall r | r in References(Twin(b))
      ensures Named(w, r) && Ranked(w, Twin(b).hash, r)
    {
      TwinReferences(b, r);
    }
  }

  /** A valid set with one block replaced by its twin is valid. */
  lemma TwinWorldIsValid(c: Config, rules: Rules, w: World, b: Block)
    requires ValidWorld(c, rules, w) && HasTwin(b) && b.hash in w.blocks && w.blocks[b.hash] == b
    ensures ValidWorld(c, rules, TwinWorld(w, b))
  {
    hide Lawful, Rooted;
    var w' := TwinWorld(w, b);
    forall h | h in w'.blocks
      ensures w'.blocks[h].hash == h && Lawful(rules, w', w'.blocks[h])
    {
      LawfulStays(rules, w, b, w.blocks[h]);
      if h == b.hash {
        TwinIsLawful(rules, w', b);
      }
    }
    assert Rooted(c, w') by { RootedStays(c, w, b); }
  }

  lemma RootedStays(c: Config, w: World, b: Block)
    requires Rooted(c, w) && HasTwin(b) && b.hash in w.blocks
    ensures Rooted(c, TwinWorld(w, b)) && TwinWorld(w, b).blocks.Keys == w.blocks.Keys
  {
    assert TwinWorld(w, b).blocks.Keys == w.blocks.Keys;
    assert forall i | 0 <= i < |c.voterGenesis| :: RootedAt(w, c.voterGenesis[i], i);
  }

  /** All other proposer blocks of the first log are in the second. */
  ghost predicate AlikeBut(log: seq<Block>, log': seq<Block>, b: Block) {
    forall x | x in log && x.content.Proposer? && x != b :: x in log'
  }

  /** Two nodes, one with a block and one with its twin, and all other proposer blocks of the first
      alike in both: the same leaders confirm the same blocks, and when the block is among them,
      the two ledgers have different transactions. */
  lemma TwinsMakeTwoLedgers(c: Config, rules: Rules, x: Intake, p: seq<Block>, y: Intake, q: seq<Block>, b: Block,
                            leaders: map<nat, Hash>, n: nat)
    requires Base(c, rules, x, p) && Base(c, rules, y, q) && HasTwin(b) && b in x.log && Twin(b) in y.log && AlikeBut(x.log, y.log, b)
    requires Led(x.chain.db.proposers, leaders, n)
    ensures var g, g' := x.chain.db.proposers, y.chain.db.proposers;
            && Acyclic(g) && Acyclic(g') && Led(g', leaders, n) && Ledger(g', leaders, n) == Ledger(g, leaders, n)
            && var flat := Flatten(Ledger(g, leaders, n));
               && (forall h | h in flat :: h in g.txRefs && h in g'.txRefs)
               && LongerRefs(TransactionsOf(g, flat), TransactionsOf(g', flat), b.hash in flat)
  {
    hide Base, Ledger, Flatten, TransactionsOf, Led, LongerAt, AlikeBut;
    TwinGraphs(c, rules, x, p, y, q, b);
    TwoLedgers(x.chain.db.proposers, y.chain.db.proposers, leaders, n, b.hash);
  }

  /** The second graph extends the first, with one transaction reference more in one block. */
  ghost predicate LongerAt(g: Proposers, g': Proposers, h: Hash) {
    && Acyclic(g) && Acyclic(g') && Extends(g, g')
    && forall x | x in g.level :: x in g.txRefs && x in g'.txRefs && LongerRefs(g.txRefs[x], g'.txRefs[x], x == h)
  }

  ghost predicate LongerRefs(refs: seq<Hash>, refs': seq<Hash>, longer: bool) {
    if longer then |refs'| == |refs| + 1 else refs' == refs
  }

  lemma TwinGraphs(c: Config, rules: Rules, x: Intake, p: seq<Block>, y: Intake, q: seq<Block>, b: Block)
    requires Base(c, rules, x, p) && Base(c, rules, y, q) && HasTwin(b) && b in x.log && Twin(b) in y.log && AlikeBut(x.log, y.log, b)
    ensures LongerAt(x.chain.db.proposers, y.chain.db.proposers, b.hash)
  {
    hide Base, AlikeBut, LinkedWithin, HasTwin, Known, ValidState, Recorded;
    var g, g' := x.chain.db.proposers, y.chain.db.proposers;
    GraphAndLog(c, rules, x, p);
    GraphAndLog(c, rules, y, q);
    GraphOf(c, x.chain);
    GraphOf(c, y.chain);
    hide Acyclic;
    AlikeLinks(x.log, y.log, b);
    forall h | h in g.level
      ensures SameLinks(g, g', h) && h in g.txRefs && h in g'.txRefs
      ensures LongerRefs(g.txRefs[h], g'.txRefs[h], h == b.hash)
    {
      LinksAlike(c, rules, x, p, y, q, h);
      TwinEntry(c, rules, x, p, y, q, b, h);
    }
  }

  lemma TwoLedgers(g: Proposers, g': Proposers, leaders: map<nat, Hash>, n: nat, h: Hash)
    requires LongerAt(g, g', h) && Led(g, leaders, n)
    ensures Acyclic(g) && Acyclic(g') && Led(g', leaders, n) && Ledger(g', leaders, n) == Ledger(g, leaders, n)
    ensures var flat := Flatten(Ledger(g, leaders, n));
            && (forall x | x in flat :: x in g.txRefs && x in g'.txRefs)
            && LongerRefs(TransactionsOf(g, flat), TransactionsOf(g', flat), h in flat)
  {
    hide Acyclic, Extends, Ledger, Flatten, TransactionsOf, NoDup;
    LedgerStable(g, g', leaders, leaders, n);
    LedgerHasNoDup(g, leaders, n);
    OneMoreTransaction(g, g', Flatten(Ledger(g, leaders, n)), h);
  }

  lemma AlikeLinks(log: seq<Block>, log': seq<Block>, b: Block)
    requires HasTwin(b) && b in log && Twin(b) in log' && AlikeBut(log, log', b)
    ensures LinkedWithin(log, log')
  {
    forall x | x in log && x.content.Proposer?
      ensures exists x' :: x' in log' && LinkedAlike(x, x')
    {
      assert LinkedAlike(x, if x == b then Twin(b) else x);
    }
  }

  lemma TwinEntry(c: Config, rules: Rules, x: Intake, p: seq<Block>, y: Intake, q: seq<Block>, b: Block, h: Hash)
    requires Base(c, rules, x, p) && Base(c, rules, y, q) && HasTwin(b) && b in x.log && Twin(b) in y.log && AlikeBut(x.log, y.log, b)
    requires h in x.chain.db.proposers.level
    ensures h in x.chain.db.proposers.txRefs && h in y.chain.db.proposers.txRefs
    ensures LongerRefs(x.chain.db.proposers.txRefs[h], y.chain.db.proposers.txRefs[h], h == b.hash)
  {
    hide Base, ValidState, Known;
    GraphAndLog(c, rules, x, p);
    GraphAndLog(c, rules, y, q);
    assert BlockRecorded(x.chain.db.proposers, b) && BlockRecorded(y.chain.db.proposers, Twin(b));
    if h == c.proposerGenesis {
      LoggedIsNoGenesis(c, rules, x, p, b);
    } else if h != b.hash {
      var a := LoggedAs(c, rules, x, p, h);
      assert BlockRecorded(x.chain.db.proposers, a) && BlockRecorded(y.chain.db.proposers, a);
    }
  }

  lemma LoggedIsNoGenesis(c: Config, rules: Rules, x: Intake, p: seq<Block>, b: Block)
    requires Base(c, rules, x, p) && b in x.log
    ensures b.hash != c.proposerGenesis
  {
    hide ValidState, FromStore, InOrder, Keyed, Vetted, Known, Unique, Recorded;
    assert b.hash in HashesOf(x.log);
  }

  lemma {:induction false} OneMoreTransaction(g: Proposers, g': Proposers, s: seq<Hash>, h: Hash)
    requires NoDup(s) && forall x | x in s :: x in g.txRefs && x in g'.txRefs
    requires forall x | x in s :: LongerRefs(g.txRefs[x], g'.txRefs[x], x == h)
    ensures LongerRefs(TransactionsOf(g, s), TransactionsOf(g', s), h in s)
  {
    if s != [] {
      OneMoreTransaction(g, g', Init(s), h);
      assert s == Init(s) + [Last(s)];
      assert h in s <==> h in Init(s) || h == Last(s);
    }
  }

  /** The list has exactly the blocks of the set. */
  ghost predicate Listing(w: World, list: seq<Block>) {
    && (forall x | x in list :: x.hash in w.blocks && w.blocks[x.hash] == x)
    && forall h | h in w.blocks :: w.blocks[h] in list
  }

  function Swapped(list: seq<Block>, b: Block): seq<Block>
    requires HasTwin(b)
  {
    seq(|list|, i requires 0 <= i < |list| => if list[i] == b then Twin(b) else list[i])
  }

  lemma SwappedListing(w: World, list: seq<Block>, b: Block)
    requires HasTwin(b) && Listing(w, list) && b.hash in w.blocks && w.blocks[b.hash] == b
    requires forall h | h in w.blocks :: w.blocks[h].hash == h
    ensures Listing(TwinWorld(w, b), Swapped(list, b))
  {
    var w', list' := TwinWorld(w, b), Swapped(list, b);
    forall h | h in w'.blocks
      ensures w'.blocks[h] in list'
    {
      var i :| 0 <= i < |list| && list[i] == w.blocks[h];
      assert list'[i] == w'.blocks[h];
    }
  }

  /** A listed set arrives whole. */
  lemma {:induction false} ListedArrives(rules: Rules, w: World, list: seq<Block>)
    requires rules.widths.Valid() && forall x | x in list :: x.hash in w.blocks && w.blocks[x.hash] == x
    requires forall x | x in list :: CheckPowSortitionId(rules, x) == Pass
    ensures Arrivals(rules, map[], list) == map h | h in HashesOf(list) :: w.blocks[h]
  {
    hide CheckPowSortitionId;
    if list != [] {
      assert list == Init(list) + [Last(list)];
      HashesOfSnoc(Init(list), Last(list));
      ListedArrives(rules, w, Init(list));
    }
  }

  lemma ListedPasses(c: Config, rules: Rules, w: World, list: seq<Block>)
    requires ValidWorld(c, rules, w) && Listing(w, list)
    ensures rules.widths.Valid() && Proper(c, rules, list) && !Panics(rules, list) && Arrivals(rules, map[], list) == w.blocks
  {
    hide CheckPowSortitionId, ProvesContent, LawfulContent, Named, Ranked, Hashed, GenesisHashes;
    forall x | x in list
      ensures Hashed(rules.hashes, x) && x.hash !in GenesisHashes(c) && CheckPowSortitionId(rules, x) == Pass
    {
      NotGenesis(c, rules, w, x.hash);
    }
    hide ValidWorld;
    ListedArrives(rules, w, list);
    forall h | h in w.blocks
      ensures h in HashesOf(list)
    {
      assert w.blocks[h] in list;
      OwnHashes(c, rules, w);
    }
    assert forall x | x in list :: x.hash in w.blocks;
  }

  /** A worker that gets a valid set in one message has exactly this set in its chain. */
  method DeliverSet(config: Config, rules: Rules, ghost world: World, list: seq<Block>) returns (worker: BlockWorker)
    requires ValidConfig(config) && ValidWorld(config, rules, world) && Listing(world, list)
    ensures fresh(worker) && fresh(worker.chain) && fresh(worker.buffer) && worker.chain.config == config && worker.rules == rules
    ensures worker.Valid() && !worker.crashed && worker.world == world && worker.processed == world.blocks
    ensures Delivered(world, worker.log)
  {
    hide ValidWorld, ValidConfig, Listing, Proper, Panics, Arrivals, Consistent, Delivered, Keyed, Inverse;
    ListedPasses(config, rules, world, list);
    worker := new BlockWorker(config, rules, world);
    worker.HandleBlocks(list);
    ghost var x := worker.View().(stored := worker.processed);
    DeliveredIffStored(config, rules, world, x);
  }

  /** For any leaders two nodes confirm the same blocks in the same order, and as soon as a
      certain block is among them, other transactions. */
  ghost predicate LedgersDiffer(g: Proposers, g': Proposers, h: Hash) {
    && Acyclic(g) && Acyclic(g')
    && forall leaders: map<nat, Hash>, n: nat | Led(g, leaders, n) :: LedgerDiffers(g, g', h, leaders, n)
  }

  ghost predicate LedgerDiffers(g: Proposers, g': Proposers, h: Hash, leaders: map<nat, Hash>, n: nat)
    requires Acyclic(g) && Acyclic(g') && Led(g, leaders, n)
  {
    && Led(g', leaders, n) && Ledger(g', leaders, n) == Ledger(g, leaders, n)
    && var flat := Flatten(Ledger(g, leaders, n));
       && (forall x | x in flat :: x in g.txRefs && x in g'.txRefs)
       && (TransactionsOf(g', flat) == TransactionsOf(g, flat) <==> h !in flat)
  }

  lemma AllLedgersDiffer(g: Proposers, g': Proposers, h: Hash)
    requires LongerAt(g, g', h)
    ensures LedgersDiffer(g, g', h)
  {
    hide LongerAt, Led, Ledger, Flatten, TransactionsOf;
    assert Acyclic(g) && Acyclic(g') by { LongerIsAcyclic(g, g', h); }
    hide Acyclic;
    forall leaders: map<nat, Hash>, n: nat | Led(g, leaders, n)
      ensures LedgerDiffers(g, g', h, leaders, n)
    {
      TwoLedgers(g, g', leaders, n, h);
    }
  }

  lemma LongerIsAcyclic(g: Proposers, g': Proposers, h: Hash)
    requires LongerAt(g, g', h)
    ensures Acyclic(g) && Acyclic(g')
  {
    hide Acyclic;
  }

  lemma DeliveredTwins(c: Config, rules: Rules, w: World, x: Intake, y: Intake, b: Block)
    requires HasTwin(b) && b.hash in w.blocks && w.blocks[b.hash] == b
    requires Consistent(c, rules, w, x, []) && Consistent(c, rules, TwinWorld(w, b), y, []) && x.stored == w.blocks
    requires Delivered(w, x.log) && Delivered(TwinWorld(w, b), y.log)
    ensures LongerAt(x.chain.db.proposers, y.chain.db.proposers, b.hash)
  {
    hide ValidState, ValidWorld, Accounted, InOrder, Vetted, Keyed, Recorded, OnTrack, HasTwin, LongerAt;
    var w' := TwinWorld(w, b);
    forall a | a in x.log && a.content.Proposer? && a != b
      ensures a in y.log
    {
      assert StoredAs(x.stored, a) && w'.blocks[a.hash] == a;
    }
    assert w.blocks[b.hash] in x.log && w'.blocks[b.hash] in y.log;
    hide Base, Delivered;
    TwinGraphs(c, rules, x, [], y, [], b);
  }

  /** The same set, once with a block and once with its twin, given to two workers: both have the
      whole set in the chain, and different ledgers for the same leaders. */
  method TwinDelivery(config: Config, rules: Rules, ghost world: World, list: seq<Block>, b: Block)
    returns (worker: BlockWorker, worker': BlockWorker)
    requires ValidConfig(config) && ValidWorld(config, rules, world) && Listing(world, list)
    requires HasTwin(b) && b.hash in world.blocks && world.blocks[b.hash] == b
    ensures worker.Valid() && worker'.Valid() && ValidWorld(config, rules, TwinWorld(world, b))
    ensures Delivered(world, worker.log) && Delivered(TwinWorld(world, b), worker'.log)
    ensures LedgersDiffer(worker.chain.db.proposers, worker'.chain.db.proposers, b.hash)
  {
    hide ValidWorld, ValidConfig, Listing, Consistent, Delivered, Keyed, Inverse, HasTwin, LongerAt, LedgersDiffer, TwinWorld, Swapped;
    TwinWorldIsValid(config, rules, world, b);
    OwnHashes(config, rules, world);
    SwappedListing(world, list, b);
    worker := DeliverSet(config, rules, world, list);
    worker' := DeliverSet(config, rules, TwinWorld(world, b), Swapped(list, b));
    ghost var x, y := worker.View().(stored := worker.processed), worker'.View().(stored := worker'.processed);
    DeliveredTwins(config, rules, world, x, y, b);
    AllLedgersDiffer(worker.chain.db.proposers, worker'.chain.db.proposers, b.hash);
  }
}
