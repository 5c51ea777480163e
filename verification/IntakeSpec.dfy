/** What the worker loop of src/network/worker.rs keeps, and why blocks that arrive in any order
    all end up in the chain. */
module IntakeSpec {
  import opened Prelude
  import opened Blocks
  import opened BlockHashes
  import opened LedgerSpec
  import opened LedgerUpdate
  import opened ProposerGraph
  import opened VoteLevels
  import opened ChainSteps
  import opened ChainState
  import opened Validation
  import opened Buffer

  ghost function GenesisHashes(c: Config): set<Hash> {
    Elements(c.voterGenesis) + {c.proposerGenesis}
  }

  /** The hashes a block refers to. */
  ghost function Needs(b: Block): set<Hash> {
    set r | r in References(b) :: r.hash
  }

  /** A set of blocks, and for each the level, voter chain and deepest voted level it is going to
      have, and its place in an order that puts references first. */
  datatype World = World(blocks: map<Hash, Block>, level: map<Hash, nat>, chain: map<Hash, nat>, voted: map<Hash, nat>, rank: map<Hash, nat>)

  /** The reference names a block of the set, or genesis, of the right kind. */
  ghost predicate Named(w: World, r: Reference) {
    match r
    case ToProposer(h) => h in w.level
    case ToVoter(h) => h in w.chain
    case ToTransaction(h) => h in w.blocks && w.blocks[h].content.Transaction?
  }

  ghost predicate Ranked(w: World, h: Hash, r: Reference) {
    r.hash in w.blocks ==> r.hash in w.rank && h in w.rank && w.rank[r.hash] < w.rank[h]
  }

  /** A valid block whose references lie in the set. */
  ghost predicate Lawful(rules: Rules, w: World, b: Block)
    requires rules.widths.Valid()
  {
    && Hashed(rules.hashes, b) && CheckPowSortitionId(rules, b) == Pass && ProvesContent(rules, b) && Signed(rules, b)
    && (forall r | r in References(b) :: Named(w, r) && Ranked(w, b.hash, r))
    && LawfulContent(w, b)
  }

  ghost predicate LawfulContent(w: World, b: Block) {
    && b.header.parent in w.level
    && match b.content
       case Proposer(_, refs) =>
         && b.hash in w.level && w.level[b.hash] == w.level[b.header.parent] + 1
         && forall r | r in refs :: r in w.level && w.level[r] <= w.level[b.header.parent]
       case Voter(chain, parent, votes) =>
         && parent in w.chain && parent in w.voted && b.hash in w.chain && b.hash in w.voted
         && w.chain[b.hash] == w.chain[parent] == chain && w.voted[b.hash] == w.level[b.header.parent]
         && CoversLevels(votes, w.level, w.voted[parent], w.level[b.header.parent])
       case Transaction(_) => true
  }

  /** A finite set of valid blocks, closed under references. */
  ghost predicate ValidWorld(c: Config, rules: Rules, w: World) {
    && rules.widths.Valid() && Rooted(c, w)
    && (forall h | h in w.level && h != c.proposerGenesis :: h in w.blocks && w.blocks[h].content.Proposer?)
    && w.voted.Keys == w.chain.Keys
    && (forall h | h in w.chain && h !in c.voterGenesis :: h in w.blocks && w.blocks[h].content.Voter?)
    && forall h | h in w.blocks :: w.blocks[h].hash == h && Lawful(rules, w, w.blocks[h])
  }

  ghost predicate Rooted(c: Config, w: World) {
    && GenesisHashes(c) !! w.blocks.Keys
    && c.proposerGenesis in w.level && w.level[c.proposerGenesis] == 0
    && forall i | 0 <= i < |c.voterGenesis| :: RootedAt(w, c.voterGenesis[i], i)
  }

  ghost predicate RootedAt(w: World, h: Hash, i: nat) {
    h in w.chain && w.chain[h] == i && h in w.voted && w.voted[h] == 0
  }

  /** The chain knows the blocks of the set as they are meant to be. */
  ghost predicate Agrees(c: Config, w: World, s: State) {
    && (forall h | h in w.level && h in Known(c, s) :: LevelAgrees(w, s, h))
    && forall h | h in w.chain && h in Known(c, s) :: VoterAgrees(w, s, h)
  }

  ghost predicate LevelAgrees(w: World, s: State, h: Hash)
    requires h in w.level
  {
    h in s.db.proposers.level && s.db.proposers.level[h] == w.level[h]
  }

  ghost predicate VoterAgrees(w: World, s: State, h: Hash)
    requires h in w.chain
  {
    && h in s.db.voters.level && h in s.db.voters.chain && s.db.voters.chain[h] == w.chain[h]
    && h in s.db.voters.votedLevel && h in w.voted && s.db.voters.votedLevel[h] == w.voted[h]
  }

  lemma PresentIsKnown(c: Config, s: State, r: Reference)
    requires ValidState(c, s) && Present(s, r)
    ensures r.hash in Known(c, s)
  {
    hide GraphOk, UnreferredExact, VotersOk, IndexOk, LedgerOk, ValidConfig;
  }

  lemma PresentIffKnown(c: Config, w: World, s: State, r: Reference)
    requires ValidState(c, s) && Agrees(c, w, s) && Named(w, r) && c.proposerGenesis !in w.blocks
    ensures Present(s, r) <==> r.hash in Known(c, s)
  {
    hide ValidState;
    if Present(s, r) {
      PresentIsKnown(c, s, r);
    }
  }

  /** What a lawful block waits for is what it refers to and the chain does not have. */
  lemma AbsentIsNeeded(c: Config, rules: Rules, w: World, s: State, b: Block)
    requires ValidState(c, s) && rules.widths.Valid() && Agrees(c, w, s) && Lawful(rules, w, b) && c.proposerGenesis !in w.blocks
    ensures Elements(Absent(s, References(b))) == Needs(b) - Known(c, s)
  {
    hide ValidState, Agrees, Absent, Present, CheckPowSortitionId, ProvesContent, LawfulContent, Named, Ranked;
    forall h: Hash
      ensures h in Elements(Absent(s, References(b))) <==> h in Needs(b) - Known(c, s)
    {
      AbsentMember(s, References(b), h);
      forall r | r in References(b)
        ensures Present(s, r) <==> r.hash in Known(c, s)
      {
        PresentIffKnown(c, w, s, r);
      }
    }
  }

  /** Whatever is available refers to known blocks only. */
  lemma AvailableIsKnown(c: Config, s: State, b: Block)
    requires ValidState(c, s) && Available(s, b)
    ensures Needs(b) <= Known(c, s)
  {
    hide ValidState, Available, Known, References;
    forall r | r in References(b)
      ensures r.hash in Known(c, s)
    {
      AvailableRefs(s, b, r);
      PresentIsKnown(c, s, r);
    }
  }

  /** A lawful block passes `check_content_semantic` as soon as its references are there. */
  lemma LawfulPasses(c: Config, rules: Rules, w: World, s: State, b: Block)
    requires ValidState(c, s) && rules.widths.Valid() && Agrees(c, w, s) && Lawful(rules, w, b) && Available(s, b)
    ensures Acceptable(s, b) && Signed(rules, b)
  {
    hide ValidState, CheckPowSortitionId, ProvesContent, Named, Ranked, Absent;
    AvailableBlock(s, b);
    AvailableAgrees(c, w, s, b);
  }

  lemma AvailableAgrees(c: Config, w: World, s: State, b: Block)
    requires ValidState(c, s) && Agrees(c, w, s) && LawfulContent(w, b) && Available(s, b)
    ensures LevelAgrees(w, s, b.header.parent)
    ensures b.content.Proposer? ==> forall h | h in b.content.proposerRefs :: LevelAgrees(w, s, h)
    ensures b.content.Voter? ==> VoterAgrees(w, s, b.content.voterParent)
    ensures b.content.Voter? ==> forall h | h in b.content.votes :: h in w.level && LevelAgrees(w, s, h)
  {
    hide ValidState, LevelAgrees, VoterAgrees, Available, Absent;
    AvailableBlock(s, b);
    forall h | h in s.db.proposers.level
      ensures h in Known(c, s)
    {
      PresentIsKnown(c, s, ToProposer(h));
    }
    forall h | h in s.db.voters.level
      ensures h in Known(c, s)
    {
      PresentIsKnown(c, s, ToVoter(h));
    }
  }

  /** Not another block under the hash of a block of the set. */
  ghost predicate Genuine(w: World, b: Block) {
    b.hash in w.blocks ==> w.blocks[b.hash] == b
  }

  lemma KnownAfter(c: Config, s: State, b: Block)
    requires Acceptable(s, b)
    ensures Known(c, Inserted(s, b)) == Known(c, s) + {b.hash}
  {
    hide Acceptable, Inserted;
    ParentAfter(s, b);
  }

  /** Insertion keeps what the chain knows about other blocks, and enters the new one as the
      set has it. */
  lemma AgreesAfter(c: Config, rules: Rules, w: World, s: State, b: Block)
    requires ValidState(c, s) && b.hash !in Known(c, s) && Acceptable(s, b) && ValidWorld(c, rules, w) && Agrees(c, w, s)
    requires Genuine(w, b) && b.hash !in GenesisHashes(c) && Needs(b) <= Known(c, s)
    ensures Agrees(c, w, Inserted(s, b))
  {
    hide ValidState, Lawful, Needs, Inserted, ValidWorld, GenesisHashes, RefsBelow, CoversLevels, Genuine;
    KnownAfter(c, s, b);
    GraphAfter(s, b);
    var s' := Inserted(s, b);
    forall h | h in w.level && h in Known(c, s')
      ensures LevelAgrees(w, s', h)
    {
      if h == b.hash {
        NewLevelAgrees(c, rules, w, s, b);
      }
    }
    forall h | h in w.chain && h in Known(c, s')
      ensures VoterAgrees(w, s', h)
    {
      if h == b.hash {
        NewVoterAgrees(c, rules, w, s, b);
      }
    }
  }

  lemma GenuineIsLawful(c: Config, rules: Rules, w: World, b: Block)
    requires ValidWorld(c, rules, w) && Genuine(w, b) && b.hash !in GenesisHashes(c)
    ensures rules.widths.Valid()
    ensures b.hash in w.level ==> b.content.Proposer? && Lawful(rules, w, b)
    ensures b.hash in w.chain ==> b.content.Voter? && Lawful(rules, w, b)
  {
    hide Lawful, Rooted;
    assert b.hash in Elements(c.voterGenesis) <==> b.hash in c.voterGenesis;
  }

  lemma NeedsParents(b: Block)
    ensures b.header.parent in Needs(b)
    ensures b.content.Voter? ==> b.content.voterParent in Needs(b)
  {
    assert ToProposer(b.header.parent) == References(b)[0];
    assert b.content.Voter? ==> ToVoter(b.content.voterParent) == References(b)[1];
  }

  lemma LawfulContentOf(rules: Rules, w: World, b: Block)
    requires rules.widths.Valid() && Lawful(rules, w, b)
    ensures LawfulContent(w, b)
  {
  }

  lemma NewLevelAgrees(c: Config, rules: Rules, w: World, s: State, b: Block)
    requires ValidState(c, s) && Acceptable(s, b) && ValidWorld(c, rules, w) && Agrees(c, w, s)
    requires Genuine(w, b) && b.hash !in GenesisHashes(c) && b.hash in w.level && Needs(b) <= Known(c, s)
    ensures LevelAgrees(w, Inserted(s, b), b.hash)
  {
    hide ValidState, ValidWorld, Genuine, GenesisHashes, Lawful, Needs, CoversLevels, RefsBelow, Inserted, Known;
    GraphAfter(s, b);
    WorldWidths(c, rules, w);
    GenuineIsLawful(c, rules, w, b);
    LawfulContentOf(rules, w, b);
    NeedsParents(b);
    assert LevelAgrees(w, s, b.header.parent);
  }

  lemma NewVoterAgrees(c: Config, rules: Rules, w: World, s: State, b: Block)
    requires ValidState(c, s) && Acceptable(s, b) && ValidWorld(c, rules, w) && Agrees(c, w, s)
    requires Genuine(w, b) && b.hash !in GenesisHashes(c) && b.hash in w.chain && Needs(b) <= Known(c, s)
    ensures VoterAgrees(w, Inserted(s, b), b.hash)
  {
    hide ValidState, ValidWorld, Genuine, GenesisHashes, Lawful, Needs, CoversLevels, RefsBelow, Inserted, Known;
    GraphAfter(s, b);
    WorldWidths(c, rules, w);
    GenuineIsLawful(c, rules, w, b);
    LawfulContentOf(rules, w, b);
    NeedsParents(b);
    assert LevelAgrees(w, s, b.header.parent);
    assert VoterAgrees(w, s, b.content.voterParent);
  }

  lemma WorldWidths(c: Config, rules: Rules, w: World)
    requires ValidWorld(c, rules, w)
    ensures rules.widths.Valid()
  {
  }

  /** The graph stores a block with its own references, and as a proposer block only if it is
      one. */
  ghost predicate BlockRecorded(g: Proposers, b: Block) {
    if b.content.Proposer? then
      && b.hash in g.refs && g.refs[b.hash] == [b.header.parent] + b.content.proposerRefs
      && b.hash in g.txRefs && g.txRefs[b.hash] == b.content.transactionRefs
    else b.hash !in g.refs
  }

  /** The graph is made of genesis and the inserted blocks. */
  ghost predicate Recorded(genesis: Hash, g: Proposers, log: seq<Block>) {
    && genesis in g.refs && g.refs[genesis] == [] && genesis in g.txRefs && g.txRefs[genesis] == []
    && forall b | b in log :: BlockRecorded(g, b)
  }

  lemma RecordedAfter(c: Config, s: State, log: seq<Block>, b: Block)
    requires Acceptable(s, b) && b.hash !in Known(c, s) && b.hash !in s.db.proposers.refs
    requires Recorded(c.proposerGenesis, s.db.proposers, log) && b.hash !in HashesOf(log)
    ensures Recorded(c.proposerGenesis, Inserted(s, b).db.proposers, log + [b])
  {
    hide Acceptable, Inserted;
    RefsAfter(s, b);
    var g, g' := s.db.proposers, Inserted(s, b).db.proposers;
    forall x | x in log + [b]
      ensures BlockRecorded(g', x)
    {
      if x in log {
        assert BlockRecorded(g, x) && x.hash in HashesOf(log);
      } else {
        assert x == b;
      }
    }
  }

  lemma NotYetRecorded(c: Config, s: State, h: Hash)
    requires ValidState(c, s) && h !in Known(c, s)
    ensures h !in s.db.proposers.refs
  {
    hide UnreferredExact, VotersOk, IndexOk, LedgerOk, ValidConfig, Acyclic, LevelsListed, BestLevel;
  }

  /** A worker's view of its state: the chain, the buffer, the block database, the blocks thrown
      away, and the blocks inserted so far in order. */
  datatype Intake = Intake(
    chain: State, blocks: map<Hash, Block>, dependency: map<Hash, set<Hash>>, stored: map<Hash, Block>, rejected: set<Hash>,
    log: seq<Block>)

  ghost function HashesOf(list: seq<Block>): set<Hash> {
    set b | b in list :: b.hash
  }

  ghost predicate Unique(list: seq<Block>) {
    forall i, j | 0 <= i < j < |list| :: list[i].hash != list[j].hash
  }

  /** Every block is inserted after all it refers to. */
  ghost predicate InOrder(c: Config, log: seq<Block>) {
    forall i | 0 <= i < |log| :: Needs(log[i]) <= GenesisHashes(c) + HashesOf(log[..i])
  }

  /** Every stored block is in exactly one place, once. */
  ghost predicate Accounted(c: Config, x: Intake, pending: seq<Block>) {
    && Known(c, x.chain) == GenesisHashes(c) + HashesOf(x.log)
    && x.stored.Keys == HashesOf(x.log) + x.blocks.Keys + HashesOf(pending) + x.rejected
    && Apart(GenesisHashes(c), HashesOf(x.log), x.blocks.Keys, HashesOf(pending), x.rejected)
    && Unique(x.log) && Unique(pending)
  }

  ghost predicate Apart(a: set<Hash>, b: set<Hash>, c: set<Hash>, d: set<Hash>, e: set<Hash>) {
    a !! b && a !! c && a !! d && a !! e && b !! c && b !! d && b !! e && c !! d && c !! e && d !! e
  }

  ghost predicate StoredAs(stored: map<Hash, Block>, b: Block) {
    b.hash in stored && stored[b.hash] == b
  }

  /** Only stored blocks are anywhere. */
  ghost predicate FromStore(x: Intake, pending: seq<Block>) {
    && (forall b | b in pending :: StoredAs(x.stored, b))
    && (forall b | b in x.log :: StoredAs(x.stored, b))
    && forall h | h in x.blocks :: x.blocks[h].hash == h && StoredAs(x.stored, x.blocks[h])
  }

  /** Every inserted block proved its content and is signed. */
  ghost predicate Vetted(rules: Rules, log: seq<Block>)
    requires rules.widths.Valid()
  {
    forall b | b in log :: ProvesContent(rules, b) && Signed(rules, b)
  }

  /** What holds of a worker whatever arrives. */
  ghost predicate Base(c: Config, rules: Rules, x: Intake, pending: seq<Block>) {
    && ValidState(c, x.chain) && rules.widths.Valid()
    && Accounted(c, x, pending) && FromStore(x, pending) && InOrder(c, x.log) && Vetted(rules, x.log)
    && Keyed(x.blocks, x.dependency) && Recorded(c.proposerGenesis, x.chain.db.proposers, x.log)
  }

  /** No other block is stored under the hash of a block of the set. */
  ghost predicate Unspoiled(w: World, stored: map<Hash, Block>) {
    forall h | h in w.blocks && h in stored :: stored[h] == w.blocks[h]
  }

  /** A buffered block of the set waits for exactly what it needs and the chain does not have. */
  ghost predicate WaitsForMissing(c: Config, w: World, x: Intake) {
    forall h | h in x.blocks && h in w.blocks ::
      h in x.dependency && x.dependency[h] == Needs(w.blocks[h]) - Known(c, x.chain) && x.dependency[h] != {}
  }

  /** The worker is on its way to have the whole set in the chain. */
  ghost predicate OnTrack(c: Config, w: World, x: Intake) {
    Agrees(c, w, x.chain) && WaitsForMissing(c, w, x) && x.rejected !! w.blocks.Keys
  }

  ghost predicate Consistent(c: Config, rules: Rules, w: World, x: Intake, pending: seq<Block>) {
    Base(c, rules, x, pending) && ValidWorld(c, rules, w) && (Unspoiled(w, x.stored) ==> OnTrack(c, w, x))
  }

  lemma HashesOfSnoc(rest: seq<Block>, b: Block)
    ensures HashesOf(rest + [b]) == HashesOf(rest) + {b.hash}
    ensures Unique(rest + [b]) <==> Unique(rest) && b.hash !in HashesOf(rest)
  {
    var all := rest + [b];
    forall h: Hash
      ensures h in HashesOf(all) <==> h in HashesOf(rest) || h == b.hash
    {
      assert forall x: Block :: x in all <==> x in rest || x == b;
    }
    if Unique(all) {
      assert forall i | 0 <= i < |rest| :: all[i] == rest[i];
      forall x | x in rest
        ensures x.hash != b.hash
      {
        var i :| 0 <= i < |rest| && rest[i] == x;
        assert all[i].hash != all[|rest|].hash;
      }
    }
    if Unique(rest) && b.hash !in HashesOf(rest) {
      forall i, j | 0 <= i < j < |all|
        ensures all[i].hash != all[j].hash
      {
        assert i < |rest| ==> all[i] in rest;
      }
    }
  }

  ghost function Waiting(x: Intake, b: Block, missing: seq<Hash>): Intake {
    x.(blocks := x.blocks[b.hash := b], dependency := x.dependency[b.hash := Elements(missing)])
  }

  /** The popped block goes to the buffer. */
  lemma BufferStep(c: Config, rules: Rules, w: World, x: Intake, rest: seq<Block>, b: Block, missing: seq<Hash>)
    requires Consistent(c, rules, w, x, rest + [b])
    requires missing == Absent(x.chain, References(b)) && missing != []
    ensures b.hash !in x.blocks
    ensures Consistent(c, rules, w, Waiting(x, b, missing), rest)
  {
    hide ValidWorld, OnTrack, Waiting;
    BufferBase(c, rules, x, rest, b, missing);
    hide Base;
    if Unspoiled(w, x.stored) {
      BufferOnTrack(c, rules, w, x, rest, b, missing);
    }
    assert Waiting(x, b, missing).stored == x.stored by { WaitingStored(x, b, missing); }
  }

  lemma WaitingStored(x: Intake, b: Block, missing: seq<Hash>)
    ensures Waiting(x, b, missing).stored == x.stored
  {
  }

  lemma BufferBase(c: Config, rules: Rules, x: Intake, rest: seq<Block>, b: Block, missing: seq<Hash>)
    requires Base(c, rules, x, rest + [b])
    ensures b.hash !in x.blocks && Base(c, rules, Waiting(x, b, missing), rest)
  {
    hide ValidState, Known, InOrder, HashesOf, Unique, GenesisHashes, Recorded, Vetted;
    HashesOfSnoc(rest, b);
    assert b in rest + [b];
    assert forall y | y in rest :: y in rest + [b];
  }

  lemma BufferOnTrack(c: Config, rules: Rules, w: World, x: Intake, rest: seq<Block>, b: Block, missing: seq<Hash>)
    requires Base(c, rules, x, rest + [b]) && ValidWorld(c, rules, w) && Unspoiled(w, x.stored) && OnTrack(c, w, x)
    requires missing == Absent(x.chain, References(b)) && missing != []
    ensures OnTrack(c, w, Waiting(x, b, missing))
  {
    hide ValidState, Agrees, Lawful, Needs, Absent, Known, InOrder, Accounted, Unique, GenesisHashes, References, Recorded, Vetted, Keyed;
    assert b in rest + [b];
    assert missing[0] in Elements(missing);
    if b.hash in w.blocks {
      assert Rooted(c, w);
      GenesisNotInWorld(c, w);
      AbsentIsNeeded(c, rules, w, x.chain, b);
    }
  }

  lemma GenesisNotInWorld(c: Config, w: World)
    requires Rooted(c, w)
    ensures c.proposerGenesis !in w.blocks
  {
    assert c.proposerGenesis in GenesisHashes(c);
  }

  /** The popped block is thrown away. */
  lemma RejectStep(c: Config, rules: Rules, w: World, x: Intake, rest: seq<Block>, b: Block)
    requires Consistent(c, rules, w, x, rest + [b]) && (Unspoiled(w, x.stored) ==> b.hash !in w.blocks)
    ensures Consistent(c, rules, w, x.(rejected := x.rejected + {b.hash}), rest)
  {
    hide ValidState, Agrees, Needs, Known, InOrder, HashesOf, Unique, GenesisHashes, ValidWorld, Recorded, Vetted, Keyed, Unspoiled;
    HashesOfSnoc(rest, b);
    assert forall y | y in rest :: y in rest + [b];
  }

  /** A block of the set is never thrown away. */
  lemma NeverRejected(c: Config, rules: Rules, w: World, x: Intake, rest: seq<Block>, b: Block)
    requires Consistent(c, rules, w, x, rest + [b]) && Available(x.chain, b)
    ensures Unspoiled(w, x.stored) && b.hash in w.blocks ==> ProvesContent(rules, b) && Acceptable(x.chain, b) && Signed(rules, b)
  {
    hide ValidState, Agrees, Known, InOrder, Accounted, WaitsForMissing, Acceptable, Available, ProvesContent, CheckPowSortitionId,
      Signed, LawfulContent, Named, Ranked, Recorded, Vetted, Keyed;
    if Unspoiled(w, x.stored) && b.hash in w.blocks {
      assert b in rest + [b];
      LawfulPasses(c, rules, w, x.chain, b);
    }
  }

  /** The blocks a `satisfy` frees, as a list. */
  lemma FreedHashes(resolved: seq<Block>, freed: set<Hash>, blocks: map<Hash, Block>)
    requires Lists(resolved, freed, blocks) && forall h | h in blocks :: blocks[h].hash == h
    ensures HashesOf(resolved) == freed && Unique(resolved)
    ensures forall b | b in resolved :: b.hash in blocks && b == blocks[b.hash]
  {
    hide NoDup;
    forall h: Hash
      ensures h in HashesOf(resolved) <==> h in freed
    {
      if h in freed {
        assert blocks[h] in resolved;
      }
    }
    UniqueBlocks(resolved, freed, blocks);
  }

  lemma UniqueBlocks(resolved: seq<Block>, freed: set<Hash>, blocks: map<Hash, Block>)
    requires Lists(resolved, freed, blocks)
    ensures Unique(resolved)
  {
    forall i, j | 0 <= i < j < |resolved|
      ensures resolved[i].hash != resolved[j].hash
    {
      assert resolved[i] in resolved && resolved[j] in resolved;
      assert resolved[i] != resolved[j];
    }
  }

  lemma HashesOfConcat(a: seq<Block>, b: seq<Block>)
    ensures HashesOf(a + b) == HashesOf(a) + HashesOf(b)
    ensures Unique(a) && Unique(b) && HashesOf(a) !! HashesOf(b) ==> Unique(a + b)
  {
    var all := a + b;
    assert forall x: Block :: x in all <==> x in a || x in b;
    if Unique(a) && Unique(b) && HashesOf(a) !! HashesOf(b) {
      forall i, j | 0 <= i < j < |all|
        ensures all[i].hash != all[j].hash
      {
        assert i < |a| <= j ==> all[i] in a && all[j] in b && all[i].hash in HashesOf(a) && all[j].hash in HashesOf(b);
      }
    }
  }

  /** The state after the popped block was inserted and its dependents were released. */
  ghost function Advanced(x: Intake, b: Block): Intake
    requires Acceptable(x.chain, b)
  {
    x.(chain := Inserted(x.chain, b), log := x.log + [b],
       blocks := x.blocks - Freed(x.dependency, b.hash), dependency := Without(x.dependency, b.hash))
  }

  lemma AccountedAfter(c: Config, x: Intake, rest: seq<Block>, b: Block, resolved: seq<Block>)
    requires Accounted(c, x, rest + [b]) && Acceptable(x.chain, b) && Keyed(x.blocks, x.dependency)
    requires Lists(resolved, Freed(x.dependency, b.hash), x.blocks)
    ensures Accounted(c, Advanced(x, b), rest + resolved)
    ensures b.hash !in Known(c, x.chain) && b.hash !in GenesisHashes(c) && b.hash !in HashesOf(x.log)
  {
    hide Acceptable, Inserted, Lists, Freed, HashesOf, Unique, GenesisHashes, Without, Known;
    HashesOfSnoc(rest, b);
    HashesOfSnoc(x.log, b);
    var freed := Freed(x.dependency, b.hash);
    FreedHashes(resolved, freed, x.blocks);
    FreedAreBuffered(x.dependency, b.hash);
    HashesOfConcat(rest, resolved);
    KnownAfter(c, x.chain, b);
    assert x.blocks.Keys == (x.blocks - freed).Keys + freed;
  }

  lemma FreedAreBuffered(dependency: map<Hash, set<Hash>>, d: Hash)
    ensures Freed(dependency, d) <= dependency.Keys
    ensures Without(dependency, d).Keys == dependency.Keys - Freed(dependency, d)
  {
  }

  lemma InOrderSnoc(c: Config, log: seq<Block>, b: Block)
    requires InOrder(c, log) && Needs(b) <= GenesisHashes(c) + HashesOf(log)
    ensures InOrder(c, log + [b])
  {
    hide Needs, HashesOf, GenesisHashes;
    forall i | 0 <= i < |log + [b]|
      ensures Needs((log + [b])[i]) <= GenesisHashes(c) + HashesOf((log + [b])[..i])
    {
      assert (log + [b])[..i] == log[..i];
      if i == |log| {
        assert log[..i] == log;
      }
    }
  }

  lemma WaitsAfter(c: Config, w: World, x: Intake, b: Block)
    requires WaitsForMissing(c, w, x) && Acceptable(x.chain, b) && Keyed(x.blocks, x.dependency)
    ensures WaitsForMissing(c, w, Advanced(x, b))
  {
    hide Acceptable, Inserted, Needs, Known;
    KnownAfter(c, x.chain, b);
    FreedAreBuffered(x.dependency, b.hash);
  }

  lemma StoreAfter(x: Intake, rest: seq<Block>, b: Block, resolved: seq<Block>)
    requires FromStore(x, rest + [b]) && Acceptable(x.chain, b)
    requires Lists(resolved, Freed(x.dependency, b.hash), x.blocks)
    ensures StoredAs(x.stored, b) && FromStore(Advanced(x, b), rest + resolved)
  {
    hide Acceptable, Inserted, StoredAs, Freed, NoDup;
    assert b in rest + [b];
    forall y | y in rest + resolved
      ensures StoredAs(x.stored, y)
    {
      if y in rest {
        assert y in rest + [b];
      } else {
        assert y in resolved;
      }
    }
  }

  lemma VettedSnoc(rules: Rules, log: seq<Block>, b: Block)
    requires rules.widths.Valid() && Vetted(rules, log) && ProvesContent(rules, b) && Signed(rules, b)
    ensures Vetted(rules, log + [b])
  {
    hide ProvesContent, Signed;
  }

  /** The popped block goes into the chain. */
  lemma InsertStep(c: Config, rules: Rules, w: World, x: Intake, rest: seq<Block>, b: Block, resolved: seq<Block>)
    requires Consistent(c, rules, w, x, rest + [b]) && Available(x.chain, b) && Acceptable(x.chain, b)
    requires ProvesContent(rules, b) && Signed(rules, b)
    requires Lists(resolved, Freed(x.dependency, b.hash), x.blocks)
    ensures b.hash !in Known(c, x.chain)
    ensures Consistent(c, rules, w, Advanced(x, b), rest + resolved)
  {
    hide ValidWorld, OnTrack, Lists, Acceptable, Available, ProvesContent, Signed, Advanced, Unspoiled;
    InsertBase(c, rules, x, rest, b, resolved);
    assert Advanced(x, b).stored == x.stored by { AdvancedStored(x, b); }
    if Unspoiled(w, x.stored) {
      InsertOnTrack(c, rules, w, x, rest, b);
    }
  }

  lemma AdvancedStored(x: Intake, b: Block)
    requires Acceptable(x.chain, b)
    ensures Advanced(x, b).stored == x.stored
  {
  }

  lemma InsertBase(c: Config, rules: Rules, x: Intake, rest: seq<Block>, b: Block, resolved: seq<Block>)
    requires Base(c, rules, x, rest + [b]) && Available(x.chain, b) && Acceptable(x.chain, b)
    requires ProvesContent(rules, b) && Signed(rules, b)
    requires Lists(resolved, Freed(x.dependency, b.hash), x.blocks)
    ensures b.hash !in Known(c, x.chain) && Base(c, rules, Advanced(x, b), rest + resolved)
  {
    hide ValidState, Accounted, FromStore, InOrder, Keyed, Acceptable, Available, Inserted, Freed, Lists, Known, GenesisHashes, Needs,
      Recorded, Vetted, ProvesContent, Signed, HashesOf;
    AccountedAfter(c, x, rest, b, resolved);
    KeyedAfter(x, b);
    StoreAfter(x, rest, b, resolved);
    AvailableIsKnown(c, x.chain, b);
    KnownIsLogged(c, x, rest + [b]);
    InOrderSnoc(c, x.log, b);
    NotYetRecorded(c, x.chain, b.hash);
    RecordedAfter(c, x.chain, x.log, b);
    VettedSnoc(rules, x.log, b);
    InsertKeepsValid(c, x.chain, b);
  }

  lemma KeyedAfter(x: Intake, b: Block)
    requires Keyed(x.blocks, x.dependency) && Acceptable(x.chain, b)
    ensures Keyed(Advanced(x, b).blocks, Advanced(x, b).dependency)
  {
    hide Acceptable, Inserted;
    FreedAreBuffered(x.dependency, b.hash);
  }

  lemma InsertOnTrack(c: Config, rules: Rules, w: World, x: Intake, rest: seq<Block>, b: Block)
    requires Base(c, rules, x, rest + [b]) && Available(x.chain, b) && Acceptable(x.chain, b)
    requires ValidWorld(c, rules, w) && Unspoiled(w, x.stored) && OnTrack(c, w, x)
    ensures OnTrack(c, w, Advanced(x, b))
  {
    hide ValidState, ValidWorld, Agrees, WaitsForMissing, InOrder, Keyed, Acceptable, Available, Inserted, Freed, Known, GenesisHashes, Needs,
      Recorded, Vetted, HashesOf, Unique, Without;
    HashesOfSnoc(rest, b);
    assert b in rest + [b];
    AvailableIsKnown(c, x.chain, b);
    AgreesAfter(c, rules, w, x.chain, b);
    WaitsAfter(c, w, x, b);
  }

  lemma KnownIsLogged(c: Config, x: Intake, pending: seq<Block>)
    requires Accounted(c, x, pending)
    ensures Known(c, x.chain) == GenesisHashes(c) + HashesOf(x.log)
  {
  }

  /** Once nothing is pending and the whole set is stored, every block of it is in the chain. */
  lemma {:induction false} AllInserted(c: Config, rules: Rules, w: World, x: Intake, h: Hash)
    requires Consistent(c, rules, w, x, []) && Unspoiled(w, x.stored) && w.blocks.Keys <= x.stored.Keys && h in w.blocks
    ensures h in Known(c, x.chain)
    decreases if h in w.rank then w.rank[h] else 0
  {
    hide ValidState, Agrees, InOrder, Known, HashesOf, CheckPowSortitionId, ProvesContent, LawfulContent, GenesisHashes, References, Unique,
      Keyed, Recorded, Vetted, FromStore, Unspoiled;
    var b := w.blocks[h];
    assert Lawful(rules, w, b);
    forall r | r in References(b)
      ensures r.hash in Known(c, x.chain)
    {
      assert Named(w, r) && Ranked(w, h, r);
      if r.hash in w.blocks {
        AllInserted(c, rules, w, x, r.hash);
      } else {
        NamedGenesis(c, rules, w, r);
      }
    }
    assert Needs(b) - Known(c, x.chain) == {};
    assert h !in x.blocks;
    NothingPending();
    assert h in HashesOf(x.log);
  }

  lemma NothingPending()
    ensures HashesOf([]) == {}
  {
  }

  lemma NamedGenesis(c: Config, rules: Rules, w: World, r: Reference)
    requires ValidWorld(c, rules, w) && Named(w, r) && r.hash !in w.blocks
    ensures r.hash in GenesisHashes(c)
  {
    hide Lawful, Rooted;
    assert r.hash in Elements(c.voterGenesis) <==> r.hash in c.voterGenesis;
  }

  /** Every block of the set, itself, is in the chain. */
  ghost predicate Delivered(w: World, log: seq<Block>) {
    forall h | h in w.blocks :: w.blocks[h] in log
  }

  ghost predicate AllStored(w: World, stored: map<Hash, Block>) {
    forall h | h in w.blocks :: h in stored && stored[h] == w.blocks[h]
  }

  /** With nothing pending, the set is in the chain if and only if every block of it is what the
      block database has under its hash. */
  lemma DeliveredIffStored(c: Config, rules: Rules, w: World, x: Intake)
    requires Consistent(c, rules, w, x, [])
    ensures Delivered(w, x.log) <==> AllStored(w, x.stored)
    ensures AllStored(w, x.stored) ==> x.blocks.Keys !! w.blocks.Keys
  {
    hide ValidState, Agrees, InOrder, Known, WaitsForMissing, Unique, Keyed, Recorded, Vetted, Lawful;
    OwnHashes(c, rules, w);
    if AllStored(w, x.stored) {
      forall h | h in w.blocks
        ensures w.blocks[h] in x.log && h !in x.blocks
      {
        AllInserted(c, rules, w, x, h);
        NotGenesis(c, rules, w, h);
        assert h in HashesOf(x.log);
        var b :| b in x.log && b.hash == h;
        assert StoredAs(x.stored, b);
      }
    }
    if Delivered(w, x.log) {
      forall h | h in w.blocks
        ensures h in x.stored && x.stored[h] == w.blocks[h]
      {
        assert StoredAs(x.stored, w.blocks[h]);
      }
    }
  }

  lemma OwnHashes(c: Config, rules: Rules, w: World)
    requires ValidWorld(c, rules, w)
    ensures forall h | h in w.blocks :: w.blocks[h].hash == h
  {
    hide Lawful;
  }

  /** Another block under its hash shuts a block out. */
  lemma TwinShutsOut(c: Config, rules: Rules, x: Intake, pending: seq<Block>, b: Block)
    requires Base(c, rules, x, pending) && b.hash in x.stored && x.stored[b.hash] != b
    ensures b !in x.log
    ensures !ProvesContent(rules, x.stored[b.hash]) ==> b.hash !in HashesOf(x.log)
  {
    hide ValidState, Accounted, InOrder, Keyed, Recorded, ProvesContent, Signed;
    assert b in x.log ==> StoredAs(x.stored, b);
    forall y | y in x.log && !ProvesContent(rules, x.stored[b.hash])
      ensures y.hash != b.hash
    {
      assert StoredAs(x.stored, y) && ProvesContent(rules, y);
    }
  }

  lemma NotGenesis(c: Config, rules: Rules, w: World, h: Hash)
    requires ValidWorld(c, rules, w) && h in w.blocks
    ensures h !in GenesisHashes(c)
  {
    hide Lawful;
  }

  lemma OnlyGenesis(c: Config, s: State)
    requires forall h: Hash :: h in Known(c, s) <==> h == c.proposerGenesis || h in c.voterGenesis
    ensures Known(c, s) == GenesisHashes(c)
  {
    hide Known;
  }

  /** A chain of genesis blocks only agrees with any set. */
  lemma GenesisAgrees(c: Config, rules: Rules, w: World, s: State)
    requires ValidState(c, s) && ValidWorld(c, rules, w) && Known(c, s) == GenesisHashes(c)
    ensures Agrees(c, w, s)
  {
    hide ValidState, Lawful, Known;
    GenesisLevels(c, s);
    forall h | h in w.level && h in Known(c, s)
      ensures LevelAgrees(w, s, h)
    {
      GenesisKinds(c, rules, w, h);
    }
    forall h | h in w.chain && h in Known(c, s)
      ensures VoterAgrees(w, s, h)
    {
      GenesisKinds(c, rules, w, h);
      var i :| 0 <= i < |c.voterGenesis| && c.voterGenesis[i] == h;
      assert RootedAt(w, h, i);
    }
  }

  lemma GenesisKinds(c: Config, rules: Rules, w: World, h: Hash)
    requires ValidWorld(c, rules, w) && h in GenesisHashes(c)
    ensures h in w.level ==> h == c.proposerGenesis
    ensures h in w.chain ==> h in c.voterGenesis
  {
    hide Lawful;
  }

  /** A block that the chain cannot tell from `b`. */
  ghost predicate SameReferences(b: Block, b': Block) {
    b'.hash == b.hash && b'.header.parent == b.header.parent && b'.content == b.content
  }

  /** Every proposer block of the first log is, with its content, in the second. */
  ghost predicate Within(log: seq<Block>, log': seq<Block>) {
    forall b | b in log && b.content.Proposer? :: exists b' :: b' in log' && SameReferences(b, b')
  }

  ghost predicate SameEntry(g: Proposers, g': Proposers, h: Hash) {
    && h in g.refs && h in g'.refs && g'.refs[h] == g.refs[h]
    && h in g.level && h in g'.level && g'.level[h] == g.level[h]
    && h in g.txRefs && h in g'.txRefs && g'.txRefs[h] == g.txRefs[h]
  }

  ghost predicate SubGraph(g: Proposers, g': Proposers) {
    forall h | h in g.level :: SameEntry(g, g', h)
  }

  /** One node's graph is part of another's if and only if the other has inserted the same
      proposer blocks, contents included. Equal hashes are not enough. */
  lemma SubGraphIffWithin(c: Config, rules: Rules, x: Intake, p: seq<Block>, y: Intake, q: seq<Block>)
    requires Base(c, rules, x, p) && Base(c, rules, y, q)
    ensures SubGraph(x.chain.db.proposers, y.chain.db.proposers) <==> Within(x.log, y.log)
  {
    hide Base, SameEntry, SameReferences;
    if SubGraph(x.chain.db.proposers, y.chain.db.proposers) {
      forall b | b in x.log && b.content.Proposer?
        ensures exists b' :: b' in y.log && SameReferences(b, b')
      {
        var b' := EntryHasBlock(c, rules, x, p, y, q, b);
      }
    }
    if Within(x.log, y.log) {
      forall h | h in x.chain.db.proposers.level
        ensures SameEntry(x.chain.db.proposers, y.chain.db.proposers, h)
      {
        BlockHasEntry(c, rules, x, p, y, q, h);
      }
    }
  }

  lemma EntryHasBlock(c: Config, rules: Rules, x: Intake, p: seq<Block>, y: Intake, q: seq<Block>, b: Block) returns (b': Block)
    requires Base(c, rules, x, p) && Base(c, rules, y, q) && b in x.log && b.content.Proposer?
    requires SubGraph(x.chain.db.proposers, y.chain.db.proposers)
    ensures b' in y.log && SameReferences(b, b')
  {
    hide ValidState, FromStore, InOrder, Keyed, Vetted, Known, Unique;
    GraphOf(c, x.chain);
    GraphOf(c, y.chain);
    hide Acyclic;
    var g, g' := x.chain.db.proposers, y.chain.db.proposers;
    assert BlockRecorded(g, b) && b.hash in HashesOf(x.log);
    assert SameEntry(g, g', b.hash);
    VoterGenesisIsNoProposer(c, y.chain);
    assert b.hash in HashesOf(y.log);
    b' :| b' in y.log && b'.hash == b.hash;
    assert BlockRecorded(g', b');
    assert ([b.header.parent] + b.content.proposerRefs)[1..] == b.content.proposerRefs;
    assert ([b'.header.parent] + b'.content.proposerRefs)[1..] == b'.content.proposerRefs;
    assert ([b.header.parent] + b.content.proposerRefs)[0] == ([b'.header.parent] + b'.content.proposerRefs)[0];
  }

  lemma BlockHasEntry(c: Config, rules: Rules, x: Intake, p: seq<Block>, y: Intake, q: seq<Block>, h: Hash)
    requires Base(c, rules, x, p) && Base(c, rules, y, q) && Within(x.log, y.log) && h in x.chain.db.proposers.level
    ensures SameEntry(x.chain.db.proposers, y.chain.db.proposers, h)
  {
    hide Base, Within, ValidState;
    WithinIsLinked(x.log, y.log);
    LinksAlike(c, rules, x, p, y, q, h);
    GraphAndLog(c, rules, x, p);
    GraphAndLog(c, rules, y, q);
    if h != c.proposerGenesis {
      var b := LoggedAs(c, rules, x, p, h);
      var b' := AlsoIn(x.log, y.log, b);
      assert BlockRecorded(x.chain.db.proposers, b) && BlockRecorded(y.chain.db.proposers, b');
    }
  }

  /** Two proposer blocks that differ in their transactions at most. */
  ghost predicate LinkedAlike(b: Block, b': Block) {
    && b'.hash == b.hash && b'.header.parent == b.header.parent
    && b.content.Proposer? && b'.content.Proposer? && b'.content.proposerRefs == b.content.proposerRefs
  }

  /** Every proposer block of the first log is, up to its transactions, in the second. */
  ghost predicate LinkedWithin(log: seq<Block>, log': seq<Block>) {
    forall b | b in log && b.content.Proposer? :: exists b' :: b' in log' && LinkedAlike(b, b')
  }

  lemma WithinIsLinked(log: seq<Block>, log': seq<Block>)
    requires Within(log, log')
    ensures LinkedWithin(log, log')
  {
    forall b | b in log && b.content.Proposer?
      ensures exists b' :: b' in log' && LinkedAlike(b, b')
    {
      var b' := AlsoIn(log, log', b);
      assert LinkedAlike(b, b');
    }
  }

  ghost predicate SameLinks(g: Proposers, g': Proposers, h: Hash) {
    && h in g.refs && h in g'.refs && g'.refs[h] == g.refs[h]
    && h in g.level && h in g'.level && g'.level[h] == g.level[h]
  }

  /** The shape of the graph does not depend on the transactions. */
  lemma {:induction false} LinksAlike(c: Config, rules: Rules, x: Intake, p: seq<Block>, y: Intake, q: seq<Block>, h: Hash)
    requires Base(c, rules, x, p) && Base(c, rules, y, q) && LinkedWithin(x.log, y.log) && h in x.chain.db.proposers.level
    ensures SameLinks(x.chain.db.proposers, y.chain.db.proposers, h)
    decreases x.chain.db.proposers.level[h]
  {
    hide Base, Acyclic, Known, SameLinks, AboveParent, ValidState;
    var g, g' := x.chain.db.proposers, y.chain.db.proposers;
    GraphAndLog(c, rules, x, p);
    GraphAndLog(c, rules, y, q);
    if h == c.proposerGenesis {
      GenesisEntry(g, g', h);
    } else {
      var b := LoggedAs(c, rules, x, p, h);
      var b' :| b' in y.log && LinkedAlike(b, b');
      LoggedIsAboveParent(c, rules, x, p, b);
      LoggedIsAboveParent(c, rules, y, q, b');
      LinksAlike(c, rules, x, p, y, q, b.header.parent);
      LinksFromParent(g, g', b, b');
    }
  }

  lemma GraphAndLog(c: Config, rules: Rules, x: Intake, p: seq<Block>)
    requires Base(c, rules, x, p)
    ensures ValidState(c, x.chain) && Recorded(c.proposerGenesis, x.chain.db.proposers, x.log)
    ensures c.proposerGenesis in x.chain.db.proposers.level && x.chain.db.proposers.level[c.proposerGenesis] == 0
  {
    hide ValidState, Accounted, FromStore, InOrder, Keyed, Vetted, Recorded;
    GraphOf(c, x.chain);
  }

  lemma GenesisEntry(g: Proposers, g': Proposers, genesis: Hash)
    requires Recorded(genesis, g, []) && Recorded(genesis, g', [])
    requires genesis in g.level && g.level[genesis] == 0 && genesis in g'.level && g'.level[genesis] == 0
    ensures SameLinks(g, g', genesis)
  {
  }

  lemma LoggedAs(c: Config, rules: Rules, x: Intake, p: seq<Block>, h: Hash) returns (b: Block)
    requires Base(c, rules, x, p) && h in x.chain.db.proposers.level && h != c.proposerGenesis
    ensures b in x.log && b.hash == h && b.content.Proposer?
  {
    hide ValidState, FromStore, InOrder, Keyed, Vetted, Known, Unique, Apart;
    GraphOf(c, x.chain);
    hide Acyclic;
    VoterGenesisIsNoProposer(c, x.chain);
    assert h in HashesOf(x.log);
    b :| b in x.log && b.hash == h;
    assert BlockRecorded(x.chain.db.proposers, b);
  }

  lemma AlsoIn(log: seq<Block>, log': seq<Block>, b: Block) returns (b': Block)
    requires Within(log, log') && b in log && b.content.Proposer?
    ensures b' in log' && SameReferences(b, b')
  {
    b' :| b' in log' && SameReferences(b, b');
  }

  lemma LinksFromParent(g: Proposers, g': Proposers, b: Block, b': Block)
    requires LinkedAlike(b, b') && BlockRecorded(g, b) && BlockRecorded(g', b')
    requires b.hash in g.level && b.hash in g'.level && AboveParent(g, b.hash) && AboveParent(g', b.hash)
    requires SameLinks(g, g', b.header.parent)
    ensures SameLinks(g, g', b.hash)
  {
  }

  lemma LoggedIsAboveParent(c: Config, rules: Rules, y: Intake, q: seq<Block>, b: Block)
    requires Base(c, rules, y, q) && b in y.log && b.content.Proposer?
    ensures b.hash in y.chain.db.proposers.level && b.hash in y.chain.db.proposers.refs && AboveParent(y.chain.db.proposers, b.hash)
    ensures BlockRecorded(y.chain.db.proposers, b) && y.chain.db.proposers.refs[b.hash][0] == b.header.parent
    ensures b.header.parent in y.chain.db.proposers.level
    ensures y.chain.db.proposers.level[b.header.parent] < y.chain.db.proposers.level[b.hash]
  {
    hide ValidState, FromStore, InOrder, Keyed, Vetted, Known, Unique;
    GraphOf(c, y.chain);
    assert BlockRecorded(y.chain.db.proposers, b) && b.hash in HashesOf(y.log);
    assert b.hash != c.proposerGenesis;
  }

  lemma GraphOf(c: Config, s: State)
    requires ValidState(c, s)
    ensures Acyclic(s.db.proposers) && s.db.proposers.refs.Keys == s.db.proposers.level.Keys == s.db.proposers.txRefs.Keys
    ensures forall h | h in s.db.proposers.level :: h in Known(c, s)
    ensures c.proposerGenesis in s.db.proposers.level && s.db.proposers.level[c.proposerGenesis] == 0
    ensures forall h | h in s.db.proposers.level && h != c.proposerGenesis :: AboveParent(s.db.proposers, h)
  {
    hide UnreferredExact, VotersOk, IndexOk, LedgerOk, ValidConfig, LevelsListed, BestLevel, Acyclic;
  }

  lemma VoterGenesisIsNoProposer(c: Config, s: State)
    requires ValidState(c, s)
    ensures forall i | 0 <= i < |c.voterGenesis| :: c.voterGenesis[i] !in s.db.proposers.level
  {
    hide GraphOk, UnreferredExact, VotersOk, IndexOk, LedgerOk, ValidConfig;
    GenesisLevels(c, s);
    forall i | 0 <= i < |c.voterGenesis|
      ensures c.voterGenesis[i] !in s.db.proposers.level
    {
      assert GenesisVoter(s.db.voters, c.voterGenesis[i], i);
    }
  }

  /** Two nodes, the second with all proposer blocks of the first, contents included: the same
      leaders make the same ledger, blocks and transactions. */
  lemma SameLedger(c: Config, rules: Rules, x: Intake, p: seq<Block>, y: Intake, q: seq<Block>, leaders: map<nat, Hash>, n: nat)
    requires Base(c, rules, x, p) && Base(c, rules, y, q) && Within(x.log, y.log)
    requires Led(x.chain.db.proposers, leaders, n)
    ensures var g, g' := x.chain.db.proposers, y.chain.db.proposers;
            && Acyclic(g) && Acyclic(g') && Led(g', leaders, n) && Ledger(g', leaders, n) == Ledger(g, leaders, n)
            && var flat := Flatten(Ledger(g, leaders, n));
               && (forall h | h in flat :: h in g.txRefs && h in g'.txRefs)
               && TransactionsOf(g', flat) == TransactionsOf(g, flat)
  {
    hide ValidState, Accounted, FromStore, InOrder, Keyed, Recorded, Vetted, Within, Ledger, Flatten, TransactionsOf, Known;
    var g, g' := x.chain.db.proposers, y.chain.db.proposers;
    SubGraphIffWithin(c, rules, x, p, y, q);
    GraphOf(c, x.chain);
    GraphOf(c, y.chain);
    hide Acyclic;
    SubGraphExtends(g, g');
    LedgerStable(g, g', leaders, leaders, n);
    LedgerHasNoDup(g, leaders, n);
    TransactionsStable(g, g', Flatten(Ledger(g, leaders, n)));
  }

  lemma SubGraphExtends(g: Proposers, g': Proposers)
    requires SubGraph(g, g') && g.refs.Keys == g.level.Keys == g.txRefs.Keys
    ensures Extends(g, g') && forall h | h in g.txRefs :: h in g'.txRefs && g'.txRefs[h] == g.txRefs[h]
  {
    assert forall h | h in g.level :: SameEntry(g, g', h);
  }
}
