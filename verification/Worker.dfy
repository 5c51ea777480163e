/** The handling of `Message::Blocks` by one worker, src/network/worker.rs. */
module Worker {
  import opened Prelude
  import opened Blocks
  import opened BlockHashes
  import opened ProposerGraph
  import opened VoterTrees
  import opened ChainState
  import opened ChainUpdate
  import opened Chain
  import opened Validation
  import opened Buffer
  import opened Sortition
  import opened IntakeSpec

  /** Blocks as they come off the wire: hashed by their headers, and not to a genesis hash. Two
      blocks may well have one header, and so one hash. */
  ghost predicate Proper(c: Config, rules: Rules, message: seq<Block>) {
    forall b | b in message :: Hashed(rules.hashes, b) && b.hash !in GenesisHashes(c)
  }

  /** The block database after some arrivals: of the blocks with proof of work, the first under
      each hash. */
  ghost function Arrivals(rules: Rules, db: map<Hash, Block>, blocks: seq<Block>): map<Hash, Block>
    requires rules.widths.Valid()
  {
    if blocks == [] then db
    else
      var before, b := Arrivals(rules, db, Init(blocks)), Last(blocks);
      if CheckPowSortitionId(rules, b) == Pass && b.hash !in before then before[b.hash := b] else before
  }

  /** Checking one of the blocks panics: `sortition_hash` overflows. */
  ghost predicate Panics(rules: Rules, message: seq<Block>)
    requires rules.widths.Valid()
  {
    exists b | b in message :: CheckPowSortitionId(rules, b) == Panicked
  }

  class BlockWorker {
    const rules: Rules
    const chain: BlockChain
    const buffer: BlockBuffer
    var blockdb: map<Hash, Block>
    /** A panic ended the thread. */
    var crashed: bool
    ghost const world: World
    /** The database when the last message was done. */
    ghost var processed: map<Hash, Block>
    ghost var rejected: set<Hash>
    ghost var log: seq<Block>

    ghost function View(): Intake
      reads this, chain, buffer
    {
      Intake(chain.View(), buffer.blocks, buffer.dependency, blockdb, rejected, log)
    }

    /** The worker's state while the blocks in `pending` are still to be processed. */
    ghost predicate Processing(pending: seq<Block>)
      reads this, chain, buffer
    {
      rules.widths.Valid() && Consistent(chain.config, rules, world, View(), pending) && buffer.Valid()
    }

    /** The worker's state between messages. What a crash left in the database is of no use. */
    ghost predicate Valid()
      reads this, chain, buffer
    {
      && rules.widths.Valid() && Consistent(chain.config, rules, world, View().(stored := processed), []) && buffer.Valid()
      && (!crashed ==> blockdb == processed)
    }

    constructor (config: Config, rules: Rules, ghost world: World)
      requires ValidConfig(config) && ValidWorld(config, rules, world)
      ensures fresh(chain) && fresh(buffer) && chain.config == config && this.rules == rules && this.world == world
      ensures Valid() && !crashed && processed == map[] && log == []
    {
      hide ValidWorld, Consistent, ValidState, Confirmed, TransactionLedger, Keyed, Inverse, Known;
      this.rules, this.world := rules, world;
      blockdb, crashed, processed, rejected, log := map[], false, map[], {}, [];
      chain := new BlockChain(config);
      buffer := new BlockBuffer();
      new;
      WorldWidths(config, rules, world);
      BufferIsEmpty(buffer.blocks, buffer.dependency);
      OnlyGenesis(config, chain.View());
      Empty(config, rules, world, chain.View(), View());
    }

    /** One message: take what is new, then process it and everything it releases. A panic comes
        before anything of the message is processed. */
    method HandleBlocks(message: seq<Block>)
      requires Valid() && Proper(chain.config, rules, message)
      modifies this, chain, buffer
      ensures Valid() && (crashed <==> old(crashed) || Panics(rules, message))
      ensures processed == if crashed then old(processed) else Arrivals(rules, old(processed), message)
      ensures old(log) <= log && (crashed ==> log == old(log))
    {
      hide Consistent, Proper, Arrivals, Keyed, Inverse, Panics;
      if crashed {
        return;
      }
      assert View().(stored := processed) == View();
      var blocks, panicked;
      blockdb, blocks, panicked := Admit(rules, blockdb, message, chain.config, world, View());
      if panicked {
        crashed := true;
        return;
      }
      Process(blocks);
      processed := blockdb;
      assert View().(stored := processed) == View();
    }

    /** The `to_process` loop. It ends: every round takes a block out of the worker's hands or
        into the buffer, and the buffer only gives back blocks when one is inserted. */
    method Process(blocks: seq<Block>)
      requires Processing(blocks)
      modifies `rejected, `log, chain, buffer
      ensures Processing([]) && blockdb == old(blockdb) && old(log) <= log
    {
      hide Consistent, Keyed, Inverse;
      var toProcess := blocks;
      while toProcess != []
        invariant Processing(toProcess) && blockdb == old(blockdb) && old(log) <= log
        decreases |buffer.blocks| + |toProcess|, |toProcess|
      {
        var rest, b := Init(toProcess), Last(toProcess);
        assert toProcess == rest + [b];
        var released := ProcessOne(rest, b);
        toProcess := rest + released;
      }
    }

    /** One round: buffer, throw away, or insert the popped block. */
    method ProcessOne(ghost rest: seq<Block>, b: Block) returns (released: seq<Block>)
      requires Processing(rest + [b])
      modifies `rejected, `log, chain, buffer
      ensures Processing(rest + released) && blockdb == old(blockdb) && old(log) <= log
      ensures |buffer.blocks| + |released| <= old(|buffer.blocks|) + (if released == [] then 1 else 0)
    {
      hide Consistent, Absent, Acceptable, Available, ProvesContent, Keyed, Inverse, Inserted, Lists, Freed, Without, ValidState, Elements,
        Signed, Waiting, Unspoiled;
      released := [];
      assert rest + [] == rest;
      ghost var x := View();
      var verdict := CheckDataAvailability(chain.View(), b);
      IsAvailable(chain.View(), b);
      if verdict.MissingReferences? {
        BufferStep(chain.config, rules, world, x, rest, b, verdict.missing);
        WaitingIs(x, b, verdict.missing);
        buffer.Insert(b, verdict.missing);
        return;
      }
      NeverRejected(chain.config, rules, world, x, rest, b);
      verdict := CheckSortitionProof(rules, b);
      if verdict == Pass {
        ChainIsValid(chain.config, rules, world, x, rest + [b]);
        verdict := CheckContentSemantic(rules, chain.View(), b);
      }
      if verdict != Pass {
        RejectStep(chain.config, rules, world, x, rest, b);
        rejected := rejected + {b.hash};
        return;
      }
      released := InsertOne(rest, b);
    }

    method InsertOne(ghost rest: seq<Block>, b: Block) returns (released: seq<Block>)
      requires Processing(rest + [b]) && Available(chain.View(), b) && Acceptable(chain.View(), b)
      requires ProvesContent(rules, b) && Signed(rules, b)
      modifies `rejected, `log, chain, buffer
      ensures Processing(rest + released) && blockdb == old(blockdb) && log == old(log) + [b]
      ensures |buffer.blocks| + |released| == old(|buffer.blocks|)
    {
      hide Consistent, Absent, Acceptable, Available, Keyed, Inverse, Inserted, Lists, Freed, Without, ValidState, ProvesContent, Signed;
      ghost var x := View();
      ReadyToInsert(chain.config, rules, world, x, rest, b);
      chain.InsertBlock(b);
      log := log + [b];
      released := buffer.Satisfy(b.hash);
      InsertStep(chain.config, rules, world, x, rest, b, released);
      ReleasedLeft(x.blocks, x.dependency, b.hash, released);
    }
  }

  lemma WaitingIs(x: Intake, b: Block, missing: seq<Hash>)
    ensures Waiting(x, b, missing) ==
            Intake(x.chain, x.blocks[b.hash := b], x.dependency[b.hash := Elements(missing)], x.stored, x.rejected, x.log)
  {
  }

  lemma IsAvailable(s: State, b: Block)
    ensures Available(s, b) <==> Absent(s, References(b)) == []
  {
  }

  lemma ReadyToInsert(c: Config, rules: Rules, w: World, x: Intake, rest: seq<Block>, b: Block)
    requires Consistent(c, rules, w, x, rest + [b])
    ensures ValidState(c, x.chain) && b.hash !in Known(c, x.chain)
  {
    hide ValidState, ValidWorld, OnTrack, Unspoiled, FromStore, InOrder, Keyed, HashesOf, Unique, GenesisHashes, Known, Recorded, Vetted;
    HashesOfSnoc(rest, b);
  }

  lemma ReleasedLeft(blocks: map<Hash, Block>, dependency: map<Hash, set<Hash>>, d: Hash, released: seq<Block>)
    requires Keyed(blocks, dependency) && Lists(released, Freed(dependency, d), blocks)
    ensures |blocks - Freed(dependency, d)| + |released| == |blocks|
  {
    var freed := Freed(dependency, d);
    FreedHashes(released, freed, blocks);
    hide Lists, Freed;
    UniqueCount(released);
    assert blocks.Keys == (blocks - freed).Keys + freed;
    assert |blocks.Keys| == |(blocks - freed).Keys| + |freed|;
  }

  lemma {:induction false} UniqueCount(list: seq<Block>)
    requires Unique(list)
    ensures |HashesOf(list)| == |list|
  {
    if list == [] {
      NothingPending();
    } else {
      assert list == Init(list) + [Last(list)];
      HashesOfSnoc(Init(list), Last(list));
      UniqueCount(Init(list));
    }
  }

  /** Drop blocks without proof of work and blocks whose hash was seen before. */
  method Admit(rules: Rules, blockdb: map<Hash, Block>, message: seq<Block>, ghost c: Config, ghost w: World, ghost x: Intake)
    returns (blockdb': map<Hash, Block>, blocks: seq<Block>, panicked: bool)
    requires rules.widths.Valid() && Consistent(c, rules, w, x, []) && Proper(c, rules, message) && x.stored == blockdb
    ensures panicked <==> Panics(rules, message)
    ensures !panicked ==> Consistent(c, rules, w, x.(stored := blockdb'), blocks) && blockdb' == Arrivals(rules, blockdb, message)
  {
    hide Consistent, Proper, CheckPowSortitionId;
    blockdb', blocks := blockdb, [];
    assert message[..0] == [] && x.(stored := blockdb) == x;
    for i := 0 to |message|
      invariant Consistent(c, rules, w, x.(stored := blockdb'), blocks)
      invariant blockdb' == Arrivals(rules, blockdb, message[..i])
      invariant forall j | 0 <= j < i :: CheckPowSortitionId(rules, message[j]) != Panicked
    {
      var b := message[i];
      assert Init(message[..i + 1]) == message[..i] && Last(message[..i + 1]) == b;
      var verdict := CheckPowSortitionId(rules, b);
      if verdict == Panicked {
        return blockdb', blocks, true;
      }
      if verdict == Pass && b.hash !in blockdb' {
        AdmitStep(c, rules, w, x.(stored := blockdb'), blocks, message, i);
        blockdb' := blockdb'[b.hash := b];
        blocks := blocks + [b];
      }
    }
    assert message[..|message|] == message;
    panicked := false;
  }

  lemma BufferIsEmpty(blocks: map<Hash, Block>, dependency: map<Hash, set<Hash>>)
    requires Keyed(blocks, dependency) && blocks == map[]
    ensures dependency == map[]
  {
  }

  lemma Empty(c: Config, rules: Rules, w: World, s: State, x: Intake)
    requires ValidWorld(c, rules, w) && ValidState(c, s) && Known(c, s) == GenesisHashes(c)
    requires s.db.proposers == GenesisGraph(c.proposerGenesis)
    requires x == Intake(s, map[], map[], map[], {}, [])
    ensures Consistent(c, rules, w, x, [])
  {
    hide ValidState, ValidWorld, Agrees, Known, GenesisHashes, HashesOf;
    WorldWidths(c, rules, w);
    GenesisAgrees(c, rules, w, s);
    NothingPending();
  }

  lemma ChainIsValid(c: Config, rules: Rules, w: World, x: Intake, pending: seq<Block>)
    requires Consistent(c, rules, w, x, pending)
    ensures ValidState(c, x.chain) && Linked(x.chain.db.voters)
  {
    hide ValidState, ValidWorld, OnTrack, Accounted, FromStore, InOrder, Keyed, Recorded, Vetted, Linked;
    VotersLinked(c, x.chain);
  }

  lemma AdmitStep(c: Config, rules: Rules, w: World, x: Intake, blocks: seq<Block>, message: seq<Block>, i: nat)
    requires Consistent(c, rules, w, x, blocks) && Proper(c, rules, message) && i < |message| && message[i].hash !in x.stored
    ensures Consistent(c, rules, w, x.(stored := x.stored[message[i].hash := message[i]]), blocks + [message[i]])
  {
    hide ValidState, ValidWorld, Agrees, HashesOf, Unique, GenesisHashes, InOrder, Needs, Known, Recorded, Vetted, Keyed;
    var b := message[i];
    HashesOfSnoc(blocks, b);
    assert forall y | y in blocks + [b] :: y in blocks || y == b;
    assert Unspoiled(w, x.stored[b.hash := b]) ==> Unspoiled(w, x.stored);
  }

  /** `b` is the first of the arrivals under its hash that has proof of work. */
  ghost predicate ArrivesFirst(rules: Rules, blocks: seq<Block>, b: Block)
    requires rules.widths.Valid()
  {
    exists i :: FirstAt(rules, blocks, b, i)
  }

  ghost predicate FirstAt(rules: Rules, blocks: seq<Block>, b: Block, i: int)
    requires rules.widths.Valid()
  {
    && 0 <= i < |blocks| && blocks[i] == b && CheckPowSortitionId(rules, b) == Pass
    && forall j | 0 <= j < i :: blocks[j].hash != b.hash || CheckPowSortitionId(rules, blocks[j]) != Pass
  }

  /** Of two blocks under one hash, both with proof of work, the one that arrives first is kept. */
  lemma {:induction false} FirstIsStored(rules: Rules, db: map<Hash, Block>, blocks: seq<Block>, b: Block)
    requires rules.widths.Valid()
    ensures b.hash in db ==> b.hash in Arrivals(rules, db, blocks) && Arrivals(rules, db, blocks)[b.hash] == db[b.hash]
    ensures b.hash !in db ==> (StoredAs(Arrivals(rules, db, blocks), b) <==> ArrivesFirst(rules, blocks, b))
    ensures b.hash !in db ==>
              (b.hash in Arrivals(rules, db, blocks) <==>
               exists j :: 0 <= j < |blocks| && blocks[j].hash == b.hash && CheckPowSortitionId(rules, blocks[j]) == Pass)
  {
    hide CheckPowSortitionId;
    if blocks != [] {
      var rest, last := Init(blocks), Last(blocks);
      FirstIsStored(rules, db, rest, b);
      if b.hash !in db {
        FirstSnoc(rules, rest, last, b);
        assert rest + [last] == blocks;
        assert forall j | 0 <= j < |rest| :: blocks[j] == rest[j];
        assert blocks[|rest|] == last;
      }
    }
  }

  lemma FirstSnoc(rules: Rules, rest: seq<Block>, last: Block, b: Block)
    requires rules.widths.Valid()
    ensures ArrivesFirst(rules, rest + [last], b) <==>
            || ArrivesFirst(rules, rest, b)
            || (last == b && CheckPowSortitionId(rules, b) == Pass
                && forall j | 0 <= j < |rest| :: rest[j].hash != b.hash || CheckPowSortitionId(rules, rest[j]) != Pass)
  {
    hide CheckPowSortitionId;
    var all := rest + [last];
    assert forall j | 0 <= j < |rest| :: all[j] == rest[j];
    if i :| FirstAt(rules, rest, b, i) {
      assert FirstAt(rules, all, b, i);
    }
    if i :| FirstAt(rules, all, b, i) {
      assert forall j | 0 <= j < i :: all[j].hash != b.hash || CheckPowSortitionId(rules, all[j]) != Pass;
      assert i < |rest| ==> FirstAt(rules, rest, b, i);
    }
    if last == b && CheckPowSortitionId(rules, b) == Pass
       && forall j | 0 <= j < |rest| :: rest[j].hash != b.hash || CheckPowSortitionId(rules, rest[j]) != Pass {
      assert FirstAt(rules, all, b, |rest|);
    }
  }

  lemma {:induction false} ArrivalsConcat(rules: Rules, db: map<Hash, Block>, a: seq<Block>, b: seq<Block>)
    requires rules.widths.Valid()
    ensures Arrivals(rules, db, a + b) == Arrivals(rules, Arrivals(rules, db, a), b)
    decreases |b|
  {
    hide CheckPowSortitionId;
    if b == [] {
      assert a + b == a;
    } else {
      assert Init(a + b) == a + Init(b) && Last(a + b) == Last(b);
      ArrivalsConcat(rules, db, a, Init(b));
    }
  }

  /** The messages before the first one on which the worker panics. */
  ghost function Handled(rules: Rules, messages: seq<seq<Block>>): (r: seq<seq<Block>>)
    requires rules.widths.Valid()
    ensures r <= messages
  {
    if messages == [] then []
    else
      var before := Handled(rules, Init(messages));
      if |before| == |messages| - 1 && !Panics(rules, Last(messages)) then before + [Last(messages)] else before
  }

  /** Messages of any size, in any order, with any repetition, among any other blocks: all blocks
      of the set end up in the chain, each exactly once and after what it refers to, if and only
      if each of them is the one that the database kept under its hash, from the messages before
      the first panic. Then none is left in the buffer, and if nothing else was stored the buffer
      is empty. */
  method Deliver(worker: BlockWorker, messages: seq<seq<Block>>)
    requires worker.Valid() && !worker.crashed && forall m | m in messages :: Proper(worker.chain.config, worker.rules, m)
    modifies worker, worker.chain, worker.buffer
    ensures worker.Valid() && (worker.crashed <==> Handled(worker.rules, messages) != messages)
    ensures worker.processed == Arrivals(worker.rules, old(worker.processed), Flatten(Handled(worker.rules, messages)))
    ensures Delivered(worker.world, worker.log) <==> AllStored(worker.world, worker.processed)
    ensures Delivered(worker.world, worker.log) ==> worker.buffer.blocks.Keys !! worker.world.blocks.Keys
    ensures Delivered(worker.world, worker.log) && worker.processed.Keys <= worker.world.blocks.Keys ==> worker.buffer.blocks == map[]
    ensures Unique(worker.log) && InOrder(worker.chain.config, worker.log)
    ensures Known(worker.chain.config, worker.chain.View()) == GenesisHashes(worker.chain.config) + HashesOf(worker.log)
    ensures old(worker.processed) == map[] ==>
              (Delivered(worker.world, worker.log) <==>
               forall h | h in worker.world.blocks ::
                 ArrivesFirst(worker.rules, Flatten(Handled(worker.rules, messages)), worker.world.blocks[h]))
  {
    hide Consistent, Proper, Arrivals, Keyed, Inverse, Unique, InOrder, HashesOf, Known, GenesisHashes, Delivered, AllStored, Flatten,
      ArrivesFirst, Panics;
    assert messages[..0] == [];
    NothingArrived(worker.rules, worker.processed);
    for i := 0 to |messages|
      invariant worker.Valid() && (worker.crashed <==> Handled(worker.rules, messages[..i]) != messages[..i])
      invariant worker.processed == Arrivals(worker.rules, old(worker.processed), Flatten(Handled(worker.rules, messages[..i])))
    {
      ghost var before := Handled(worker.rules, messages[..i]);
      worker.HandleBlocks(messages[i]);
      assert Init(messages[..i + 1]) == messages[..i] && Last(messages[..i + 1]) == messages[i];
      HandledIsWhole(messages[..i], before);
      ArrivalsConcat(worker.rules, old(worker.processed), Flatten(before), messages[i]);
      FlattenSnoc(before, messages[i]);
    }
    assert messages[..|messages|] == messages;
    ghost var x := worker.View().(stored := worker.processed);
    DeliveredIffStored(worker.chain.config, worker.rules, worker.world, x);
    Summary(worker.chain.config, worker.rules, worker.world, x);
    if old(worker.processed) == map[] {
      StoredIffFirst(worker.chain.config, worker.rules, worker.world, Flatten(Handled(worker.rules, messages)));
    }
  }

  lemma HandledIsWhole(messages: seq<seq<Block>>, before: seq<seq<Block>>)
    requires before <= messages
    ensures before == messages <==> |before| == |messages|
  {
  }

  /** With proposer width at most the total voter width, no block of 256-bit numbers makes the
      worker panic. */
  lemma {:induction false} NarrowNeverPanics(rules: Rules, messages: seq<seq<Block>>)
    requires rules.widths.Valid() && rules.widths.proposer <= rules.widths.voter * rules.widths.voterChains
    requires forall m, b | m in messages && b in m :: b.hash < TWO_256 && b.header.difficulty < TWO_256
    ensures Handled(rules, messages) == messages
  {
    if messages != [] {
      assert Last(messages) in messages;
      forall b | b in Last(messages)
        ensures CheckPowSortitionId(rules, b) != Panicked
      {
        NarrowProposersMineExactly(rules.widths, b.hash, b.header.difficulty);
      }
      hide CheckPowSortitionId;
      NarrowNeverPanics(rules, Init(messages));
      assert Init(messages) + [Last(messages)] == messages;
    }
  }

  lemma NothingArrived(rules: Rules, db: map<Hash, Block>)
    requires rules.widths.Valid()
    ensures Arrivals(rules, db, Flatten([])) == db
  {
  }

  lemma StoredIffFirst(c: Config, rules: Rules, w: World, blocks: seq<Block>)
    requires rules.widths.Valid() && ValidWorld(c, rules, w)
    ensures AllStored(w, Arrivals(rules, map[], blocks)) <==> forall h | h in w.blocks :: ArrivesFirst(rules, blocks, w.blocks[h])
  {
    hide ValidWorld, Arrivals, ArrivesFirst;
    OwnHashes(c, rules, w);
    forall h | h in w.blocks
      ensures StoredAs(Arrivals(rules, map[], blocks), w.blocks[h]) <==> ArrivesFirst(rules, blocks, w.blocks[h])
    {
      FirstIsStored(rules, map[], blocks, w.blocks[h]);
    }
  }

  lemma Summary(c: Config, rules: Rules, w: World, x: Intake)
    requires Consistent(c, rules, w, x, []) && rules.widths.Valid()
    ensures ValidWorld(c, rules, w)
    ensures Unique(x.log) && InOrder(c, x.log) && Known(c, x.chain) == GenesisHashes(c) + HashesOf(x.log)
    ensures x.blocks.Keys <= x.stored.Keys
  {
    hide ValidState, ValidWorld, OnTrack, FromStore, InOrder, Keyed, Recorded, Vetted;
  }

  /** A block of the set with a sortition proof that is one entry too long. */
  function Spoiled(b: Block): Block {
    b.(sortitionProof := b.sortitionProof + [0])
  }

  lemma SpoiledProvesNothing(rules: Rules, b: Block)
    requires rules.widths.Valid() && ProvesContent(rules, b)
    ensures !ProvesContent(rules, Spoiled(b)) && CheckPowSortitionId(rules, Spoiled(b)) == CheckPowSortitionId(rules, b)
    ensures Spoiled(b) != b && Spoiled(b).hash == b.hash
  {
    hide SortitionHash;
    assert |Spoiled(b).sortitionProof| == |b.sortitionProof| + 1;
  }

  /** Whatever other block with its hash and a proof of work arrives first, the block itself is
      taken for a duplicate and does not get into the chain. */
  method OtherFirst(config: Config, rules: Rules, ghost world: World, b: Block, other: Block) returns (worker: BlockWorker)
    requires ValidConfig(config) && ValidWorld(config, rules, world) && b.hash in world.blocks && world.blocks[b.hash] == b
    requires other != b && other.header == b.header && other.hash == b.hash && CheckPowSortitionId(rules, other) == Pass
    ensures worker.Valid() && !worker.crashed && worker.processed == map[b.hash := other]
    ensures b !in worker.log && (!ProvesContent(rules, other) ==> b.hash !in HashesOf(worker.log))
  {
    hide ValidWorld, ValidConfig, Consistent, HashesOf, CheckPowSortitionId, ProvesContent, Keyed, Inverse;
    SetBlock(config, rules, world, b);
    worker := new BlockWorker(config, rules, world);
    ArrivesAlone(rules, map[], other);
    worker.HandleBlocks([other]);
    ArrivesAlone(rules, worker.processed, b);
    worker.HandleBlocks([b]);
    Shut(config, rules, world, worker.View().(stored := worker.processed), b, other);
  }

  /** So the condition matters for every single block: a copy with a spoiled proof that arrives
      first keeps both out of the chain. */
  method SpoiledFirst(config: Config, rules: Rules, ghost world: World, b: Block) returns (worker: BlockWorker)
    requires ValidConfig(config) && ValidWorld(config, rules, world) && b.hash in world.blocks && world.blocks[b.hash] == b
    ensures worker.Valid() && !worker.crashed && worker.processed == map[b.hash := Spoiled(b)]
    ensures b !in worker.log && b.hash !in HashesOf(worker.log)
  {
    hide ValidWorld, ValidConfig, HashesOf, CheckPowSortitionId, ProvesContent;
    SetBlock(config, rules, world, b);
    SpoiledProvesNothing(rules, b);
    worker := OtherFirst(config, rules, world, b, Spoiled(b));
  }

  /** A proposer or transaction block can also be shut out by a voter content: the check of the
      proof of work lets a chain number through that wraps around to the id of such a block. */
  method WrappedFirst(config: Config, rules: Rules, ghost world: World, b: Block) returns (worker: BlockWorker)
    requires ValidConfig(config) && ValidWorld(config, rules, world) && b.hash in world.blocks && world.blocks[b.hash] == b
    requires !b.content.Voter?
    ensures worker.Valid() && !worker.crashed && worker.processed == map[b.hash := Wrapped(b)]
    ensures b !in worker.log
  {
    hide ValidWorld, ValidConfig, HashesOf, CheckPowSortitionId, ProvesContent, Wrapped;
    SetBlock(config, rules, world, b);
    WrappedIsMined(rules, b);
    worker := OtherFirst(config, rules, world, b, Wrapped(b));
  }

  lemma SetBlock(c: Config, rules: Rules, w: World, b: Block)
    requires ValidWorld(c, rules, w) && b.hash in w.blocks && w.blocks[b.hash] == b
    ensures rules.widths.Valid() && Hashed(rules.hashes, b) && b.hash !in GenesisHashes(c)
    ensures CheckPowSortitionId(rules, b) == Pass && ProvesContent(rules, b)
  {
    hide CheckPowSortitionId, ProvesContent;
    assert Lawful(rules, w, b);
    NotGenesis(c, rules, w, b.hash);
  }

  lemma ArrivesAlone(rules: Rules, db: map<Hash, Block>, b: Block)
    requires rules.widths.Valid() && CheckPowSortitionId(rules, b) == Pass
    ensures Arrivals(rules, db, [b]) == (if b.hash in db then db else db[b.hash := b]) && !Panics(rules, [b])
  {
    assert Init([b]) == [] && Last([b]) == b && Arrivals(rules, db, []) == db;
  }

  lemma Shut(c: Config, rules: Rules, w: World, x: Intake, b: Block, other: Block)
    requires Consistent(c, rules, w, x, []) && rules.widths.Valid() && x.stored == map[b.hash := other] && other != b
    ensures b !in x.log && (!ProvesContent(rules, other) ==> b.hash !in HashesOf(x.log))
  {
    hide Base, ValidWorld, OnTrack, ProvesContent;
    TwinShutsOut(c, rules, x, [], b);
  }
}
