/** Whole runs of a node with many workers: whatever the interleaving, the blocks of a valid set
    all end up in the chain, each once and after what it refers to. */
module ConcurrentDelivery {
  import opened Prelude
  import opened Blocks
  import opened ProposerGraph
  import opened ChainState
  import opened ChainUpdate
  import opened Validation
  import opened IntakeSpec
  import opened ConcurrentIntake

  lemma BeginOk(c: Config, rules: Rules, traffic: Traffic, db: map<Hash, Block>, s: Node)
    requires rules.widths.Valid() && Begin(c, s)
    ensures Inv(c, rules, traffic, db, s)
  {
    hide Inv, ValidState, Refer, Mirrors, LogOk, GateOk, Admission.Inv, Interleaving.Inv, Passes, GenesisGraph;
    BeginGate(c, rules, traffic, db, s);
    Interleaving.StartOk(Refer(c, db), s.net);
    BeginMirrors(c, db, s.chain);
    BeginLog(c, rules, db, s);
    InvFrom(c, rules, traffic, db, s);
  }

  lemma BeginGate(c: Config, rules: Rules, traffic: Traffic, db: map<Hash, Block>, s: Node)
    requires rules.widths.Valid() && Admission.Start(s.gate) && Interleaving.Start(s.net)
    ensures GateOk(c, rules, traffic, db, s)
  {
    hide Enters, Admission.Inv;
    Admission.StartOk(HashOf(traffic), s.gate);
  }

  lemma BeginMirrors(c: Config, db: map<Hash, Block>, s: State)
    requires s.db.proposers == GenesisGraph(c.proposerGenesis) && s.db.voters.level.Keys == s.db.parentOf.Keys == Elements(c.voterGenesis)
    ensures Mirrors(c, db, {}, s)
  {
    hide GenesisHashes;
  }

  lemma BeginLog(c: Config, rules: Rules, db: map<Hash, Block>, s: Node)
    requires rules.widths.Valid() && s.log == [] && s.net.chain == {} && s.chain.db.proposers == GenesisGraph(c.proposerGenesis)
    ensures LogOk(c, rules, db, s)
  {
    hide ProvesContent, Signed, Needs, GenesisHashes;
  }

  lemma GateMoves(c: Config, rules: Rules, traffic: Traffic, s: Node, s': Node, e: Event)
    requires rules.widths.Valid() && NextStep(c, rules, traffic, s, s', e)
    ensures if e.Admit? then Admission.NextStep(HashOf(traffic), s.gate, s'.gate, e.action) else s'.gate == s.gate
  {
    hide Updated, Acceptable, Inserted, Missing, Refer, Stored, Passes, Enters, Interleaving.Enabled, Interleaving.After, Admission.NextStep;
  }

  lemma {:induction false} GateRun(c: Config, rules: Rules, traffic: Traffic, run: seq<Node>, n: nat)
    requires rules.widths.Valid() && Run(c, rules, traffic, run) && n < |run|
    ensures Admission.Inv(HashOf(traffic), run[n].gate)
    decreases n
  {
    hide NextStep, Admission.Inv, Admission.NextStep, ValidState;
    if n == 0 {
      Admission.StartOk(HashOf(traffic), run[0].gate);
    } else {
      GateRun(c, rules, traffic, run, n - 1);
      assert Next(c, rules, traffic, run[n - 1], run[n - 1 + 1]);
      var e :| NextStep(c, rules, traffic, run[n - 1], run[n], e);
      GateMoves(c, rules, traffic, run[n - 1], run[n], e);
      if e.Admit? {
        Admission.ActionKeepsInv(HashOf(traffic), run[n - 1].gate, run[n].gate, e.action);
      }
    }
  }

  lemma DatabaseGrows(c: Config, rules: Rules, traffic: Traffic, s: Node, s': Node, e: Event)
    requires rules.widths.Valid() && NextStep(c, rules, traffic, s, s', e) && Admission.Inv(HashOf(traffic), s.gate)
    ensures forall h | h in s.gate.stored :: h in s'.gate.stored && s'.gate.stored[h] == s.gate.stored[h]
  {
    hide NextStep, Admission.Inv, Admission.NextStep;
    GateMoves(c, rules, traffic, s, s', e);
    if e.Admit? {
      Admission.NothingOverwritten(HashOf(traffic), s.gate, s'.gate, e.action);
    }
  }

  /** What the database has under a hash it has in every later state. */
  lemma {:induction false} StoredStays(c: Config, rules: Rules, traffic: Traffic, run: seq<Node>, n: nat, m: nat)
    requires rules.widths.Valid() && Run(c, rules, traffic, run) && n <= m < |run|
    ensures Towards(traffic, Stored(traffic, run[m]), run[n])
    decreases m
  {
    hide NextStep, Admission.Inv, Begin;
    if n < m {
      StoredStays(c, rules, traffic, run, n, m - 1);
      GateRun(c, rules, traffic, run, m - 1);
      assert Next(c, rules, traffic, run[m - 1], run[m - 1 + 1]);
      var e :| NextStep(c, rules, traffic, run[m - 1], run[m], e);
      DatabaseGrows(c, rules, traffic, run[m - 1], run[m], e);
    }
  }

  /** The invariant holds at every moment of every run, with what the database has in the end. */
  lemma {:induction false} RunKeepsInv(c: Config, rules: Rules, traffic: Traffic, run: seq<Node>, n: nat, m: nat)
    requires rules.widths.Valid() && Run(c, rules, traffic, run) && n <= m < |run|
    ensures Inv(c, rules, traffic, Stored(traffic, run[m]), run[n])
    decreases n
  {
    hide NextStep, Inv, Towards, Begin, Stored;
    var db := Stored(traffic, run[m]);
    if n == 0 {
      BeginOk(c, rules, traffic, db, run[0]);
    } else {
      RunKeepsInv(c, rules, traffic, run, n - 1, m);
      assert Next(c, rules, traffic, run[n - 1], run[n - 1 + 1]);
      var e :| NextStep(c, rules, traffic, run[n - 1], run[n], e);
      StoredStays(c, rules, traffic, run, n, m);
      StepKeepsInv(c, rules, traffic, db, run[n - 1], run[n], e);
    }
  }

  /** The chain has the blocks of the set as they are meant to be, and none was rejected. */
  ghost predicate Course(c: Config, w: World, s: Node) {
    Agrees(c, w, s.chain) && forall h | h in w.blocks && h in s.net.place :: s.net.place[h] != Interleaving.Rejected
  }

  lemma AgreesStays(c: Config, w: World, s: State, s': State)
    requires Agrees(c, w, s) && s'.db.proposers == s.db.proposers && s'.db.voters == s.db.voters && s'.db.parentOf == s.db.parentOf
    ensures Agrees(c, w, s')
  {
  }

  lemma AdmitKeepsCourse(c: Config, rules: Rules, w: World, traffic: Traffic, db: map<Hash, Block>, s: Node, s': Node, a: Admission.Action)
    requires rules.widths.Valid() && Inv(c, rules, traffic, db, s) && Course(c, w, s) && AdmitStep(c, rules, traffic, s, s', a)
    ensures Course(c, w, s')
  {
    hide Agrees, Enters, Admission.NextStep;
  }

  lemma WorkKeepsCourse(c: Config, rules: Rules, w: World, traffic: Traffic, db: map<Hash, Block>, s: Node, s': Node, step: Interleaving.Step)
    requires rules.widths.Valid() && Inv(c, rules, traffic, db, s) && Course(c, w, s) && WorkStep(c, traffic, s, s', step)
    requires ValidWorld(c, rules, w) && Unspoiled(w, db)
    ensures Course(c, w, s')
  {
    hide Inv, Agrees, Acceptable, Inserted, Missing, Refer, Stored, Interleaving.Enabled, Interleaving.After, Interleaving.NextStep,
      Interleaving.Inv, ValidWorld, GateOk, LogOk, PassedOk, Mirrors, ValidState, Known, Needs, GenesisHashes, ProvesContent;
    InvChain(c, rules, traffic, db, s);
    WorkIsStep(c, rules, traffic, db, s, s', step);
    StepFrame(Refer(c, db), s.net, s'.net, step);
    forall h | h in w.blocks && h in s'.net.place
      ensures s'.net.place[h] != Interleaving.Rejected
    {
      assert StepMoves(s.net.place[h], s'.net.place[h], step, h);
    }
    if step.Insert? {
      EnabledInsert(s.net, step.h);
      InsertIsSafe(c, rules, traffic, db, s, step.h);
      AgreesAfter(c, rules, w, s.chain, db[step.h]);
    }
  }

  lemma EnabledInsert(s: Interleaving.Net, h: Hash)
    requires Interleaving.Enabled(s, Interleaving.Insert(h))
    ensures h in s.place && s.place[h].Checked?
  {
  }

  lemma LawfulBlock(c: Config, rules: Rules, w: World, h: Hash)
    requires ValidWorld(c, rules, w) && h in w.blocks
    ensures rules.widths.Valid() && w.blocks[h].hash == h && Lawful(rules, w, w.blocks[h]) && ProvesContent(rules, w.blocks[h])
  {
    hide LawfulContent, Named, Ranked, Rooted, CheckPowSortitionId;
  }

  /** A block of the set passes the checks, whenever they come. */
  lemma ValidateKeepsCourse(c: Config, rules: Rules, w: World, traffic: Traffic, db: map<Hash, Block>, s: Node, s': Node, h: Hash)
    requires rules.widths.Valid() && Inv(c, rules, traffic, db, s) && Course(c, w, s) && ValidateStep(c, rules, traffic, s, s', h)
    requires ValidWorld(c, rules, w) && Unspoiled(w, db)
    ensures Course(c, w, s')
  {
    hide Inv, Agrees, Acceptable, Refer, Stored, ValidWorld, GateOk, LogOk, PassedOk, Mirrors, ValidState, Known, Needs, GenesisHashes,
      ProvesContent, Signed, Available, Lawful, Interleaving.Inv;
    InvChain(c, rules, traffic, db, s);
    CheckedIsReady(c, rules, traffic, db, s, h);
    if h in w.blocks {
      LawfulBlock(c, rules, w, h);
      LawfulPasses(c, rules, w, s.chain, db[h]);
    }
  }

  lemma StepKeepsCourse(c: Config, rules: Rules, w: World, traffic: Traffic, db: map<Hash, Block>, s: Node, s': Node, e: Event)
    requires rules.widths.Valid() && Inv(c, rules, traffic, db, s) && Course(c, w, s) && NextStep(c, rules, traffic, s, s', e)
    requires ValidWorld(c, rules, w) && Unspoiled(w, db)
    ensures Course(c, w, s')
  {
    hide Inv, Agrees, AdmitStep, WorkStep, ValidateStep, Updated, ValidWorld, Unspoiled, ValidState;
    match e {
      case Admit(a) => AdmitKeepsCourse(c, rules, w, traffic, db, s, s', a);
      case Work(step) => WorkKeepsCourse(c, rules, w, traffic, db, s, s', step);
      case Validate(h) => ValidateKeepsCourse(c, rules, w, traffic, db, s, s', h);
      case UpdateLedger =>
        GraphStays(c, s.chain, s'.chain);
        AgreesStays(c, w, s.chain, s'.chain);
    }
  }

  lemma BeginCourse(c: Config, rules: Rules, w: World, s: Node)
    requires Begin(c, s) && ValidWorld(c, rules, w)
    ensures Course(c, w, s)
  {
    hide Agrees, ValidState, ValidWorld;
    assert Known(c, s.chain) == GenesisHashes(c);
    GenesisAgrees(c, rules, w, s.chain);
  }

  lemma {:induction false} RunKeepsCourse(c: Config, rules: Rules, w: World, traffic: Traffic, run: seq<Node>, n: nat, m: nat)
    requires rules.widths.Valid() && Run(c, rules, traffic, run) && n <= m < |run|
    requires ValidWorld(c, rules, w) && Unspoiled(w, Stored(traffic, run[m]))
    ensures Course(c, w, run[n])
    decreases n
  {
    hide NextStep, Inv, Begin, Stored, ValidWorld, Unspoiled, Course;
    if n == 0 {
      BeginCourse(c, rules, w, run[0]);
    } else {
      RunKeepsCourse(c, rules, w, traffic, run, n - 1, m);
      RunKeepsInv(c, rules, traffic, run, n - 1, m);
      assert Next(c, rules, traffic, run[n - 1], run[n - 1 + 1]);
      var e :| NextStep(c, rules, traffic, run[n - 1], run[n], e);
      StepKeepsCourse(c, rules, w, traffic, Stored(traffic, run[m]), run[n - 1], run[n], e);
    }
  }

  /** Under every interleaving: a valid block is never rejected, unless another block is stored
      under the hash of a block of its set. */
  lemma NeverRejected(c: Config, rules: Rules, w: World, traffic: Traffic, run: seq<Node>, n: nat, h: Hash)
    requires rules.widths.Valid() && Run(c, rules, traffic, run) && n < |run|
    requires ValidWorld(c, rules, w) && Unspoiled(w, Stored(traffic, run[n])) && h in w.blocks && h in run[n].net.place
    ensures run[n].net.place[h] != Interleaving.Rejected
  {
    hide Run, ValidWorld, Unspoiled, Stored, Agrees;
    RunKeepsCourse(c, rules, w, traffic, run, n, n);
  }

  /** A place for every block of the set, references first. */
  ghost function RankOf(w: World): map<Hash, nat> {
    map h | h in w.blocks :: if h in w.rank then w.rank[h] else 0
  }

  /** The blocks of the set refer to each other, as what they are. */
  lemma LawfulLinks(c: Config, rules: Rules, w: World, db: map<Hash, Block>, h: Hash)
    requires ValidWorld(c, rules, w) && AllStored(w, db) && h in w.blocks
    ensures Misfits(c, db, db[h]) == {}
    ensures forall d | d in Links(c, db[h]) :: d in w.blocks && RankOf(w)[d] < RankOf(w)[h]
  {
    hide ValidWorld, Lawful, References, Named, AtGenesis, Misfit;
    LawfulBlock(c, rules, w, h);
    forall r | r in References(db[h]) && !AtGenesis(c, r)
      ensures r.hash in w.blocks && RankOf(w)[r.hash] < RankOf(w)[h] && !Misfit(c, db, r)
    {
      LawfulLink(c, rules, w, db, h, r);
    }
  }

  lemma LawfulLink(c: Config, rules: Rules, w: World, db: map<Hash, Block>, h: Hash, r: Reference)
    requires ValidWorld(c, rules, w) && AllStored(w, db) && h in w.blocks && r in References(w.blocks[h]) && !AtGenesis(c, r)
    ensures r.hash in w.blocks && RankOf(w)[r.hash] < RankOf(w)[h] && !Misfit(c, db, r)
  {
    assert rules.widths.Valid() && Lawful(rules, w, w.blocks[h]) && w.blocks[h].hash == h;
    assert Named(w, r) && Ranked(w, h, r) by { LawfulRefs(rules, w, w.blocks[h], r); }
    hide Lawful, References;
  }

  lemma LawfulRefs(rules: Rules, w: World, b: Block, r: Reference)
    requires rules.widths.Valid() && Lawful(rules, w, b) && r in References(b)
    ensures Named(w, r) && Ranked(w, b.hash, r)
  {
    hide References, LawfulContent, CheckPowSortitionId, ProvesContent, Named, Ranked;
  }

  lemma SetIsReceived(c: Config, rules: Rules, w: World, traffic: Traffic, s: Node)
    requires rules.widths.Valid() && GateOk(c, rules, traffic, Stored(traffic, s), s)
    requires AllStored(w, Stored(traffic, s)) && Admission.Idle(s.gate)
    ensures w.blocks.Keys <= s.net.place.Keys
  {
    hide Enters, Towards, Admission.Inv, Admission.Idle;
    Admission.IdleGate(HashOf(traffic), s.gate);
  }

  lemma SetIsClosed(c: Config, rules: Rules, w: World, db: map<Hash, Block>, s: Interleaving.Net)
    requires ValidWorld(c, rules, w) && AllStored(w, db) && w.blocks.Keys <= s.place.Keys
    ensures Interleaving.Closed(Refer(c, db), s, w.blocks.Keys, RankOf(w))
  {
    hide ValidWorld, Links, Misfits;
    forall h | h in w.blocks
      ensures Misfits(c, db, db[h]) == {}
      ensures forall d | d in Links(c, db[h]) :: d in w.blocks && RankOf(w)[d] < RankOf(w)[h]
    {
      LawfulLinks(c, rules, w, db, h);
    }
  }

  /** Under every interleaving: once the workers are done, a valid set of blocks is in the chain,
      none of it in the buffer, if and only if for each of its hashes the copy that the database
      has is the block of the set. Nothing was inserted twice or before what it refers to. */
  lemma WorkersDeliver(c: Config, rules: Rules, w: World, traffic: Traffic, run: seq<Node>)
    requires rules.widths.Valid() && ValidWorld(c, rules, w) && Run(c, rules, traffic, run)
    requires Admission.Idle(Last(run).gate) && Interleaving.Quiet(Last(run).net)
    ensures Delivered(w, Last(run).log) <==> AllStored(w, Stored(traffic, Last(run)))
    ensures Delivered(w, Last(run).log) ==> w.blocks.Keys !! Last(run).net.dependency.Keys
    ensures Unique(Last(run).log) && InOrder(c, Last(run).log)
    ensures ValidState(c, Last(run).chain) && Known(c, Last(run).chain) == GenesisHashes(c) + HashesOf(Last(run).log)
  {
    hide Next, Begin, Inv, GateOk, Mirrors, Recorded, ValidWorld, ValidState, Unique, InOrder, Vetted, PassedOk, Refer, Stored, Known,
      GenesisHashes, HashesOf, Interleaving.Inv, Interleaving.Quiet, Interleaving.Closed, Admission.Idle, Agrees, Delivered, AllStored;
    var s, db, n := Last(run), Stored(traffic, Last(run)), |run| - 1;
    RunKeepsInv(c, rules, traffic, run, n, n);
    InvChain(c, rules, traffic, db, s);
    KnownIs(c, db, s.net.chain, s.chain);
    if AllStored(w, db) {
      AllAreUnspoiled(w, db);
      RunKeepsCourse(c, rules, w, traffic, run, n, n);
      SetIsReceived(c, rules, w, traffic, s);
      SetIsClosed(c, rules, w, db, s.net);
      Interleaving.GroupSettles(Refer(c, db), s.net, w.blocks.Keys, RankOf(w));
      InLog(w, db, s.log, s.net.chain);
    }
    FromLog(c, rules, w, db, s.log);
  }

  lemma AllAreUnspoiled(w: World, db: map<Hash, Block>)
    requires AllStored(w, db)
    ensures Unspoiled(w, db)
  {
  }

  lemma InLog(w: World, db: map<Hash, Block>, log: seq<Block>, chain: set<Hash>)
    requires AllStored(w, db) && w.blocks.Keys <= chain && HashesOf(log) == chain
    requires forall b | b in log :: b.hash in db && db[b.hash] == b
    ensures Delivered(w, log)
  {
    forall h | h in w.blocks
      ensures w.blocks[h] in log
    {
      assert h in HashesOf(log);
      var b :| b in log && b.hash == h;
    }
  }

  lemma FromLog(c: Config, rules: Rules, w: World, db: map<Hash, Block>, log: seq<Block>)
    requires ValidWorld(c, rules, w) && forall b | b in log :: b.hash in db && db[b.hash] == b
    ensures Delivered(w, log) ==> AllStored(w, db)
  {
    OwnHashes(c, rules, w);
    hide ValidWorld;
  }
}
