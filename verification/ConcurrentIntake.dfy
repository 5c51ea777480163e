/** All workers of a node at once, on the real chain: copies of blocks come in through
    `recent_blocks` and `blockdb`, are checked against the chain of the moment, buffered, rejected or
    inserted, while the ledger is updated in between, src/network/worker.rs and
    src/ledger_manager/mod.rs. Any step of any thread may come next. */
module ConcurrentIntake {
  import opened Prelude
  import opened Blocks
  import opened BlockHashes
  import opened ProposerGraph
  import opened VoterTrees
  import opened ChainSteps
  import opened ChainState
  import opened ChainUpdate
  import opened Growth
  import opened Validation
  import opened IntakeSpec
  import Admission
  import Interleaving

  /** A copy of a block, and the worker that got it. */
  datatype Copy = Copy(block: Block, worker: nat)

  /** What every copy that will ever arrive is. */
  type Traffic = nat -> Copy

  ghost function HashOf(traffic: Traffic): Admission.Hashes {
    i => traffic(i).block.hash
  }

  /** `passed` are the blocks that passed all checks; `log` are the inserted blocks in order. */
  datatype Node = Node(gate: Admission.Gate, net: Interleaving.Net, chain: State, passed: set<Hash>, log: seq<Block>)

  datatype Event =
    | Admit(action: Admission.Action)
    | Work(step: Interleaving.Step)
    | Validate(h: Hash)
    | UpdateLedger

  /** The block database. */
  ghost function Stored(traffic: Traffic, s: Node): map<Hash, Block> {
    map h | h in s.gate.stored :: traffic(s.gate.stored[h]).block
  }

  /** The reference is to a genesis block of its kind, or cannot tell the kind. */
  ghost predicate AtGenesis(c: Config, r: Reference) {
    match r
    case ToProposer(h) => h == c.proposerGenesis
    case ToVoter(h) => h in c.voterGenesis
    case ToTransaction(h) => h in c.voterGenesis
  }

  ghost predicate Fits(r: Reference, b: Block) {
    (r.ToProposer? ==> b.content.Proposer?) && (r.ToVoter? ==> b.content.Voter?)
  }

  /** The hashes to look up for a block. */
  ghost function Links(c: Config, b: Block): set<Hash> {
    set r | r in References(b) && !AtGenesis(c, r) :: r.hash
  }

  /** The reference is to a block of another kind. */
  ghost predicate Misfit(c: Config, db: map<Hash, Block>, r: Reference) {
    r.hash in GenesisHashes(c) || (r.hash in db && !Fits(r, db[r.hash]))
  }

  ghost function Misfits(c: Config, db: map<Hash, Block>, b: Block): set<Hash> {
    set r | r in References(b) && !AtGenesis(c, r) && Misfit(c, db, r) :: r.hash
  }

  ghost function Refer(c: Config, db: map<Hash, Block>): Interleaving.Needs {
    Interleaving.Needs(h => if h in db then Links(c, db[h]) else {}, h => if h in db then Misfits(c, db, db[h]) else {})
  }

  /** A lookup of the hash for this block fails. */
  ghost predicate Missing(s: State, b: Block, d: Hash) {
    exists r | r in References(b) :: r.hash == d && !Present(s, r)
  }

  /** What comes off the wire and passes `check_pow_sortition_id`. */
  ghost predicate Enters(c: Config, rules: Rules, b: Block)
    requires rules.widths.Valid()
  {
    Hashed(rules.hashes, b) && b.hash !in GenesisHashes(c) && CheckPowSortitionId(rules, b) == Pass
  }

  /** The block passes `check_sortition_proof` and `check_content_semantic`. */
  ghost predicate Passes(rules: Rules, s: State, b: Block)
    requires rules.widths.Valid()
  {
    ProvesContent(rules, b) && Acceptable(s, b) && Signed(rules, b)
  }

  ghost predicate Begin(c: Config, s: Node) {
    && Admission.Start(s.gate) && Interleaving.Start(s.net) && s.passed == {} && s.log == []
    && ValidState(c, s.chain) && s.chain.db.proposers == GenesisGraph(c.proposerGenesis)
    && s.chain.db.voters.level.Keys == s.chain.db.parentOf.Keys == Elements(c.voterGenesis)
  }

  ghost predicate NextStep(c: Config, rules: Rules, traffic: Traffic, s: Node, s': Node, e: Event)
    requires rules.widths.Valid()
  {
    match e
    case Admit(a) => AdmitStep(c, rules, traffic, s, s', a)
    case Work(step) => WorkStep(c, traffic, s, s', step)
    case Validate(h) => ValidateStep(c, rules, traffic, s, s', h)
    case UpdateLedger => Updated(c, s.chain, s'.chain) && s' == s.(chain := s'.chain)
  }

  /** A copy moves through the gate; the worker of an admitted one has it on its stack. */
  ghost predicate AdmitStep(c: Config, rules: Rules, traffic: Traffic, s: Node, s': Node, a: Admission.Action)
    requires rules.widths.Valid()
  {
    && Admission.NextStep(HashOf(traffic), s.gate, s'.gate, a) && (a.Arrive? ==> Enters(c, rules, traffic(a.i).block))
    && s' == s.(gate := s'.gate, net := s'.net)
    && var h, worker := traffic(a.i).block.hash, traffic(a.i).worker;
       s'.net == if s'.gate.phase[a.i] == Admission.Admitted then s.net.(place := s.net.place[h := Interleaving.Queued(worker)]) else s.net
  }

  /** The lookups ask the chain of the moment; what passed is inserted into it. */
  ghost predicate WorkStep(c: Config, traffic: Traffic, s: Node, s': Node, step: Interleaving.Step) {
    var db := Stored(traffic, s);
    && step.h in db && Interleaving.Enabled(s.net, step)
    && match step
       case LookUp(h, d) =>
         var p := s.net.place[h];
         s' == s.(net := s.net.(place := s.net.place[h :=
                  Interleaving.Checking(p.worker, p.todo - {d}, p.missing + if Missing(s.chain, db[h], d) then {d} else {})]))
       case Insert(h) =>
         && h in s.passed && Acceptable(s.chain, db[h])
         && s' == s.(net := Interleaving.After(Refer(c, db), s.net, step), chain := Inserted(s.chain, db[h]), log := s.log + [db[h]])
       case Receive(_, _) => false
       case Reject(_) => false
       case _ => s' == s.(net := Interleaving.After(Refer(c, db), s.net, step))
  }

  /** The checks outside the lock, on the chain of the moment. */
  ghost predicate ValidateStep(c: Config, rules: Rules, traffic: Traffic, s: Node, s': Node, h: Hash)
    requires rules.widths.Valid()
  {
    var db := Stored(traffic, s);
    && h in db && h in s.net.place && s.net.place[h].Checked? && h !in s.passed
    && s' == if Passes(rules, s.chain, db[h]) then s.(passed := s.passed + {h})
             else s.(net := Interleaving.After(Refer(c, db), s.net, Interleaving.Reject(h)))
  }

  ghost predicate Next(c: Config, rules: Rules, traffic: Traffic, s: Node, s': Node)
    requires rules.widths.Valid()
  {
    exists e :: NextStep(c, rules, traffic, s, s', e)
  }

  /** A run of the node. */
  ghost predicate Run(c: Config, rules: Rules, traffic: Traffic, run: seq<Node>)
    requires rules.widths.Valid()
  {
    && |run| > 0 && Begin(c, run[0])
    && forall i | 0 <= i < |run| - 1 :: Next(c, rules, traffic, run[i], run[i + 1])
  }

  /** The chain has exactly the genesis blocks and the inserted blocks, each as what it is. */
  ghost predicate Mirrors(c: Config, db: map<Hash, Block>, chain: set<Hash>, s: State) {
    && chain <= db.Keys && chain !! GenesisHashes(c)
    && (forall h: Hash :: h in s.db.proposers.level <==> h == c.proposerGenesis || (h in chain && db[h].content.Proposer?))
    && (forall h: Hash :: h in s.db.voters.level <==> h in c.voterGenesis || (h in chain && db[h].content.Voter?))
    && forall h: Hash :: h in s.db.parentOf <==> h in c.voterGenesis || h in chain
  }

  /** What holds at the gate. `db` is what the database is going to be. */
  ghost predicate GateOk(c: Config, rules: Rules, traffic: Traffic, db: map<Hash, Block>, s: Node)
    requires rules.widths.Valid()
  {
    && Admission.Inv(HashOf(traffic), s.gate)
    && (forall i | i in s.gate.phase :: Enters(c, rules, traffic(i).block))
    && Towards(traffic, db, s) && Admission.Handed(s.gate, s.net.place.Keys)
  }

  /** The database is on its way to be `db`. */
  ghost predicate Towards(traffic: Traffic, db: map<Hash, Block>, s: Node) {
    forall h | h in s.gate.stored :: h in db && db[h] == traffic(s.gate.stored[h]).block
  }

  ghost predicate LogOk(c: Config, rules: Rules, db: map<Hash, Block>, s: Node)
    requires rules.widths.Valid()
  {
    && HashesOf(s.log) == s.net.chain && Unique(s.log) && InOrder(c, s.log) && Vetted(rules, s.log)
    && (forall b | b in s.log :: b.hash in db && db[b.hash] == b)
    && Recorded(c.proposerGenesis, s.chain.db.proposers, s.log)
  }

  /** A block that passed the checks would pass them now. */
  ghost predicate PassedOk(rules: Rules, db: map<Hash, Block>, s: Node)
    requires rules.widths.Valid()
  {
    forall h | h in s.passed ::
      && h in s.net.place && Beyond(s.net.place[h])
      && (s.net.place[h].Checked? ==> h in db && Passes(rules, s.chain, db[h]))
  }

  /** The block was found to have all its references. */
  ghost predicate Beyond(p: Interleaving.Place) {
    p.Checked? || p.Satisfying? || p.Settled?
  }

  ghost predicate Inv(c: Config, rules: Rules, traffic: Traffic, db: map<Hash, Block>, s: Node)
    requires rules.widths.Valid()
  {
    && GateOk(c, rules, traffic, db, s) && Interleaving.Inv(Refer(c, db), s.net)
    && ValidState(c, s.chain) && Mirrors(c, db, s.net.chain, s.chain)
    && LogOk(c, rules, db, s) && PassedOk(rules, db, s)
  }

  lemma PresentIff(c: Config, db: map<Hash, Block>, chain: set<Hash>, s: State, r: Reference)
    requires Mirrors(c, db, chain, s)
    ensures Present(s, r) <==> AtGenesis(c, r) || (r.hash in chain && Fits(r, db[r.hash]))
  {
  }

  /** A lookup in the chain fails for an unknown hash and for a block of another kind. */
  lemma LookUpFails(c: Config, db: map<Hash, Block>, chain: set<Hash>, s: State, b: Block, d: Hash)
    requires Mirrors(c, db, chain, s) && d in Links(c, b)
    ensures Missing(s, b, d) <==> d !in chain || d in Misfits(c, db, b)
  {
    hide Mirrors, Present, References;
    ChainApart(c, db, chain, s);
    forall r | r in References(b)
      ensures Present(s, r) <==> AtGenesis(c, r) || (r.hash in chain && Fits(r, db[r.hash]))
    {
      PresentIff(c, db, chain, s, r);
    }
    var r :| r in References(b) && !AtGenesis(c, r) && r.hash == d;
    hide Fits;
    if d !in chain {
      assert !Present(s, r);
    } else if Missing(s, b, d) {
      var q :| q in References(b) && q.hash == d && !Present(s, q);
      assert Misfit(c, db, q);
    } else {
      assert forall q | q in References(b) && q.hash == d :: Present(s, q);
    }
  }

  lemma ChainApart(c: Config, db: map<Hash, Block>, chain: set<Hash>, s: State)
    requires Mirrors(c, db, chain, s)
    ensures chain <= db.Keys && chain !! GenesisHashes(c)
    ensures forall r: Reference :: AtGenesis(c, r) ==> r.hash in GenesisHashes(c)
  {
  }

  lemma KnownIs(c: Config, db: map<Hash, Block>, chain: set<Hash>, s: State)
    requires Mirrors(c, db, chain, s)
    ensures Known(c, s) == GenesisHashes(c) + chain
  {
  }

  /** A block whose lookups all succeeded is available. */
  lemma FoundIsAvailable(c: Config, db: map<Hash, Block>, chain: set<Hash>, s: State, b: Block)
    requires Mirrors(c, db, chain, s) && Links(c, b) <= chain - Misfits(c, db, b)
    ensures Available(s, b)
  {
    hide Mirrors, Present, References, Absent;
    forall r | r in References(b)
      ensures Present(s, r)
    {
      PresentIff(c, db, chain, s, r);
      if !AtGenesis(c, r) {
        assert r.hash in Links(c, b) && (Misfit(c, db, r) ==> r.hash in Misfits(c, db, b));
        ChainApart(c, db, chain, s);
      }
    }
    NothingAbsent(s, References(b));
  }

  /** A hash that a worker admits is in no worker's hands and never was: the push is a `Receive`
      of the machine of the workers. */
  lemma AdmissionIsFresh(c: Config, rules: Rules, traffic: Traffic, db: map<Hash, Block>, s: Node, s': Node, a: Admission.Action)
    requires rules.widths.Valid() && GateOk(c, rules, traffic, db, s) && AdmitStep(c, rules, traffic, s, s', a)
    ensures Admission.Handed(s'.gate, s'.net.place.Keys)
    ensures forall k | k in s.net.place :: k in s'.net.place && s'.net.place[k] == s.net.place[k]
    ensures var h, worker := traffic(a.i).block.hash, traffic(a.i).worker;
            if s'.gate.phase[a.i] == Admission.Admitted
            then Interleaving.NextStep(Refer(c, db), s.net, s'.net, Interleaving.Receive(h, worker))
            else s'.net == s.net
  {
    hide Refer, Enters, Admission.Inv, Admission.NextStep, Admission.Handed;
    Admission.HandedOver(HashOf(traffic), s.gate, s'.gate, a, s.net.place.Keys);
    Admission.Arrivals(HashOf(traffic), s.gate, s'.gate, a);
    assert s'.net.place.Keys ==
           if s'.gate.phase[a.i] == Admission.Admitted then s.net.place.Keys + {traffic(a.i).block.hash} else s.net.place.Keys;
  }

  lemma AdmitKeepsGate(c: Config, rules: Rules, traffic: Traffic, db: map<Hash, Block>, s: Node, s': Node, a: Admission.Action)
    requires rules.widths.Valid() && GateOk(c, rules, traffic, db, s) && AdmitStep(c, rules, traffic, s, s', a) && Towards(traffic, db, s')
    ensures GateOk(c, rules, traffic, db, s')
  {
    AdmissionIsFresh(c, rules, traffic, db, s, s', a);
    Admission.ActionKeepsInv(HashOf(traffic), s.gate, s'.gate, a);
    Admission.Arrivals(HashOf(traffic), s.gate, s'.gate, a);
    hide Refer, Enters, Towards, Admission.Inv, Admission.NextStep, Admission.Handed, Interleaving.NextStep;
  }

  lemma AdmitKeeps(c: Config, rules: Rules, traffic: Traffic, db: map<Hash, Block>, s: Node, s': Node, a: Admission.Action)
    requires rules.widths.Valid() && Inv(c, rules, traffic, db, s) && AdmitStep(c, rules, traffic, s, s', a) && Towards(traffic, db, s')
    ensures Inv(c, rules, traffic, db, s')
  {
    hide GateOk, Mirrors, Refer, ValidState, LogOk, PassedOk, Interleaving.Inv, Interleaving.NextStep;
    AdmissionIsFresh(c, rules, traffic, db, s, s', a);
    AdmitKeepsGate(c, rules, traffic, db, s, s', a);
    var h, worker := traffic(a.i).block.hash, traffic(a.i).worker;
    if s'.gate.phase[a.i] == Admission.Admitted {
      Interleaving.StepKeepsInv(Refer(c, db), s.net, s'.net, Interleaving.Receive(h, worker));
    }
    AdmitKeepsRest(c, rules, traffic, db, s, s', a);
  }

  lemma AdmitKeepsRest(c: Config, rules: Rules, traffic: Traffic, db: map<Hash, Block>, s: Node, s': Node, a: Admission.Action)
    requires rules.widths.Valid() && LogOk(c, rules, db, s) && PassedOk(rules, db, s) && AdmitStep(c, rules, traffic, s, s', a)
    requires forall k | k in s.net.place :: k in s'.net.place && s'.net.place[k] == s.net.place[k]
    ensures LogOk(c, rules, db, s') && PassedOk(rules, db, s') && s'.net.chain == s.net.chain && s'.chain == s.chain
  {
    hide Passes, Unique, InOrder, Vetted, Recorded, HashesOf, Enters, Admission.NextStep;
  }

  /** Only what a block refers to enters a step of its worker. */
  lemma SameAfter(c: Config, db: map<Hash, Block>, db': map<Hash, Block>, s: Interleaving.Net, step: Interleaving.Step)
    requires Interleaving.Enabled(s, step) && !step.LookUp? && step.h in db && step.h in db' && db[step.h] == db'[step.h]
    ensures Interleaving.After(Refer(c, db), s, step) == Interleaving.After(Refer(c, db'), s, step)
  {
    hide Links, Misfits, Interleaving.AddDependent, Interleaving.Requeue;
  }

  /** A lookup in the real chain is a lookup of the machine of the workers. */
  lemma LookUpIsStep(c: Config, db: map<Hash, Block>, s: Interleaving.Net, chain: State, h: Hash, d: Hash)
    requires Interleaving.Inv(Refer(c, db), s) && Mirrors(c, db, s.chain, chain) && h in db
    requires Interleaving.Enabled(s, Interleaving.LookUp(h, d))
    ensures var p := s.place[h];
            Interleaving.After(Refer(c, db), s, Interleaving.LookUp(h, d)) ==
            s.(place := s.place[h :=
               Interleaving.Checking(p.worker, p.todo - {d}, p.missing + if Missing(chain, db[h], d) then {d} else {})])
  {
    hide Mirrors, Links, Misfits, Missing;
    assert Interleaving.PlaceOk(Refer(c, db), s, h);
    hide Interleaving.Inv;
    LookUpFails(c, db, s.chain, chain, db[h], d);
  }

  /** The step of a worker on the real chain is a step of the machine of the workers. */
  lemma WorkIsStep(c: Config, rules: Rules, traffic: Traffic, db: map<Hash, Block>, s: Node, s': Node, step: Interleaving.Step)
    requires rules.widths.Valid() && Inv(c, rules, traffic, db, s) && WorkStep(c, traffic, s, s', step)
    ensures Interleaving.NextStep(Refer(c, db), s.net, s'.net, step)
  {
    hide ValidState, LogOk, PassedOk, Mirrors, Inserted, Acceptable, Missing, Refer, Enters, Admission.Inv, Admission.Handed,
      Interleaving.Inv, Interleaving.After, Interleaving.Enabled;
    var h := step.h;
    assert h in s.gate.stored && db[h] == Stored(traffic, s)[h];
    if step.LookUp? {
      LookUpIsStep(c, db, s.net, s.chain, h, step.d);
    } else {
      SameAfter(c, Stored(traffic, s), db, s.net, step);
    }
  }

  /** A checked block is new to the chain, and everything it refers to is there. */
  lemma CheckedIsReady(c: Config, rules: Rules, traffic: Traffic, db: map<Hash, Block>, s: Node, h: Hash)
    requires rules.widths.Valid() && Inv(c, rules, traffic, db, s) && h in s.net.place && s.net.place[h].Checked?
    ensures h in s.gate.stored && h in db && Stored(traffic, s)[h] == db[h] && db[h].hash == h && h !in GenesisHashes(c)
    ensures h !in Known(c, s.chain) && Available(s.chain, db[h]) && Needs(db[h]) <= Known(c, s.chain)
  {
    hide Inv, ValidState, LogOk, PassedOk, Mirrors, Links, Misfits, Available, Known, Needs, GenesisHashes, GateOk, Stored,
      Interleaving.Inv;
    InvChain(c, rules, traffic, db, s);
    GateBlock(c, rules, traffic, db, s, h);
    Interleaving.CheckedIsNew(Refer(c, db), s.net, h);
    FoundIsAvailable(c, db, s.net.chain, s.chain, db[h]);
    KnownIs(c, db, s.net.chain, s.chain);
    AvailableIsKnown(c, s.chain, db[h]);
  }

  lemma GateBlock(c: Config, rules: Rules, traffic: Traffic, db: map<Hash, Block>, s: Node, h: Hash)
    requires rules.widths.Valid() && GateOk(c, rules, traffic, db, s) && h in s.net.place
    ensures h in s.gate.stored && h in db && Stored(traffic, s)[h] == db[h] && db[h].hash == h && h !in GenesisHashes(c)
  {
    hide GenesisHashes, CheckPowSortitionId;
    assert Admission.StoredOk(HashOf(traffic), s.gate, h);
  }

  /** Checks passed earlier still hold: the insertion goes into a chain that accepts the block. */
  lemma PassedStays(rules: Rules, db: map<Hash, Block>, s: State, s': State, b: Block)
    requires rules.widths.Valid() && Grown(s, s') && Linked(s.db.voters) && Available(s, b) && Passes(rules, s, b)
    ensures Passes(rules, s', b)
  {
    hide Grown, Available, Linked, Acceptable, ProvesContent;
    VerdictIsFinal(s, s', b);
  }

  lemma MirrorsAfter(c: Config, db: map<Hash, Block>, chain: set<Hash>, s: State, b: Block)
    requires Mirrors(c, db, chain, s) && Acceptable(s, b) && b.hash in db && db[b.hash] == b && b.hash !in GenesisHashes(c)
    requires b.hash !in Known(c, s)
    ensures Mirrors(c, db, chain + {b.hash}, Inserted(s, b))
  {
    hide Inserted, Acceptable, GenesisHashes;
    KnownIs(c, db, chain, s);
    assert b.header.parent in s.db.proposers.level && (b.content.Voter? ==> b.content.voterParent in s.db.voters.level) by {
      AcceptableParents(s, b);
    }
    GraphAfter(s, b);
    ParentAfter(s, b);
  }

  lemma AcceptableParents(s: State, b: Block)
    requires Acceptable(s, b)
    ensures b.header.parent in s.db.proposers.level
    ensures b.content.Voter? ==>
              b.content.voterParent in s.db.voters.level && b.content.voterParent in s.db.voters.chain
  {
  }

  lemma ValidLinked(c: Config, s: State)
    requires ValidState(c, s)
    ensures Linked(s.db.voters)
  {
    hide GraphOk, UnreferredExact, IndexOk, LedgerOk, ParentsExact, TransactionsExact, Registered, Linked;
  }

  lemma LogAfter(c: Config, rules: Rules, db: map<Hash, Block>, s: Node, s': Node, b: Block)
    requires rules.widths.Valid() && ValidState(c, s.chain) && LogOk(c, rules, db, s) && Mirrors(c, db, s.net.chain, s.chain)
    requires Passes(rules, s.chain, b) && b.hash in db && db[b.hash] == b && b.hash !in Known(c, s.chain) && Needs(b) <= Known(c, s.chain)
    requires s'.log == s.log + [b] && s'.net.chain == s.net.chain + {b.hash} && s'.chain == Inserted(s.chain, b)
    ensures LogOk(c, rules, db, s')
  {
    hide ValidState, Mirrors, HashesOf, Unique, InOrder, Needs, GenesisHashes, Recorded, Acceptable, Inserted, ProvesContent, Known;
    KnownIs(c, db, s.net.chain, s.chain);
    HashesOfSnoc(s.log, b);
    InOrderSnoc(c, s.log, b);
    NotYetRecorded(c, s.chain, b.hash);
    RecordedAfter(c, s.chain, s.log, b);
  }

  /** What a step of a worker leaves alone. */
  lemma StepFrame(needs: Interleaving.Needs, s: Interleaving.Net, s': Interleaving.Net, step: Interleaving.Step)
    requires Interleaving.Inv(needs, s) && Interleaving.NextStep(needs, s, s', step) && !step.Receive?
    ensures s'.place.Keys == s.place.Keys
    ensures s'.chain == if step.Insert? then s.chain + {step.h} else s.chain
    ensures forall k | k in s.place :: StepMoves(s.place[k], s'.place[k], step, k)
  {
    forall k | k in s.dependency
      ensures k in s.place && s.place[k] == Interleaving.Buffered
    {
      assert Interleaving.WaitOk(needs, s, k);
    }
    hide StepMoves, Interleaving.Inv, Interleaving.AddDependent;
    forall k | k in s.place
      ensures StepMoves(s.place[k], s'.place[k], step, k)
    {
      MovesOne(needs, s, s', step, k);
    }
  }

  lemma MovesOne(needs: Interleaving.Needs, s: Interleaving.Net, s': Interleaving.Net, step: Interleaving.Step, k: Hash)
    requires Interleaving.NextStep(needs, s, s', step) && !step.Receive? && k in s.place
    requires k in s.dependency ==> s.place[k] == Interleaving.Buffered
    ensures k in s'.place && StepMoves(s.place[k], s'.place[k], step, k)
  {
    hide Interleaving.AddDependent;
  }

  ghost predicate StepMoves(p: Interleaving.Place, p': Interleaving.Place, step: Interleaving.Step, k: Hash) {
    && (Beyond(p) && step != Interleaving.Reject(k) ==> Beyond(p'))
    && (p'.Checked? ==> p.Checked? || p.Checking?)
    && (step == Interleaving.Insert(k) ==> !p'.Checked?)
    && (p' == Interleaving.Rejected ==> p == Interleaving.Rejected || step == Interleaving.Reject(k))
  }

  /** Whatever is checked and passed stays so when the chain grows. */
  lemma PassedAfter(c: Config, rules: Rules, traffic: Traffic, db: map<Hash, Block>, s: Node, s': Node)
    requires rules.widths.Valid() && Inv(c, rules, traffic, db, s) && Grown(s.chain, s'.chain) && s'.passed == s.passed
    requires forall k | k in s.passed && k in s.net.place ::
               k in s'.net.place && Beyond(s'.net.place[k]) && (s'.net.place[k].Checked? ==> s.net.place[k].Checked?)
    ensures PassedOk(rules, db, s')
  {
    hide Inv, Grown, Passes, Available, Linked, Known, Needs, GenesisHashes, Beyond;
    assert ValidState(c, s.chain) && PassedOk(rules, db, s) by { InvChain(c, rules, traffic, db, s); }
    hide ValidState;
    ValidLinked(c, s.chain);
    forall k | k in s'.passed && k in s'.net.place && s'.net.place[k].Checked?
      ensures k in db && Passes(rules, s'.chain, db[k])
    {
      CheckedIsReady(c, rules, traffic, db, s, k);
      PassedStays(rules, db, s.chain, s'.chain, db[k]);
    }
  }

  lemma PassedStep(c: Config, rules: Rules, traffic: Traffic, db: map<Hash, Block>, s: Node, s': Node, step: Interleaving.Step)
    requires rules.widths.Valid() && Inv(c, rules, traffic, db, s) && Grown(s.chain, s'.chain) && s'.passed == s.passed
    requires Interleaving.NextStep(Refer(c, db), s.net, s'.net, step) && !step.Receive? && (step.Reject? ==> step.h !in s.passed)
    ensures PassedOk(rules, db, s')
  {
    hide Inv, Grown, Passes, ValidState, LogOk, Mirrors, GateOk, Refer, Interleaving.Inv, Interleaving.NextStep;
    InvChain(c, rules, traffic, db, s);
    StepFrame(Refer(c, db), s.net, s'.net, step);
    forall k | k in s.passed && k in s.net.place
      ensures k in s'.net.place && Beyond(s'.net.place[k]) && (s'.net.place[k].Checked? ==> s.net.place[k].Checked?)
    {
      assert StepMoves(s.net.place[k], s'.net.place[k], step, k);
    }
    PassedAfter(c, rules, traffic, db, s, s');
  }

  lemma InvChain(c: Config, rules: Rules, traffic: Traffic, db: map<Hash, Block>, s: Node)
    requires rules.widths.Valid() && Inv(c, rules, traffic, db, s)
    ensures ValidState(c, s.chain) && PassedOk(rules, db, s) && LogOk(c, rules, db, s) && Mirrors(c, db, s.net.chain, s.chain)
    ensures GateOk(c, rules, traffic, db, s) && Interleaving.Inv(Refer(c, db), s.net)
  {
    hide ValidState, PassedOk, LogOk, Mirrors, GateOk, Interleaving.Inv, Refer;
  }

  lemma InvFrom(c: Config, rules: Rules, traffic: Traffic, db: map<Hash, Block>, s: Node)
    requires rules.widths.Valid() && ValidState(c, s.chain) && PassedOk(rules, db, s) && LogOk(c, rules, db, s)
    requires Mirrors(c, db, s.net.chain, s.chain) && GateOk(c, rules, traffic, db, s) && Interleaving.Inv(Refer(c, db), s.net)
    ensures Inv(c, rules, traffic, db, s)
  {
    hide ValidState, PassedOk, LogOk, Mirrors, GateOk, Interleaving.Inv, Refer;
  }

  lemma GateStays(c: Config, rules: Rules, traffic: Traffic, db: map<Hash, Block>, s: Node, s': Node)
    requires rules.widths.Valid() && GateOk(c, rules, traffic, db, s) && s'.gate == s.gate && s'.net.place.Keys == s.net.place.Keys
    ensures GateOk(c, rules, traffic, db, s')
  {
    hide Admission.Inv, Admission.Handed, Enters;
  }

  lemma LogStays(c: Config, rules: Rules, db: map<Hash, Block>, s: Node, s': Node)
    requires rules.widths.Valid() && LogOk(c, rules, db, s) && s'.log == s.log && s'.net.chain == s.net.chain
    requires s'.chain.db.proposers == s.chain.db.proposers
    ensures LogOk(c, rules, db, s')
  {
    hide HashesOf, Unique, InOrder, Vetted, Recorded;
  }

  /** An insertion never meets a chain that has the block already, lacks a reference or refuses
      the block. */
  lemma InsertIsSafe(c: Config, rules: Rules, traffic: Traffic, db: map<Hash, Block>, s: Node, h: Hash)
    requires rules.widths.Valid() && Inv(c, rules, traffic, db, s) && h in s.net.place && s.net.place[h].Checked? && h in s.passed
    ensures h in db && db[h].hash == h && h in s.gate.stored && Stored(traffic, s)[h] == db[h] && h !in GenesisHashes(c)
    ensures h !in Known(c, s.chain) && Needs(db[h]) <= Known(c, s.chain) && Passes(rules, s.chain, db[h])
  {
    hide Inv, Passes, Needs, Known, GenesisHashes, ValidState, Mirrors, LogOk;
    CheckedIsReady(c, rules, traffic, db, s, h);
    InvChain(c, rules, traffic, db, s);
  }

  lemma InsertKeeps(c: Config, rules: Rules, traffic: Traffic, db: map<Hash, Block>, s: Node, s': Node, h: Hash)
    requires rules.widths.Valid() && Inv(c, rules, traffic, db, s) && WorkStep(c, traffic, s, s', Interleaving.Insert(h))
    ensures Inv(c, rules, traffic, db, s')
  {
    hide Inv, ValidState, Known, Needs, GenesisHashes, Mirrors, LogOk, PassedOk, GateOk, Refer, Stored, Acceptable, Inserted, Grown,
      Interleaving.Inv, Interleaving.After, Interleaving.NextStep, ProvesContent, Signed;
    var step := Interleaving.Insert(h);
    InvChain(c, rules, traffic, db, s);
    InsertIsSafe(c, rules, traffic, db, s, h);
    WorkIsStep(c, rules, traffic, db, s, s', step);
    StepFrame(Refer(c, db), s.net, s'.net, step);
    Interleaving.StepKeepsInv(Refer(c, db), s.net, s'.net, step);
    InsertKeepsValid(c, s.chain, db[h]);
    InsertGrows(c, s.chain, db[h]);
    MirrorsAfter(c, db, s.net.chain, s.chain, db[h]);
    LogAfter(c, rules, db, s, s', db[h]);
    PassedStep(c, rules, traffic, db, s, s', step);
    GateStays(c, rules, traffic, db, s, s');
    InvFrom(c, rules, traffic, db, s');
  }

  lemma SameGrown(s: State)
    ensures Grown(s, s)
  {
  }

  /** A step of a worker that does not touch the chain. */
  lemma WorkKeeps(c: Config, rules: Rules, traffic: Traffic, db: map<Hash, Block>, s: Node, s': Node, step: Interleaving.Step)
    requires rules.widths.Valid() && Inv(c, rules, traffic, db, s)
    requires Interleaving.NextStep(Refer(c, db), s.net, s'.net, step) && !step.Insert? && !step.Receive?
    requires s' == s.(net := s'.net) && (step.Reject? ==> step.h !in s.passed)
    ensures Inv(c, rules, traffic, db, s')
  {
    hide Inv, ValidState, Mirrors, LogOk, PassedOk, GateOk, Refer, Grown, Interleaving.Inv, Interleaving.NextStep, StepMoves;
    InvChain(c, rules, traffic, db, s);
    StepFrame(Refer(c, db), s.net, s'.net, step);
    Interleaving.StepKeepsInv(Refer(c, db), s.net, s'.net, step);
    SameGrown(s.chain);
    PassedStep(c, rules, traffic, db, s, s', step);
    LogStays(c, rules, db, s, s');
    GateStays(c, rules, traffic, db, s, s');
    InvFrom(c, rules, traffic, db, s');
  }

  lemma ValidateKeeps(c: Config, rules: Rules, traffic: Traffic, db: map<Hash, Block>, s: Node, s': Node, h: Hash)
    requires rules.widths.Valid() && Inv(c, rules, traffic, db, s) && ValidateStep(c, rules, traffic, s, s', h)
    ensures Inv(c, rules, traffic, db, s')
  {
    hide Inv, ValidState, Mirrors, LogOk, GateOk, Refer, Passes, Interleaving.Inv, Stored, Known, Needs, Available, GenesisHashes,
      Interleaving.After;
    InvChain(c, rules, traffic, db, s);
    CheckedIsReady(c, rules, traffic, db, s, h);
    if Passes(rules, s.chain, db[h]) {
      LogStays(c, rules, db, s, s');
      GateStays(c, rules, traffic, db, s, s');
      InvFrom(c, rules, traffic, db, s');
    } else {
      SameAfter(c, Stored(traffic, s), db, s.net, Interleaving.Reject(h));
      WorkKeeps(c, rules, traffic, db, s, s', Interleaving.Reject(h));
    }
  }

  lemma UpdateKeeps(c: Config, rules: Rules, traffic: Traffic, db: map<Hash, Block>, s: Node, s': Node)
    requires rules.widths.Valid() && Inv(c, rules, traffic, db, s) && Updated(c, s.chain, s'.chain) && s' == s.(chain := s'.chain)
    ensures Inv(c, rules, traffic, db, s')
  {
    hide Inv, ValidState, LogOk, PassedOk, GateOk, Refer, Grown, Interleaving.Inv, Updated, Mirrors, Beyond;
    InvChain(c, rules, traffic, db, s);
    UpdateGrows(c, s.chain, s'.chain);
    GraphStays(c, s.chain, s'.chain);
    PassedBeyond(rules, db, s);
    PassedAfter(c, rules, traffic, db, s, s');
    LogStays(c, rules, db, s, s');
    GateStays(c, rules, traffic, db, s, s');
    MirrorsStay(c, db, s.net.chain, s.chain, s'.chain);
    InvFrom(c, rules, traffic, db, s');
  }

  lemma GraphStays(c: Config, s: State, s': State)
    requires Updated(c, s, s')
    ensures ValidState(c, s') && s'.db.proposers == s.db.proposers && s'.db.voters == s.db.voters && s'.db.parentOf == s.db.parentOf
  {
    hide ValidState, LeadersElected, OnlyAffectedElected;
  }

  lemma MirrorsStay(c: Config, db: map<Hash, Block>, chain: set<Hash>, s: State, s': State)
    requires Mirrors(c, db, chain, s)
    requires s'.db.proposers == s.db.proposers && s'.db.voters == s.db.voters && s'.db.parentOf == s.db.parentOf
    ensures Mirrors(c, db, chain, s')
  {
  }

  lemma PassedBeyond(rules: Rules, db: map<Hash, Block>, s: Node)
    requires rules.widths.Valid() && PassedOk(rules, db, s)
    ensures forall k | k in s.passed && k in s.net.place :: Beyond(s.net.place[k])
  {
    hide Passes, Beyond;
  }

  /** Every step of every thread keeps the invariant. */
  lemma StepKeepsInv(c: Config, rules: Rules, traffic: Traffic, db: map<Hash, Block>, s: Node, s': Node, e: Event)
    requires rules.widths.Valid() && Inv(c, rules, traffic, db, s) && NextStep(c, rules, traffic, s, s', e) && Towards(traffic, db, s')
    ensures Inv(c, rules, traffic, db, s')
  {
    hide Inv, AdmitStep, ValidateStep, Updated, Towards, Acceptable, Inserted, Missing, Refer, Stored, Interleaving.Enabled,
      Interleaving.After;
    match e {
      case Admit(a) => AdmitKeeps(c, rules, traffic, db, s, s', a);
      case Work(step) =>
        if step.Insert? {
          InsertKeeps(c, rules, traffic, db, s, s', step.h);
        } else {
          WorkIsStep(c, rules, traffic, db, s, s', step);
          WorkKeeps(c, rules, traffic, db, s, s', step);
        }
      case Validate(h) => ValidateKeeps(c, rules, traffic, db, s, s', h);
      case UpdateLedger => UpdateKeeps(c, rules, traffic, db, s, s');
    }
  }
}
