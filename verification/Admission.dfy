/** How the workers of src/network/worker.rs take a block in: register its hash in
    `recent_blocks`, look the hash up in `blockdb`, store the block, unregister the hash. The same
    hash may arrive any number of times, and any step of any worker may come next. */
module Admission {
  import opened Prelude

  /** How far a copy of a block has come. */
  datatype Phase =
    | Arrived
    | Registered   // its hash is in `recent_blocks`
    | Absent       // and was not found in the database
    | Found        // and was found in the database
    | Stored       // written to the database, hash still registered
    | Admitted     // on its worker's list of new blocks
    | Dropped      // a duplicate

  /** The copies, by number; `recent_blocks`; and the copy that the database has under a hash. */
  datatype Gate = Gate(phase: map<nat, Phase>, recent: set<Hash>, stored: map<Hash, nat>)

  /** The hash of every copy. */
  type Hashes = nat -> Hash

  datatype Action =
    | Arrive(i: nat)
    | Register(i: nat)
    | LookUp(i: nat)
    | Store(i: nat)
    | Unregister(i: nat)

  ghost predicate Start(s: Gate) {
    s == Gate(map[], {}, map[])
  }

  ghost predicate Enabled(s: Gate, a: Action) {
    match a
    case Arrive(i) => i !in s.phase
    case Register(i) => i in s.phase && s.phase[i] == Arrived
    case LookUp(i) => i in s.phase && s.phase[i] == Registered
    case Store(i) => i in s.phase && s.phase[i] == Absent
    case Unregister(i) => i in s.phase && s.phase[i] in {Stored, Found}
  }

  ghost function After(hash: Hashes, s: Gate, a: Action): Gate
    requires Enabled(s, a)
  {
    var h := hash(a.i);
    match a
    case Arrive(i) => s.(phase := s.phase[i := Arrived])
    case Register(i) =>
      if h in s.recent then s.(phase := s.phase[i := Dropped])
      else s.(phase := s.phase[i := Registered], recent := s.recent + {h})
    case LookUp(i) => s.(phase := s.phase[i := if h in s.stored then Found else Absent])
    case Store(i) => s.(phase := s.phase[i := Stored], stored := s.stored[h := i])
    case Unregister(i) => s.(phase := s.phase[i := if s.phase[i] == Stored then Admitted else Dropped], recent := s.recent - {h})
  }

  ghost predicate NextStep(hash: Hashes, s: Gate, s': Gate, a: Action) {
    Enabled(s, a) && s' == After(hash, s, a)
  }

  ghost predicate Next(hash: Hashes, s: Gate, s': Gate) {
    exists a :: NextStep(hash, s, s', a)
  }

  /** A run of the machine. */
  ghost predicate Run(hash: Hashes, run: seq<Gate>) {
    && |run| > 0 && Start(run[0])
    && forall i | 0 <= i < |run| - 1 :: Next(hash, run[i], run[i + 1])
  }

  /** The copy is why its hash is registered. */
  predicate Holds(p: Phase) {
    p in {Registered, Absent, Found, Stored}
  }

  ghost predicate PhaseOk(hash: Hashes, s: Gate, i: nat)
    requires i in s.phase
  {
    var h := hash(i);
    match s.phase[i]
    case Arrived => true
    case Registered => h in s.recent
    case Absent => h in s.recent && h !in s.stored
    case Found => h in s.recent && h in s.stored
    case Stored => h in s.recent && h in s.stored && s.stored[h] == i
    case Admitted => h in s.stored && s.stored[h] == i
    case Dropped => h in s.recent || h in s.stored
  }

  ghost predicate HeldBy(hash: Hashes, s: Gate, h: Hash, i: nat) {
    i in s.phase && Holds(s.phase[i]) && hash(i) == h
  }

  ghost predicate StoredOk(hash: Hashes, s: Gate, h: Hash)
    requires h in s.stored
  {
    var i := s.stored[h];
    i in s.phase && hash(i) == h && s.phase[i] in {Stored, Admitted}
  }

  /** A hash is registered by exactly one copy. */
  ghost predicate Inv(hash: Hashes, s: Gate) {
    && (forall i | i in s.phase :: PhaseOk(hash, s, i))
    && (forall i, j, h | HeldBy(hash, s, h, i) && HeldBy(hash, s, h, j) :: i == j)
    && (forall h | h in s.recent :: exists i :: HeldBy(hash, s, h, i))
    && forall h | h in s.stored :: StoredOk(hash, s, h)
  }

  lemma ActionKeepsInv(hash: Hashes, s: Gate, s': Gate, a: Action)
    requires Inv(hash, s) && NextStep(hash, s, s', a)
    ensures Inv(hash, s')
  {
    var i, h := a.i, hash(a.i);
    assert i in s.phase ==> PhaseOk(hash, s, i);
    assert i in s.phase && Holds(s.phase[i]) ==> HeldBy(hash, s, h, i);
    forall j | j in s'.phase
      ensures PhaseOk(hash, s', j)
    {
      if j != i {
        assert PhaseOk(hash, s, j);
        assert Holds(s.phase[j]) ==> HeldBy(hash, s, hash(j), j);
      }
    }
    HeldOnce(hash, s, s', a);
    forall g | g in s'.stored
      ensures StoredOk(hash, s', g)
    {
      assert g in s.stored ==> StoredOk(hash, s, g);
    }
  }

  lemma HeldOnce(hash: Hashes, s: Gate, s': Gate, a: Action)
    requires Inv(hash, s) && NextStep(hash, s, s', a)
    ensures forall i, j, h | HeldBy(hash, s', h, i) && HeldBy(hash, s', h, j) :: i == j
    ensures forall h | h in s'.recent :: exists i :: HeldBy(hash, s', h, i)
  {
    var k := a.i;
    assert k in s.phase ==> PhaseOk(hash, s, k);
    forall i, j, h | HeldBy(hash, s', h, i) && HeldBy(hash, s', h, j)
      ensures i == j
    {
      assert i != k ==> HeldBy(hash, s, h, i) && PhaseOk(hash, s, i);
      assert j != k ==> HeldBy(hash, s, h, j) && PhaseOk(hash, s, j);
      assert k in s.phase && Holds(s.phase[k]) && hash(k) == h ==> HeldBy(hash, s, h, k);
    }
    forall h | h in s'.recent
      ensures exists i :: HeldBy(hash, s', h, i)
    {
      if h in s.recent {
        var i :| HeldBy(hash, s, h, i);
        assert HeldBy(hash, s', h, i);
      } else {
        assert HeldBy(hash, s', h, k);
      }
    }
  }

  lemma {:induction false} RunKeepsInv(hash: Hashes, run: seq<Gate>, n: nat)
    requires Run(hash, run) && n < |run|
    ensures Inv(hash, run[n])
    decreases n
  {
    hide Inv, NextStep;
    if n == 0 {
      StartOk(hash, run[0]);
    } else {
      RunKeepsInv(hash, run, n - 1);
      assert Next(hash, run[n - 1], run[n - 1 + 1]);
      var a :| NextStep(hash, run[n - 1], run[n], a);
      ActionKeepsInv(hash, run[n - 1], run[n], a);
    }
  }

  lemma StartOk(hash: Hashes, s: Gate)
    requires Start(s)
    ensures Inv(hash, s)
  {
  }

  /** What is stored stays stored, and no copy is stored over another. */
  lemma NothingOverwritten(hash: Hashes, s: Gate, s': Gate, a: Action)
    requires Inv(hash, s) && NextStep(hash, s, s', a)
    ensures forall h | h in s.stored :: h in s'.stored && s'.stored[h] == s.stored[h]
  {
    assert a.i in s.phase ==> PhaseOk(hash, s, a.i);
  }

  /** However the workers interleave, of two copies with one hash at most one gets past the
      database, and it is the one the database has. */
  lemma AdmittedOnce(hash: Hashes, run: seq<Gate>, n: nat, i: nat, j: nat)
    requires Run(hash, run) && n < |run| && i in run[n].phase && j in run[n].phase && hash(i) == hash(j)
    requires run[n].phase[i] == Admitted && run[n].phase[j] in {Stored, Admitted}
    ensures i == j && hash(i) in run[n].stored && run[n].stored[hash(i)] == i
  {
    RunKeepsInv(hash, run, n);
    assert PhaseOk(hash, run[n], i) && PhaseOk(hash, run[n], j);
  }

  /** No worker is in the middle of taking a block in. */
  ghost predicate Idle(s: Gate) {
    forall i | i in s.phase :: s.phase[i] in {Admitted, Dropped}
  }

  /** No hash is lost either: when the workers are through, exactly one copy of every hash that
      arrived was admitted, and nothing is left in `recent_blocks`. */
  lemma AdmittedExactlyOnce(hash: Hashes, run: seq<Gate>, n: nat)
    requires Run(hash, run) && n < |run| && Idle(run[n])
    ensures run[n].recent == {}
    ensures forall i | i in run[n].phase :: hash(i) in run[n].stored && (run[n].phase[i] == Admitted <==> run[n].stored[hash(i)] == i)
    ensures forall h | h in run[n].stored :: run[n].stored[h] in run[n].phase && hash(run[n].stored[h]) == h
  {
    RunKeepsInv(hash, run, n);
    IdleGate(hash, run[n]);
  }

  lemma IdleGate(hash: Hashes, s: Gate)
    requires Inv(hash, s) && Idle(s)
    ensures s.recent == {}
    ensures forall i | i in s.phase :: hash(i) in s.stored && (s.phase[i] == Admitted <==> s.stored[hash(i)] == i)
    ensures forall h | h in s.stored :: s.stored[h] in s.phase && hash(s.stored[h]) == h && s.phase[s.stored[h]] == Admitted
  {
    assert forall h, i :: !HeldBy(hash, s, h, i);
    forall h | h in s.stored
      ensures s.stored[h] in s.phase && hash(s.stored[h]) == h && s.phase[s.stored[h]] == Admitted
    {
      assert StoredOk(hash, s, h);
    }
    forall i | i in s.phase
      ensures hash(i) in s.stored && (s.phase[i] == Admitted <==> s.stored[hash(i)] == i)
    {
      assert PhaseOk(hash, s, i);
      assert hash(i) in s.stored ==> StoredOk(hash, s, hash(i));
    }
  }

  /** The workers have got exactly the hashes that were admitted. */
  ghost predicate Handed(s: Gate, hands: set<Hash>) {
    forall h: Hash :: h in hands <==> h in s.stored && s.stored[h] in s.phase && s.phase[s.stored[h]] == Admitted
  }

  /** A hash that is admitted is not in the hands of any worker yet. */
  lemma HandedOver(hash: Hashes, s: Gate, s': Gate, a: Action, hands: set<Hash>)
    requires Inv(hash, s) && NextStep(hash, s, s', a) && Handed(s, hands)
    ensures s'.phase[a.i] == Admitted ==> hash(a.i) !in hands
    ensures Handed(s', if s'.phase[a.i] == Admitted then hands + {hash(a.i)} else hands)
  {
    assert a.i in s.phase ==> PhaseOk(hash, s, a.i);
    forall h: Hash
      ensures h in (if s'.phase[a.i] == Admitted then hands + {hash(a.i)} else hands) <==>
              h in s'.stored && s'.stored[h] in s'.phase && s'.phase[s'.stored[h]] == Admitted
    {
      assert h in s.stored ==> StoredOk(hash, s, h);
    }
  }

  lemma Arrivals(hash: Hashes, s: Gate, s': Gate, a: Action)
    requires NextStep(hash, s, s', a)
    ensures s'.phase.Keys == s.phase.Keys + {a.i} && (a.i in s.phase || a.Arrive?)
  {
  }
}
