/** Several workers at once, src/network/worker.rs: the lookups of `check_data_availability` and
    the buffering happen under the buffer's lock, the insertion into the chain does not, and
    `satisfy` takes the lock again. Any step of any worker may come next. */
module Interleaving {
  import opened Prelude
  import opened Buffer

  /** Where a received block is. */
  datatype Place =
    | Queued(worker: nat)                                          // on a worker's `to_process` stack
    | Checking(worker: nat, todo: set<Hash>, missing: set<Hash>)   // under the lock, references looked up one by one
    | Checked(worker: nat)                                         // all references found, lock released
    | Satisfying(worker: nat)                                      // in the chain, `satisfy` still to come
    | Settled                                                      // in the chain, dependents released
    | Buffered
    | Rejected

  datatype Net = Net(
    place: map<Hash, Place>, chain: set<Hash>, dependency: map<Hash, set<Hash>>, dependent: map<Hash, set<Hash>>, lock: Option<Hash>)

  /** The hashes a block refers to, except for genesis blocks that are what the reference says,
      and among them those it takes for another kind of block than they are. */
  datatype Needs = Needs(all: Hash -> set<Hash>, wrong: Hash -> set<Hash>)

  datatype Step =
    | Receive(h: Hash, worker: nat)
    | StartCheck(h: Hash)
    | LookUp(h: Hash, d: Hash)
    | FinishCheck(h: Hash)
    | Insert(h: Hash)
    | Reject(h: Hash)
    | Satisfy(h: Hash)

  ghost predicate Start(s: Net) {
    s == Net(map[], {}, map[], map[], None)
  }

  /** The worker is between two blocks. */
  ghost predicate Free(s: Net, worker: nat) {
    forall h | h in s.place :: s.place[h] != Checked(worker) && s.place[h] != Satisfying(worker)
  }

  /** `dependent` after block `h` was buffered. */
  ghost function AddDependent(dependent: map<Hash, set<Hash>>, missing: set<Hash>, h: Hash): map<Hash, set<Hash>> {
    map d | d in dependent.Keys + missing :: (if d in dependent then dependent[d] else {}) + (if d in missing then {h} else {})
  }

  /** The released blocks go to the stack of the worker that released them. */
  ghost function Requeue(place: map<Hash, Place>, freed: set<Hash>, worker: nat): map<Hash, Place> {
    map h | h in place :: if h in freed then Queued(worker) else place[h]
  }

  /** When a step can be taken. */
  ghost predicate Enabled(s: Net, step: Step) {
    match step
    case Receive(h, _) => h !in s.place
    case StartCheck(h) => h in s.place && s.place[h].Queued? && s.lock.None? && Free(s, s.place[h].worker)
    case LookUp(h, d) => h in s.place && s.place[h].Checking? && s.lock == Some(h) && d in s.place[h].todo
    case FinishCheck(h) => h in s.place && s.place[h].Checking? && s.lock == Some(h) && s.place[h].todo == {}
    case Insert(h) => h in s.place && s.place[h].Checked?
    case Reject(h) => h in s.place && s.place[h].Checked?
    case Satisfy(h) => h in s.place && s.place[h].Satisfying? && s.lock.None?
  }

  ghost function After(needs: Needs, s: Net, step: Step): Net
    requires Enabled(s, step)
  {
    var h := step.h;
    match step
    case Receive(_, worker) => s.(place := s.place[h := Queued(worker)])
    case StartCheck(_) => s.(lock := Some(h), place := s.place[h := Checking(s.place[h].worker, needs.all(h), {})])
    case LookUp(_, d) =>
      var p := s.place[h];
      s.(place := s.place[h := Checking(p.worker, p.todo - {d}, p.missing + if d in s.chain && d !in needs.wrong(h) then {} else {d})])
    case FinishCheck(_) =>
      var p := s.place[h];
      if p.missing == {} then s.(lock := None, place := s.place[h := Checked(p.worker)])
      else s.(lock := None, place := s.place[h := Buffered], dependency := s.dependency[h := p.missing],
              dependent := AddDependent(s.dependent, p.missing, h))
    case Insert(_) => s.(chain := s.chain + {h}, place := s.place[h := Satisfying(s.place[h].worker)])
    case Reject(_) => s.(place := s.place[h := Rejected])
    case Satisfy(_) =>
      s.(place := Requeue(s.place[h := Settled], Freed(s.dependency, h), s.place[h].worker),
         dependency := Without(s.dependency, h), dependent := s.dependent - {h})
  }

  ghost predicate NextStep(needs: Needs, s: Net, s': Net, step: Step) {
    Enabled(s, step) && s' == After(needs, s, step)
  }

  ghost predicate Next(needs: Needs, s: Net, s': Net) {
    exists step :: NextStep(needs, s, s', step)
  }

  /** A run of the machine. */
  ghost predicate Run(needs: Needs, run: seq<Net>) {
    && |run| > 0 && Start(run[0])
    && forall i | 0 <= i < |run| - 1 :: Next(needs, run[i], run[i + 1])
  }

  /** Anything in the chain that is still waited for is about to be satisfied by the worker that
      inserted it. */
  ghost predicate WillWake(s: Net, waited: set<Hash>) {
    forall d | d in waited && d in s.chain :: d in s.place && s.place[d].Satisfying?
  }

  ghost predicate PlaceOk(needs: Needs, s: Net, h: Hash)
    requires h in s.place
  {
    match s.place[h]
    case Queued(_) => h !in s.chain
    case Checking(_, todo, missing) =>
      && h !in s.chain && s.lock == Some(h) && todo + missing <= needs.all(h)
      && needs.all(h) - todo - missing <= s.chain - needs.wrong(h) && WillWake(s, missing - needs.wrong(h))
    case Checked(_) => h !in s.chain && needs.all(h) <= s.chain - needs.wrong(h)
    case Satisfying(_) => h in s.chain && needs.all(h) <= s.chain - needs.wrong(h)
    case Settled => h in s.chain && needs.all(h) <= s.chain - needs.wrong(h)
    case Buffered => h !in s.chain && h in s.dependency
    case Rejected => h !in s.chain
  }

  ghost predicate WaitOk(needs: Needs, s: Net, h: Hash)
    requires h in s.dependency
  {
    && h in s.place && s.place[h] == Buffered
    && {} < s.dependency[h] <= needs.all(h) && needs.all(h) - s.dependency[h] <= s.chain
    && WillWake(s, s.dependency[h] - needs.wrong(h))
  }

  ghost predicate Inv(needs: Needs, s: Net) {
    && (forall h | h in s.place :: PlaceOk(needs, s, h))
    && (forall h | h in s.dependency :: WaitOk(needs, s, h))
    && s.chain <= s.place.Keys && LockHeld(s)
    && Inverse(s.dependency, s.dependent)
  }

  /** The lock is held by the check of a block. */
  ghost predicate LockHeld(s: Net) {
    s.lock.Some? ==> s.lock.value in s.place && s.place[s.lock.value].Checking?
  }

  lemma StartOk(needs: Needs, s: Net)
    requires Start(s)
    ensures Inv(needs, s)
  {
  }

  /** A step that moves one block, may add it to the chain, and leaves the buffer alone. */
  lemma MoveOne(needs: Needs, s: Net, s': Net, h: Hash, p: Place)
    requires Inv(needs, s) && s'.place == s.place[h := p] && s'.dependency == s.dependency && s'.dependent == s.dependent
    requires h in s.place ==> !s.place[h].Satisfying? && !s.place[h].Buffered?
    requires s'.chain == (if p.Satisfying? then s.chain + {h} else s.chain)
    requires s'.lock == s.lock || s.lock.None? || (h in s.place && s.lock == Some(h))
    requires PlaceOk(needs, s', h)
    requires h in s.dependency ==> p == Buffered
    requires LockHeld(s')
    ensures Inv(needs, s')
  {
    hide Inverse;
    forall x | x in s'.place && x != h
      ensures PlaceOk(needs, s', x)
    {
      assert PlaceOk(needs, s, x);
    }
    forall x | x in s'.dependency
      ensures WaitOk(needs, s', x)
    {
      assert WaitOk(needs, s, x);
    }
  }

  lemma BufferOne(needs: Needs, s: Net, s': Net, h: Hash)
    requires Inv(needs, s) && NextStep(needs, s, s', FinishCheck(h)) && s.place[h].missing != {}
    ensures Inv(needs, s')
  {
    assert PlaceOk(needs, s, h);
    assert h in s.dependency ==> WaitOk(needs, s, h);
    BufferedInverse(s.dependency, s.dependent, s.place[h].missing, h);
    assert needs.all(h) - s.place[h].missing == needs.all(h) - s.place[h].todo - s.place[h].missing;
    hide Inverse, AddDependent;
    forall x | x in s'.place
      ensures PlaceOk(needs, s', x)
    {
      assert PlaceOk(needs, s, x);
    }
    forall x | x in s'.dependency
      ensures WaitOk(needs, s', x)
    {
      assert x != h ==> WaitOk(needs, s, x);
    }
  }

  lemma BufferedInverse(dependency: map<Hash, set<Hash>>, dependent: map<Hash, set<Hash>>, missing: set<Hash>, h: Hash)
    requires Inverse(dependency, dependent) && h !in dependency
    ensures Inverse(dependency[h := missing], AddDependent(dependent, missing, h))
  {
    forall d: Hash, x: Hash
      ensures Waits(AddDependent(dependent, missing, h), d, x) <==> Waits(dependency[h := missing], x, d)
    {
      assert Waits(dependent, d, x) <==> Waits(dependency, x, d);
    }
  }

  lemma SatisfyOne(needs: Needs, s: Net, s': Net, h: Hash)
    requires Inv(needs, s) && NextStep(needs, s, s', Satisfy(h))
    ensures Inv(needs, s')
  {
    SatisfiedInverse(s.dependency, s.dependent, h);
    hide Inverse;
    forall x | x in s'.place
      ensures PlaceOk(needs, s', x)
    {
      assert PlaceOk(needs, s, x);
      assert x in s.dependency ==> WaitOk(needs, s, x);
    }
    forall x | x in s'.dependency
      ensures WaitOk(needs, s', x)
    {
      assert WaitOk(needs, s, x) && PlaceOk(needs, s, h);
      SatisfyKeepsWaiting(needs, s, s', h, x);
    }
  }

  lemma SatisfyKeepsWaiting(needs: Needs, s: Net, s': Net, h: Hash, x: Hash)
    requires NextStep(needs, s, s', Satisfy(h)) && x in s'.dependency && x in s.dependency && WaitOk(needs, s, x) && PlaceOk(needs, s, h)
    requires forall y | y in s.dependency :: y in s.place && s.place[y] == Buffered
    ensures WaitOk(needs, s', x)
  {
    assert s'.dependency[x] == s.dependency[x] - {h};
    assert x !in Freed(s.dependency, h);
    forall d | d in s'.dependency[x] - needs.wrong(x) && d in s'.chain
      ensures d in s'.place && s'.place[d].Satisfying?
    {
      assert d in s.place && s.place[d].Satisfying? && d != h;
    }
  }

  lemma SatisfiedInverse(dependency: map<Hash, set<Hash>>, dependent: map<Hash, set<Hash>>, h: Hash)
    requires Inverse(dependency, dependent)
    ensures Inverse(Without(dependency, h), dependent - {h})
  {
    forall d: Hash, x: Hash
      ensures Waits(dependent - {h}, d, x) <==> Waits(Without(dependency, h), x, d)
    {
      assert Waits(dependent, d, x) <==> Waits(dependency, x, d);
    }
  }

  lemma StepKeepsInv(needs: Needs, s: Net, s': Net, step: Step)
    requires Inv(needs, s) && NextStep(needs, s, s', step)
    ensures Inv(needs, s')
  {
    var h := step.h;
    assert h in s.place ==> PlaceOk(needs, s, h);
    assert h in s.dependency ==> WaitOk(needs, s, h);
    match step {
      case Receive(_, worker) => MoveOne(needs, s, s', h, Queued(worker));
      case StartCheck(_) => MoveOne(needs, s, s', h, s'.place[h]);
      case LookUp(_, d) => MoveOne(needs, s, s', h, s'.place[h]);
      case FinishCheck(_) =>
        if s.place[h].missing == {} {
          MoveOne(needs, s, s', h, s'.place[h]);
        } else {
          BufferOne(needs, s, s', h);
        }
      case Insert(_) => MoveOne(needs, s, s', h, s'.place[h]);
      case Reject(_) => MoveOne(needs, s, s', h, Rejected);
      case Satisfy(_) => SatisfyOne(needs, s, s', h);
    }
  }

  lemma {:induction false} RunKeepsInv(needs: Needs, run: seq<Net>, i: nat)
    requires Run(needs, run) && i < |run|
    ensures Inv(needs, run[i])
    decreases i
  {
    hide Inv, NextStep;
    if i == 0 {
      StartOk(needs, run[0]);
    } else {
      RunKeepsInv(needs, run, i - 1);
      assert Next(needs, run[i - 1], run[i - 1 + 1]);
      var step :| NextStep(needs, run[i - 1], run[i], step);
      StepKeepsInv(needs, run[i - 1], run[i], step);
    }
  }

  /** No wake-up is lost: at any moment of any run, a buffered block that waits for a block of
      the chain waits for one whose worker has not run `satisfy` yet, and everything it refers to
      but does not wait for is in the chain. Only a block that takes a reference for another kind
      of block than it is can be left waiting for a block that is long there. */
  lemma NoLostWakeUp(needs: Needs, run: seq<Net>, i: nat, h: Hash, d: Hash)
    requires Run(needs, run) && i < |run| && h in run[i].place && run[i].place[h] == Buffered && d in needs.all(h)
    ensures h in run[i].dependency && (d !in run[i].dependency[h] ==> d in run[i].chain)
    ensures d in run[i].dependency[h] && d in run[i].chain && d !in needs.wrong(h) ==> d in run[i].place && run[i].place[d].Satisfying?
  {
    RunKeepsInv(needs, run, i);
    assert PlaceOk(needs, run[i], h) && WaitOk(needs, run[i], h);
  }

  /** `satisfy` finds the entry of every dependent, at any moment of any run. */
  lemma UnwrapsSucceed(needs: Needs, run: seq<Net>, i: nat, d: Hash, h: Hash)
    requires Run(needs, run) && i < |run| && d in run[i].dependent && h in run[i].dependent[d]
    ensures h in run[i].dependency && d in run[i].dependency[h] && h in run[i].place && run[i].place[h] == Buffered
  {
    RunKeepsInv(needs, run, i);
    assert Waits(run[i].dependent, d, h);
    assert Waits(run[i].dependency, h, d);
    assert WaitOk(needs, run[i], h);
  }

  /** Whatever is in the chain came after what it refers to; nothing is inserted twice. */
  lemma InsertedInOrder(needs: Needs, run: seq<Net>, i: nat, h: Hash)
    requires Run(needs, run) && i < |run|
    ensures h in run[i].chain ==> needs.all(h) <= run[i].chain - needs.wrong(h)
    ensures h in run[i].place && run[i].place[h].Checked? ==> h !in run[i].chain && needs.all(h) <= run[i].chain - needs.wrong(h)
  {
    RunKeepsInv(needs, run, i);
    assert h in run[i].place ==> PlaceOk(needs, run[i], h);
  }

  /** No worker has anything left to do. */
  ghost predicate Quiet(s: Net) {
    forall h | h in s.place :: s.place[h] in {Settled, Buffered, Rejected}
  }

  /** A set of received blocks that refer to each other as what they are, each to blocks that
      rank below it. */
  ghost predicate Closed(needs: Needs, s: Net, group: set<Hash>, rank: map<Hash, nat>) {
    && group <= s.place.Keys && group <= rank.Keys
    && forall h | h in group :: needs.wrong(h) == {} && forall d | d in needs.all(h) :: d in group && rank[d] < rank[h]
  }

  lemma {:induction false} AllSettled(needs: Needs, s: Net, group: set<Hash>, rank: map<Hash, nat>, h: Hash)
    requires Inv(needs, s) && Quiet(s) && Closed(needs, s, group, rank) && h in group
    requires forall x | x in group :: s.place[x] != Rejected
    ensures s.place[h] == Settled
    decreases rank[h]
  {
    hide Inverse;
    forall d | d in needs.all(h)
      ensures d in s.chain
    {
      AllSettled(needs, s, group, rank, d);
      assert PlaceOk(needs, s, d);
    }
    QuietWaits(needs, s, h);
  }

  /** When all workers are done, a buffered block waits for exactly what the chain does not have,
      apart from what it takes for another kind of block. */
  lemma QuietWaits(needs: Needs, s: Net, h: Hash)
    requires Inv(needs, s) && Quiet(s) && h in s.place
    ensures s.place[h] == Buffered ==>
              && h in s.dependency && s.dependency[h] != {}
              && needs.all(h) - s.chain <= s.dependency[h] <= needs.all(h) - (s.chain - needs.wrong(h))
  {
    hide Inverse;
    assert PlaceOk(needs, s, h);
    if s.place[h] == Buffered {
      assert WaitOk(needs, s, h);
      assert forall d | d in s.place :: !s.place[d].Satisfying?;
      assert forall d | d in s.dependency[h] - needs.wrong(h) :: d !in s.chain;
    }
  }

  /** Under every interleaving: once the workers are done, of any received set of blocks that is
      closed under references and of which none was rejected, all are in the chain and none is in
      the buffer. If nothing else was received, the buffer is empty. */
  lemma Drained(needs: Needs, run: seq<Net>, i: nat, group: set<Hash>, rank: map<Hash, nat>)
    requires Run(needs, run) && i < |run| && Quiet(run[i]) && Closed(needs, run[i], group, rank)
    requires forall h | h in group :: run[i].place[h] != Rejected
    ensures group <= run[i].chain && group !! run[i].dependency.Keys
    ensures group == run[i].place.Keys ==> run[i].chain == run[i].place.Keys && run[i].dependency == map[]
  {
    RunKeepsInv(needs, run, i);
    hide Run, Inv, Quiet, Closed;
    GroupSettles(needs, run[i], group, rank);
  }

  lemma GroupSettles(needs: Needs, s: Net, group: set<Hash>, rank: map<Hash, nat>)
    requires Inv(needs, s) && Quiet(s) && Closed(needs, s, group, rank)
    requires forall h | h in group :: s.place[h] != Rejected
    ensures group <= s.chain && group !! s.dependency.Keys
    ensures group == s.place.Keys ==> s.chain == s.place.Keys && s.dependency == map[]
  {
    forall h | h in group
      ensures h in s.chain && h !in s.dependency
    {
      AllSettled(needs, s, group, rank, h);
      assert PlaceOk(needs, s, h);
      assert h in s.dependency ==> WaitOk(needs, s, h);
    }
    assert s.dependency.Keys <= s.place.Keys by {
      assert forall h | h in s.dependency :: WaitOk(needs, s, h);
    }
  }

  /** Blocks that are neither in the chain nor thrown away. */
  ghost function Unfinished(s: Net): set<Hash> {
    set h | h in s.place && h !in s.chain && s.place[h] != Rejected
  }

  ghost function Waking(s: Net): set<Hash> {
    set h | h in s.place && s.place[h].Satisfying?
  }

  ghost function InQueue(s: Net): set<Hash> {
    set h | h in s.place && s.place[h].Queued?
  }

  ghost function InCheck(s: Net): set<Hash> {
    set h | h in s.place && s.place[h].Checking?
  }

  /** The references still to look up under the lock. */
  ghost function ToLookUp(s: Net): set<Hash> {
    if s.lock.Some? && s.lock.value in s.place && s.place[s.lock.value].Checking? then s.place[s.lock.value].todo else {}
  }

  /** One state has less left to do than another: compared by the five sets in this order. */
  ghost predicate Less(s: Net, t: Net) {
    var (a, b, c, d, e) := (|Unfinished(s)|, |Waking(s)|, |InQueue(s)|, |InCheck(s)|, |ToLookUp(s)|);
    var (a', b', c', d', e') := (|Unfinished(t)|, |Waking(t)|, |InQueue(t)|, |InCheck(t)|, |ToLookUp(t)|);
    a < a' || (a == a' && (b < b' || (b == b' && (c < c' || (c == c' && (d < d' || (d == d' && e < e')))))))
  }

  /** Every step of a worker, except that a new block is received, leaves less to do. */
  lemma StepLowers(needs: Needs, s: Net, s': Net, step: Step)
    requires Inv(needs, s) && NextStep(needs, s, s', step) && !step.Receive?
    ensures Less(s', s)
  {
    hide Inv, Less, After;
    match step {
      case Insert(h) => EndLowers(needs, s, s', step);
      case Reject(h) => EndLowers(needs, s, s', step);
      case Satisfy(h) => SatisfyLowers(needs, s, s', h);
      case _ => CheckLowers(needs, s, s', step);
    }
  }

  lemma CheckLowers(needs: Needs, s: Net, s': Net, step: Step)
    requires Inv(needs, s) && NextStep(needs, s, s', step) && (step.StartCheck? || step.LookUp? || step.FinishCheck?)
    ensures Less(s', s)
  {
    var h := step.h;
    assert PlaceOk(needs, s, h);
    hide Inv, Unfinished, Waking, InQueue, InCheck;
    StillUnfinished(s, s', h);
    match step {
      case StartCheck(_) => LeavesQueue(s, s', h);
      case LookUp(_, d) =>
        StillChecking(s, s', h);
        assert ToLookUp(s') == ToLookUp(s) - {d} && d in ToLookUp(s);
      case FinishCheck(_) => LeavesCheck(s, s', h);
    }
  }

  lemma StillUnfinished(s: Net, s': Net, h: Hash)
    requires h in s.place && h in s'.place && s'.place == s.place[h := s'.place[h]] && s'.chain == s.chain && h !in s.chain
    requires !s.place[h].Satisfying? && !s'.place[h].Satisfying? && s.place[h] != Rejected && s'.place[h] != Rejected
    ensures Unfinished(s') == Unfinished(s) && Waking(s') == Waking(s)
  {
  }

  lemma LeavesQueue(s: Net, s': Net, h: Hash)
    requires h in s.place && h in s'.place && s'.place == s.place[h := s'.place[h]] && s.place[h].Queued? && !s'.place[h].Queued?
    ensures |InQueue(s')| < |InQueue(s)|
  {
    assert InQueue(s') == InQueue(s) - {h} && h in InQueue(s);
  }

  lemma StillChecking(s: Net, s': Net, h: Hash)
    requires h in s.place && h in s'.place && s'.place == s.place[h := s'.place[h]] && s.place[h].Checking? && s'.place[h].Checking?
    ensures InQueue(s') == InQueue(s) && InCheck(s') == InCheck(s)
  {
  }

  lemma LeavesCheck(s: Net, s': Net, h: Hash)
    requires h in s.place && h in s'.place && s'.place == s.place[h := s'.place[h]]
    requires s.place[h].Checking? && !s'.place[h].Checking? && !s'.place[h].Queued?
    ensures InQueue(s') == InQueue(s) && |InCheck(s')| < |InCheck(s)|
  {
    assert InCheck(s') == InCheck(s) - {h} && h in InCheck(s);
  }

  lemma EndLowers(needs: Needs, s: Net, s': Net, step: Step)
    requires Inv(needs, s) && NextStep(needs, s, s', step) && (step.Insert? || step.Reject?)
    ensures Less(s', s)
  {
    CheckedIsNew(needs, s, step.h);
    hide Inv, Unfinished, Waking, InQueue, InCheck, ToLookUp;
    LeavesUnfinished(s, s', step.h);
  }

  lemma CheckedIsNew(needs: Needs, s: Net, h: Hash)
    requires Inv(needs, s)
    ensures h in s.place && s.place[h].Checked? ==> h !in s.chain && needs.all(h) <= s.chain - needs.wrong(h)
  {
    hide Inverse, WaitOk, LockHeld;
    assert h in s.place ==> PlaceOk(needs, s, h);
  }

  lemma LeavesUnfinished(s: Net, s': Net, h: Hash)
    requires h in s.place && s.place[h].Checked? && h !in s.chain && h in s'.place && s'.place == s.place[h := s'.place[h]]
    requires if s'.place[h] == Rejected then s'.chain == s.chain else s'.chain == s.chain + {h}
    ensures |Unfinished(s')| < |Unfinished(s)|
  {
    assert Unfinished(s') == Unfinished(s) - {h} && h in Unfinished(s);
  }

  lemma SatisfyLowers(needs: Needs, s: Net, s': Net, h: Hash)
    requires Inv(needs, s) && NextStep(needs, s, s', Satisfy(h))
    ensures Less(s', s)
  {
    hide Inverse, LockHeld, Requeue, Unfinished, Waking, InQueue, InCheck, ToLookUp;
    assert PlaceOk(needs, s, h);
    forall x | x in Freed(s.dependency, h)
      ensures x in s.place && s.place[x] == Buffered
    {
      assert WaitOk(needs, s, x);
    }
    hide WaitOk, PlaceOk;
    WakesOne(s, s', h, Freed(s.dependency, h), s.place[h].worker);
  }

  lemma WakesOne(s: Net, s': Net, h: Hash, freed: set<Hash>, worker: nat)
    requires h in s.place && s.place[h].Satisfying? && h in s.chain && s'.chain == s.chain
    requires s'.place == Requeue(s.place[h := Settled], freed, worker)
    requires forall x | x in freed :: x in s.place && s.place[x] == Buffered
    ensures Unfinished(s') == Unfinished(s) && |Waking(s')| < |Waking(s)|
  {
    assert Waking(s') == Waking(s) - {h} && h in Waking(s);
  }

  /** As long as the workers are not done, one of them can go on: whoever holds the lock, and
      without a holder the worker that has a block left. */
  lemma CanStep(needs: Needs, s: Net) returns (step: Step)
    requires Inv(needs, s) && !Quiet(s)
    ensures !step.Receive? && Enabled(s, step)
  {
    var h :| h in s.place && s.place[h] !in {Settled, Buffered, Rejected};
    assert PlaceOk(needs, s, h);
    match s.lock {
      case Some(k) =>
        if d :| d in s.place[k].todo {
          step := LookUp(k, d);
        } else {
          step := FinishCheck(k);
        }
      case None =>
        if s.place[h].Checked? {
          step := Insert(h);
        } else if s.place[h].Satisfying? {
          step := Satisfy(h);
        } else if Free(s, s.place[h].worker) {
          step := StartCheck(h);
        } else {
          var k :| k in s.place && (s.place[k] == Checked(s.place[h].worker) || s.place[k] == Satisfying(s.place[h].worker));
          step := if s.place[k].Checked? then Insert(k) else Satisfy(k);
        }
    }
  }

  /** From any reachable state the workers can finish without receiving anything more; since
      every step leaves less to do, they do finish, whatever the order of their steps. */
  lemma {:induction false} CanFinish(needs: Needs, s: Net) returns (run: seq<Net>)
    requires Inv(needs, s)
    ensures |run| > 0 && run[0] == s && Inv(needs, Last(run)) && Quiet(Last(run))
    ensures forall i | 0 <= i < |run| - 1 :: Next(needs, run[i], run[i + 1]) && Less(run[i + 1], run[i])
    decreases |Unfinished(s)|, |Waking(s)|, |InQueue(s)|, |InCheck(s)|, |ToLookUp(s)|
  {
    hide Inv, After;
    if Quiet(s) {
      run := [s];
    } else {
      var step := CanStep(needs, s);
      var s' := After(needs, s, step);
      assert NextStep(needs, s, s', step);
      StepLowers(needs, s, s', step);
      StepKeepsInv(needs, s, s', step);
      var rest := CanFinish(needs, s');
      run := [s] + rest;
      assert Next(needs, s, s');
      forall i | 0 <= i < |run| - 1
        ensures Next(needs, run[i], run[i + 1]) && Less(run[i + 1], run[i])
      {
        assert i > 0 ==> run[i] == rest[i - 1] && run[i + 1] == rest[i];
      }
    }
  }
}
