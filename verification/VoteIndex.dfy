/** The index of main-chain votes, PROPOSER_NODE_VOTE, and its merge operator. */
module VoteIndex {
  import opened Prelude
  import opened VoterTrees

  type Vote = (nat, nat)   // chain number and level of the voting block

  /** An operand of the merge operator: add (true) or remove (false) a vote. */
  datatype VoteOp = VoteOp(add: bool, vote: Vote)

  function Position(s: seq<Vote>, x: Vote): (r: nat)
    requires x in s
    ensures r < |s| && s[r] == x
  {
    if s[0] == x then 0 else 1 + Position(s[1..], x)
  }

  function SwapRemove(s: seq<Vote>, i: nat): seq<Vote>
    requires i < |s|
  {
    if i == |s| - 1 then Init(s) else Init(s)[i := Last(s)]
  }

  /** One step of `vote_vec_full_merge`; `None` is its `unreachable!()`. */
  function MergeOne(existing: seq<Vote>, op: VoteOp): Option<seq<Vote>> {
    if op.add then
      Some(if op.vote in existing then existing else existing + [op.vote])
    else if op.vote in existing then
      Some(SwapRemove(existing, Position(existing, op.vote)))
    else
      None
  }

  /** `vote_vec_full_merge` on the concatenation of its operands, which is what
      `vote_vec_partial_merge` makes of them. */
  function FullMerge(existing: seq<Vote>, ops: seq<VoteOp>): Option<seq<Vote>>
    decreases |ops|
  {
    if ops == [] then Some(existing)
    else
      match MergeOne(existing, ops[0])
      case None => None
      case Some(next) => FullMerge(next, ops[1..])
  }

  /** Merging two batches of operands at once is merging them one after the other. */
  lemma {:induction false} PartialMergeIsSound(existing: seq<Vote>, a: seq<VoteOp>, b: seq<VoteOp>)
    ensures FullMerge(existing, a + b) ==
            match FullMerge(existing, a)
            case None => None
            case Some(next) => FullMerge(next, b)
    decreases |a|
  {
    if a == [] {
      assert a + b == b;
    } else {
      assert (a + b)[0] == a[0] && (a + b)[1..] == a[1..] + b;
      if MergeOne(existing, a[0]).Some? {
        PartialMergeIsSound(MergeOne(existing, a[0]).value, a[1..], b);
      }
    }
  }

  lemma SingleMerge(existing: seq<Vote>, op: VoteOp)
    ensures FullMerge(existing, [op]) == MergeOne(existing, op)
  {
    var ops := [op];
    assert ops[0] == op && ops[1..] == [];
    if MergeOne(existing, op).Some? {
      assert FullMerge(MergeOne(existing, op).value, ops[1..]) == MergeOne(existing, op);
    }
  }

  lemma SwapRemoveMembers(s: seq<Vote>, i: nat)
    requires NoDup(s) && i < |s|
    ensures NoDup(SwapRemove(s, i))
    ensures forall x :: x in SwapRemove(s, i) <==> x in s && x != s[i]
  {
    var r := SwapRemove(s, i);
    forall x | x in s && x != s[i]
      ensures x in r
    {
      var j :| 0 <= j < |s| && s[j] == x;
      if j == |s| - 1 {
        assert r[i] == x;
      } else {
        assert r[j] == x;
      }
    }
  }

  /** A merge keeps the list free of duplicates and adds or removes the one vote. */
  lemma MergeOneMembers(existing: seq<Vote>, op: VoteOp)
    requires NoDup(existing) && (op.add || op.vote in existing)
    ensures MergeOne(existing, op).Some?
    ensures var r := MergeOne(existing, op).value;
            && NoDup(r)
            && forall x :: x in r <==> if x == op.vote then op.add else x in existing
  {
    if !op.add {
      SwapRemoveMembers(existing, Position(existing, op.vote));
    } else if op.vote !in existing {
      NoDupConcat(existing, [op.vote]);
    }
  }

  function Lookup(index: map<Hash, seq<Vote>>, p: Hash): seq<Vote> {
    if p in index then index[p] else []
  }

  ghost predicate NoDuplicates(index: map<Hash, seq<Vote>>) {
    forall p: Hash :: NoDup(Lookup(index, p))
  }

  /** `index'` differs from `index` in the votes of `chain` listed in `changed`, which it has
      exactly if `add`. */
  ghost predicate Changed(index: map<Hash, seq<Vote>>, index': map<Hash, seq<Vote>>, chain: nat,
                          changed: seq<(Hash, nat)>, add: bool)
  {
    forall p: Hash, c: nat, l: nat :: (c, l) in Lookup(index', p) <==>
                      if c == chain && (p, l) in changed then add else (c, l) in Lookup(index, p)
  }

  method MergeVote(index: map<Hash, seq<Vote>>, chain: nat, p: Hash, level: nat, add: bool) returns (index': map<Hash, seq<Vote>>)
    requires NoDuplicates(index) && (add || (chain, level) in Lookup(index, p))
    ensures NoDuplicates(index') && Changed(index, index', chain, [(p, level)], add)
  {
    var op := VoteOp(add, (chain, level));
    MergeOneMembers(Lookup(index, p), op);
    var merged := FullMerge(Lookup(index, p), [op]);
    SingleMerge(Lookup(index, p), op);
    index' := index[p := merged.value];
    assert forall q: Hash | q != p :: Lookup(index', q) == Lookup(index, q);
  }

  lemma NextIsThere(index: map<Hash, seq<Vote>>, mid: map<Hash, seq<Vote>>, chain: nat, changed: seq<(Hash, nat)>, i: nat)
    requires i < |changed| && NoDup(changed) && Changed(index, mid, chain, changed[..i], false)
    requires (chain, changed[i].1) in Lookup(index, changed[i].0)
    ensures (chain, changed[i].1) in Lookup(mid, changed[i].0)
  {
    assert (changed[i].0, changed[i].1) == changed[i];
    assert changed[i] !in changed[..i];
  }

  lemma OneMoreChanged(index: map<Hash, seq<Vote>>, mid: map<Hash, seq<Vote>>, index': map<Hash, seq<Vote>>, chain: nat,
                       changed: seq<(Hash, nat)>, i: nat, add: bool)
    requires i < |changed|
    requires Changed(index, mid, chain, changed[..i], add) && Changed(mid, index', chain, [changed[i]], add)
    ensures Changed(index, index', chain, changed[..i + 1], add)
  {
    forall p: Hash, c: nat, l: nat
      ensures (c, l) in Lookup(index', p) <==>
              if c == chain && (p, l) in changed[..i + 1] then add else (c, l) in Lookup(index, p)
    {
      assert (c, l) in Lookup(index', p) <==>
             if c == chain && (p, l) in [changed[i]] then add else (c, l) in Lookup(mid, p);
      assert (p, l) in changed[..i + 1] <==> (p, l) in changed[..i] || (p, l) == changed[i];
    }
  }

  /** Apply the removed or the added votes of one chain, one merge each. Every vote to remove is
      there, so the merge operator never reaches its `unreachable!()`. */
  method MergeVotes(index: map<Hash, seq<Vote>>, chain: nat, changed: seq<(Hash, nat)>, add: bool)
    returns (index': map<Hash, seq<Vote>>)
    requires NoDuplicates(index) && NoDup(changed)
    requires add || forall x | x in changed :: (chain, x.1) in Lookup(index, x.0)
    ensures NoDuplicates(index') && Changed(index, index', chain, changed, add)
    ensures changed == [] ==> index' == index
  {
    index' := index;
    for i := 0 to |changed|
      invariant NoDuplicates(index') && Changed(index, index', chain, changed[..i], add)
      invariant i == 0 ==> index' == index
    {
      hide NoDuplicates, Changed, Lookup, NoDup;
      var vote := changed[i];
      if !add {
        assert changed[i] in changed;
        NextIsThere(index, index', chain, changed, i);
      }
      ghost var mid := index';
      index' := MergeVote(index', chain, vote.0, vote.1, add);
      assert [(vote.0, vote.1)] == [changed[i]];
      OneMoreChanged(index, mid, index', chain, changed, i, add);
    }
    assert changed[..|changed|] == changed;
  }

  /** The index is exact: for every proposer block it lists, without duplicates, the chain and
      level of every block on a main chain that votes for it, and nothing else. */
  ghost predicate IndexExact(index: map<Hash, seq<Vote>>, v: Voters, tips: seq<Hash>)
    requires Linked(v) && forall t | t in tips :: t in v.level
  {
    && NoDuplicates(index)
    && forall p: Hash, c: nat, l: nat :: (c, l) in Lookup(index, p) <==> c < |tips| && VotesFor(v, tips[c], p, l)
  }

  /** Moving one tip along the vote difference keeps the index exact. */
  method MoveTip(index: map<Hash, seq<Vote>>, v: Voters, tips: seq<Hash>, chain: nat, to: Hash,
                 added: seq<(Hash, nat)>, removed: seq<(Hash, nat)>, ghost meet: nat)
    returns (index': map<Hash, seq<Vote>>)
    requires Linked(v) && VotesDistinct(v) && (forall t | t in tips :: t in v.level) && to in v.level
    requires IndexExact(index, v, tips) && chain < |tips|
    requires MeetAt(v, tips[chain], to, meet)
    requires added == VotesDown(v, to, meet) && removed == VotesDown(v, tips[chain], meet)
    ensures IndexExact(index', v, tips[chain := to])
    ensures OnlyChanges(index, index', added + removed)
    ensures tips[chain] == to ==> index' == index && added == [] && removed == []
  {
    if tips[chain] == to {
      MeetsItself(v, to, meet);
    }
    VotesDownNoDup(v, tips[chain], meet);
    VotesDownNoDup(v, to, meet);
    RemovedAreThere(index, v, tips, chain, meet);
    var mid := MergeVotes(index, chain, removed, false);
    index' := MergeVotes(mid, chain, added, true);
    TipMoved(index, mid, index', v, tips, chain, to, meet);
    hide IndexExact, NoDuplicates, MeetAt, VotesDistinct, Linked;
    forall p: Hash, c: nat, l: nat | (c, l) in Lookup(index', p) <==> (c, l) !in Lookup(index, p)
      ensures (p, l) in added + removed
    {
      assert (c, l) in Lookup(mid, p) <==> if c == chain && (p, l) in removed then false else (c, l) in Lookup(index, p);
    }
  }

  /** Only votes of blocks in the list differ. */
  ghost predicate OnlyChanges(index: map<Hash, seq<Vote>>, index': map<Hash, seq<Vote>>, changed: seq<(Hash, nat)>) {
    forall p: Hash, c: nat, l: nat | (c, l) in Lookup(index', p) <==> (c, l) !in Lookup(index, p) :: (p, l) in changed
  }

  lemma RemovedAreThere(index: map<Hash, seq<Vote>>, v: Voters, tips: seq<Hash>, chain: nat, meet: nat)
    requires Linked(v) && (forall t | t in tips :: t in v.level) && IndexExact(index, v, tips)
    requires chain < |tips| && meet <= v.level[tips[chain]]
    ensures forall x | x in VotesDown(v, tips[chain], meet) :: (chain, x.1) in Lookup(index, x.0)
  {
    forall x | x in VotesDown(v, tips[chain], meet)
      ensures (chain, x.1) in Lookup(index, x.0)
    {
      VotesDownMember(v, tips[chain], meet, x.0, x.1);
    }
  }

  lemma TipMoved(index: map<Hash, seq<Vote>>, mid: map<Hash, seq<Vote>>, index': map<Hash, seq<Vote>>,
                 v: Voters, tips: seq<Hash>, chain: nat, to: Hash, meet: nat)
    requires Linked(v) && (forall t | t in tips :: t in v.level) && to in v.level
    requires IndexExact(index, v, tips) && chain < |tips| && MeetAt(v, tips[chain], to, meet)
    requires Changed(index, mid, chain, VotesDown(v, tips[chain], meet), false)
    requires Changed(mid, index', chain, VotesDown(v, to, meet), true) && NoDuplicates(index')
    ensures IndexExact(index', v, tips[chain := to])
  {
    hide VotesFor, NoDuplicates;
    forall p: Hash, c: nat, l: nat
      ensures (c, l) in Lookup(index', p) <==> c < |tips| && VotesFor(v, tips[chain := to][c], p, l)
    {
      DiffIsExact(v, tips[chain], to, meet, p, l);
      assert (c, l) in Lookup(mid, p) <==>
             if c == chain && (p, l) in VotesDown(v, tips[chain], meet) then false else (c, l) in Lookup(index, p);
    }
  }
}
