/** The voter trees and the votes along their main chains, src/blockchain/mod.rs. */
module VoterTrees {
  import opened Prelude

  /** The column families about voter blocks that only `insert_block` writes. */
  datatype Voters = Voters(
    level: map<Hash, nat>,                // VOTER_NODE_LEVEL
    chain: map<Hash, nat>,                // VOTER_NODE_CHAIN
    parent: map<Hash, Hash>,              // VOTER_PARENT_NEIGHBOR
    votes: map<Hash, seq<Hash>>,          // VOTE_NEIGHBOR
    votedLevel: map<Hash, nat>,           // VOTER_NODE_VOTED_LEVEL
    levelCount: map<(nat, nat), nat>)     // VOTER_TREE_LEVEL_COUNT

  /** Every block above level 0 hangs below its parent, on the same chain. */
  ghost predicate Linked(v: Voters) {
    && v.chain.Keys == v.level.Keys && v.votes.Keys == v.level.Keys && v.votedLevel.Keys == v.level.Keys
    && forall h | h in v.level && v.level[h] > 0 :: HangsBelowParent(v, h)
  }

  ghost predicate HangsBelowParent(v: Voters, h: Hash)
    requires h in v.level && v.chain.Keys == v.level.Keys
  {
    && h in v.parent && v.parent[h] in v.level
    && v.level[v.parent[h]] + 1 == v.level[h]
    && v.chain[v.parent[h]] == v.chain[h]
  }

  /** A chain has one block at level 0. */
  ghost predicate OneRoot(v: Voters)
    requires v.chain.Keys == v.level.Keys
  {
    forall a, b | a in v.level && b in v.level && v.level[a] == 0 && v.level[b] == 0 && v.chain[a] == v.chain[b] :: a == b
  }

  /** The ancestor of `h` at level `l`. */
  ghost function Ancestor(v: Voters, h: Hash, l: nat): (r: Hash)
    requires Linked(v) && h in v.level && l <= v.level[h]
    ensures r in v.level && v.level[r] == l && v.chain[r] == v.chain[h]
    decreases v.level[h]
  {
    if v.level[h] == l then h else Ancestor(v, v.parent[h], l)
  }

  /** The block at level `l` of the chain that ends in `tip` votes for proposer block `p`. */
  ghost predicate VotesFor(v: Voters, tip: Hash, p: Hash, l: nat)
    requires Linked(v) && tip in v.level
  {
    l <= v.level[tip] && p in v.votes[Ancestor(v, tip, l)]
  }

  function Tag(votes: seq<Hash>, l: nat): seq<(Hash, nat)> {
    seq(|votes|, i requires 0 <= i < |votes| => (votes[i], l))
  }

  /** The votes of the blocks from `h` down to, and not including, level `m`. */
  ghost function VotesDown(v: Voters, h: Hash, m: nat): seq<(Hash, nat)>
    requires Linked(v) && h in v.level && m <= v.level[h]
    decreases v.level[h]
  {
    if v.level[h] == m then [] else Tag(v.votes[h], v.level[h]) + VotesDown(v, v.parent[h], m)
  }

  lemma {:induction false} VotesDownMember(v: Voters, h: Hash, m: nat, p: Hash, l: nat)
    requires Linked(v) && h in v.level && m <= v.level[h]
    ensures (p, l) in VotesDown(v, h, m) <==> m < l && VotesFor(v, h, p, l)
    decreases v.level[h]
  {
    if v.level[h] > m {
      VotesDownMember(v, v.parent[h], m, p, l);
      TagMember(v.votes[h], v.level[h], p, l);
    }
  }

  lemma TagMember(votes: seq<Hash>, level: nat, p: Hash, l: nat)
    ensures (p, l) in Tag(votes, level) <==> l == level && p in votes
  {
    if l == level && p in votes {
      var i :| 0 <= i < |votes| && votes[i] == p;
      assert Tag(votes, level)[i] == (p, l);
    }
  }

  ghost predicate VotesDistinct(v: Voters) {
    forall h | h in v.votes :: NoDup(v.votes[h])
  }

  lemma {:induction false} VotesDownNoDup(v: Voters, h: Hash, m: nat)
    requires Linked(v) && VotesDistinct(v) && h in v.level && m <= v.level[h]
    ensures NoDup(VotesDown(v, h, m))
    decreases v.level[h]
  {
    if v.level[h] > m {
      var top, rest := Tag(v.votes[h], v.level[h]), VotesDown(v, v.parent[h], m);
      VotesDownNoDup(v, v.parent[h], m);
      forall x | x in top
        ensures x !in rest
      {
        TagMember(v.votes[h], v.level[h], x.0, x.1);
        VotesDownMember(v, v.parent[h], m, x.0, x.1);
      }
      NoDupConcat(top, rest);
    }
  }

  lemma {:induction false} AncestorOfAncestor(v: Voters, h: Hash, m: nat, l: nat)
    requires Linked(v) && h in v.level && l <= m <= v.level[h]
    ensures Ancestor(v, Ancestor(v, h, m), l) == Ancestor(v, h, l)
    decreases v.level[h]
  {
    if m < v.level[h] {
      AncestorOfAncestor(v, v.parent[h], m, l);
    }
  }

  /** Two tips share their chain up to level `m` and no further. */
  ghost predicate MeetAt(v: Voters, from: Hash, to: Hash, m: nat)
    requires Linked(v) && from in v.level && to in v.level
  {
    && m <= v.level[from] && m <= v.level[to]
    && Ancestor(v, from, m) == Ancestor(v, to, m)
    && (m < v.level[from] && m < v.level[to] ==> Ancestor(v, from, m + 1) != Ancestor(v, to, m + 1))
  }

  /** A block on the chain to `from`, and not on the chain to `to`, votes for `p`. */
  ghost predicate LosesVote(v: Voters, from: Hash, to: Hash, p: Hash)
    requires Linked(v) && from in v.level && to in v.level
  {
    exists l: nat :: VotesOff(v, from, to, p, l)
  }

  ghost predicate VotesOff(v: Voters, from: Hash, to: Hash, p: Hash, l: nat)
    requires Linked(v) && from in v.level && to in v.level
  {
    VotesFor(v, from, p, l) && !(l <= v.level[to] && Ancestor(v, to, l) == Ancestor(v, from, l))
  }

  lemma OffIsAboveMeeting(v: Voters, from: Hash, to: Hash, m: nat, p: Hash, l: nat)
    requires Linked(v) && from in v.level && to in v.level && MeetAt(v, from, to, m)
    ensures VotesOff(v, from, to, p, l) <==> (p, l) in VotesDown(v, from, m)
  {
    VotesDownMember(v, from, m, p, l);
    if l <= m {
      AncestorOfAncestor(v, from, m, l);
      AncestorOfAncestor(v, to, m, l);
    } else if l <= v.level[from] && l <= v.level[to] {
      AncestorOfAncestor(v, from, l, m + 1);
      AncestorOfAncestor(v, to, l, m + 1);
    }
  }

  lemma MeetsItself(v: Voters, h: Hash, m: nat)
    requires Linked(v) && h in v.level && MeetAt(v, h, h, m)
    ensures VotesDown(v, h, m) == []
  {
  }

  /** Replacing the votes above the meeting point of one chain by those of the other turns the
      votes of one main chain into those of the other. */
  lemma DiffIsExact(v: Voters, from: Hash, to: Hash, m: nat, p: Hash, l: nat)
    requires Linked(v) && from in v.level && to in v.level && MeetAt(v, from, to, m)
    ensures (p, l) in VotesDown(v, from, m) ==> VotesFor(v, from, p, l)
    ensures VotesFor(v, to, p, l) <==>
              (VotesFor(v, from, p, l) && (p, l) !in VotesDown(v, from, m)) || (p, l) in VotesDown(v, to, m)
  {
    VotesDownMember(v, from, m, p, l);
    VotesDownMember(v, to, m, p, l);
    if l <= m {
      AncestorOfAncestor(v, from, m, l);
      AncestorOfAncestor(v, to, m, l);
    }
  }

  /** Walk one block up, collecting its votes. */
  lemma WalkUp(v: Voters, tip: Hash, at: Hash, collected: seq<(Hash, nat)>)
    requires Linked(v) && tip in v.level && at in v.level && 0 < v.level[at] <= v.level[tip]
    requires Ancestor(v, tip, v.level[at]) == at
    requires collected == VotesDown(v, tip, v.level[at])
    ensures Ancestor(v, tip, v.level[at] - 1) == v.parent[at]
    ensures collected + Tag(v.votes[at], v.level[at]) == VotesDown(v, tip, v.level[at] - 1)
  {
    AncestorOfAncestor(v, tip, v.level[at], v.level[at] - 1);
    VotesDownSplit(v, tip, v.level[at], v.level[at] - 1);
    var last := VotesDown(v, at, v.level[at] - 1);
    assert VotesDown(v, v.parent[at], v.level[at] - 1) == [];
    assert last == Tag(v.votes[at], v.level[at]) + [];
  }

  lemma {:induction false} VotesDownSplit(v: Voters, h: Hash, k: nat, m: nat)
    requires Linked(v) && h in v.level && m <= k <= v.level[h]
    ensures VotesDown(v, h, m) == VotesDown(v, h, k) + VotesDown(v, Ancestor(v, h, k), m)
    decreases v.level[h]
  {
    if k < v.level[h] {
      VotesDownSplit(v, v.parent[h], k, m);
      Assoc(Tag(v.votes[h], v.level[h]), VotesDown(v, v.parent[h], k), VotesDown(v, Ancestor(v, h, k), m));
    } else {
      assert VotesDown(v, h, k) == [];
    }
  }

  lemma RootsMeet(v: Voters, from: Hash, to: Hash)
    requires Linked(v) && OneRoot(v) && from in v.level && to in v.level && v.chain[from] == v.chain[to]
    ensures Ancestor(v, from, 0) == Ancestor(v, to, 0)
  {
  }

  /** The push loop over the votes of one block. */
  method PushVotes(list: seq<(Hash, nat)>, votes: seq<Hash>, level: nat) returns (longer: seq<(Hash, nat)>)
    ensures longer == list + Tag(votes, level)
  {
    longer := list;
    for i := 0 to |votes|
      invariant longer == list + Tag(votes, level)[..i]
    {
      longer := longer + [(votes[i], level)];
    }
  }

  /** `vote_diff`: walk the two chains back to where they meet. It always gets there, before
      either runs past its genesis. */
  method VoteDiff(v: Voters, from: Hash, to: Hash)
    returns (added: seq<(Hash, nat)>, removed: seq<(Hash, nat)>, ghost meet: nat)
    requires Linked(v) && OneRoot(v) && from in v.level && to in v.level && v.chain[from] == v.chain[to]
    ensures MeetAt(v, from, to, meet)
    ensures added == VotesDown(v, to, meet) && removed == VotesDown(v, from, meet)
    ensures TurnsInto(v, from, to, added, removed)
  {
    hide Linked, OneRoot, VotesDown, WalkedTo, MeetAt, TurnsInto;
    var to', from' := to, from;
    var toLevel: nat, fromLevel: nat := v.level[to], v.level[from];
    added, removed := [], [];
    StartWalk(v, to);
    StartWalk(v, from);
    // bring the higher tip down to the level of the lower one
    while toLevel != fromLevel
      invariant WalkedTo(v, to, to', toLevel, added) && WalkedTo(v, from, from', fromLevel, removed)
      invariant (fromLevel == v.level[from] && toLevel >= fromLevel) || (toLevel == v.level[to] && fromLevel >= toLevel)
      decreases toLevel + fromLevel
    {
      if toLevel > fromLevel {
        added, to', toLevel := StepBack(v, to, to', toLevel, added);
      } else {
        removed, from', fromLevel := StepBack(v, from, from', fromLevel, removed);
      }
    }
    while to' != from'
      invariant toLevel == fromLevel
      invariant WalkedTo(v, to, to', toLevel, added) && WalkedTo(v, from, from', fromLevel, removed)
      invariant ApartAbove(v, from, to, toLevel)
      decreases toLevel
    {
      NotYetAtRoot(v, from, to, from', to', toLevel, removed, added);
      added, to', toLevel := StepBack(v, to, to', toLevel, added);
      removed, from', fromLevel := StepBack(v, from, from', fromLevel, removed);
    }
    meet := toLevel;
    WalksMeet(v, from, to, to', meet, removed, added);
    DiffTurnsInto(v, from, to, meet);
  }

  /** Taking `removed` from the votes of one main chain and adding `added` gives the votes of the
      other. */
  ghost predicate TurnsInto(v: Voters, from: Hash, to: Hash, added: seq<(Hash, nat)>, removed: seq<(Hash, nat)>)
    requires Linked(v) && from in v.level && to in v.level
  {
    forall p: Hash, l: nat ::
      && ((p, l) in removed ==> VotesFor(v, from, p, l))
      && (VotesFor(v, to, p, l) <==> (VotesFor(v, from, p, l) && (p, l) !in removed) || (p, l) in added)
  }

  lemma DiffTurnsInto(v: Voters, from: Hash, to: Hash, m: nat)
    requires Linked(v) && from in v.level && to in v.level && MeetAt(v, from, to, m)
    ensures TurnsInto(v, from, to, VotesDown(v, to, m), VotesDown(v, from, m))
  {
    hide Linked, VotesFor, VotesDown;
    forall p: Hash, l: nat
      ensures ((p, l) in VotesDown(v, from, m) ==> VotesFor(v, from, p, l))
           && (VotesFor(v, to, p, l) <==>
               (VotesFor(v, from, p, l) && (p, l) !in VotesDown(v, from, m)) || (p, l) in VotesDown(v, to, m))
    {
      DiffIsExact(v, from, to, m, p, l);
    }
  }

  /** The ancestors just above level `m`, if both tips have one, differ. */
  ghost predicate ApartAbove(v: Voters, from: Hash, to: Hash, m: nat)
    requires Linked(v) && from in v.level && to in v.level
  {
    m < v.level[from] && m < v.level[to] ==> Ancestor(v, from, m + 1) != Ancestor(v, to, m + 1)
  }

  lemma StartWalk(v: Voters, tip: Hash)
    requires Linked(v) && tip in v.level
    ensures WalkedTo(v, tip, tip, v.level[tip], [])
  {
  }

  lemma NotYetAtRoot(v: Voters, from: Hash, to: Hash, from': Hash, to': Hash, m: nat,
                     removed: seq<(Hash, nat)>, added: seq<(Hash, nat)>)
    requires Linked(v) && OneRoot(v) && from in v.level && to in v.level && v.chain[from] == v.chain[to]
    requires WalkedTo(v, to, to', m, added) && WalkedTo(v, from, from', m, removed) && to' != from'
    ensures m > 0 && ApartAbove(v, from, to, m - 1)
  {
    RootsMeet(v, from, to);
  }

  lemma WalksMeet(v: Voters, from: Hash, to: Hash, at: Hash, m: nat, removed: seq<(Hash, nat)>, added: seq<(Hash, nat)>)
    requires Linked(v) && from in v.level && to in v.level
    requires WalkedTo(v, to, at, m, added) && WalkedTo(v, from, at, m, removed) && ApartAbove(v, from, to, m)
    ensures MeetAt(v, from, to, m) && added == VotesDown(v, to, m) && removed == VotesDown(v, from, m)
  {
  }

  /** A walk that started at `tip` stands at `at` and has collected the votes above it. */
  ghost predicate WalkedTo(v: Voters, tip: Hash, at: Hash, level: nat, collected: seq<(Hash, nat)>)
    requires Linked(v) && tip in v.level
  {
    && level <= v.level[tip] && at == Ancestor(v, tip, level)
    && collected == VotesDown(v, tip, level)
  }

  method StepBack(v: Voters, ghost tip: Hash, at: Hash, level: nat, collected: seq<(Hash, nat)>)
    returns (collected': seq<(Hash, nat)>, at': Hash, level': nat)
    requires Linked(v) && tip in v.level && WalkedTo(v, tip, at, level, collected) && level > 0
    ensures level' == level - 1 >= 0 && WalkedTo(v, tip, at', level', collected')
  {
    collected' := PushVotes(collected, v.votes[at], level);
    WalkUp(v, tip, at, collected);
    at' := v.parent[at];
    level' := level - 1;
  }
}
