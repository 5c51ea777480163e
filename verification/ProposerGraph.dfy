/** What `insert_block` keeps of the proposer graph, src/blockchain/mod.rs. */
module ProposerGraph {
  import opened Prelude
  import opened LedgerSpec

  /** PROPOSER_TREE_LEVEL lists exactly the blocks of each level, once; no list is empty. */
  ghost predicate LevelsListed(g: Proposers) {
    && (forall l: nat, h: Hash :: l in g.byLevel && h in g.byLevel[l] <==> h in g.level && g.level[h] == l)
    && forall l | l in g.byLevel :: NoDup(g.byLevel[l]) && g.byLevel[l] != []
  }

  /** Genesis is the only block of level 0; any other block sits one level above its parent, the
      first of its references. */
  ghost predicate GrownFrom(g: Proposers, genesis: Hash) {
    && g.refs.Keys == g.level.Keys && g.txRefs.Keys == g.level.Keys
    && genesis in g.level && g.level[genesis] == 0
    && forall h | h in g.level && h != genesis :: AboveParent(g, h)
  }

  ghost predicate AboveParent(g: Proposers, h: Hash)
    requires h in g.refs && h in g.level
  {
    |g.refs[h]| > 0 && g.refs[h][0] in g.level && g.level[h] == g.level[g.refs[h][0]] + 1
  }

  /** The levels from 0 to the best one are exactly those with a block. */
  ghost predicate BestLevel(g: Proposers, best: nat) {
    && (forall h | h in g.level :: g.level[h] <= best)
    && forall l: nat :: l in g.byLevel <==> l <= best
  }

  /** A block is listed as unreferred exactly if no block refers to it. */
  ghost predicate UnreferredExact(g: Proposers, unreferred: set<Hash>) {
    forall h: Hash :: h in unreferred <==> h in g.level && Unreferred(g, h)
  }

  ghost predicate Unreferred(g: Proposers, h: Hash) {
    forall q | q in g.refs :: h !in g.refs[q]
  }

  ghost predicate GraphOk(g: Proposers, genesis: Hash, best: nat) {
    Acyclic(g) && GrownFrom(g, genesis) && LevelsListed(g) && BestLevel(g, best)
  }

  function AppendNew(s: seq<Hash>, h: Hash): seq<Hash> {
    if h in s then s else s + [h]
  }

  /** The genesis block alone. */
  function GenesisGraph(genesis: Hash): Proposers {
    Proposers(map[genesis := 0], map[0 := [genesis]], map[genesis := []], map[genesis := []])
  }

  lemma GenesisGraphOk(genesis: Hash)
    ensures GraphOk(GenesisGraph(genesis), genesis, 0)
    ensures UnreferredExact(GenesisGraph(genesis), {genesis})
  {
  }

  /** What `insert_block` writes for a proposer block. */
  function AddProposer(g: Proposers, h: Hash, parent: Hash, refs: seq<Hash>, txRefs: seq<Hash>): Proposers
    requires parent in g.level
  {
    var level := g.level[parent] + 1;
    Proposers(
      g.level[h := level],
      g.byLevel[level := AppendNew(if level in g.byLevel then g.byLevel[level] else [], h)],
      g.refs[h := [parent] + refs],
      g.txRefs[h := txRefs])
  }

  /** The references of a new block are known, and no higher than its parent. */
  ghost predicate RefsBelow(g: Proposers, parent: Hash, refs: seq<Hash>) {
    parent in g.level && forall r | r in refs :: r in g.level && g.level[r] <= g.level[parent]
  }

  lemma AddProposerExtends(g: Proposers, h: Hash, parent: Hash, refs: seq<Hash>, txRefs: seq<Hash>)
    requires Acyclic(g) && h !in g.level && RefsBelow(g, parent, refs)
    ensures var g' := AddProposer(g, h, parent, refs, txRefs);
            Acyclic(g') && Extends(g, g') && g'.level.Keys == g.level.Keys + {h}
  {
    var g' := AddProposer(g, h, parent, refs, txRefs);
    assert forall r | r in g'.refs[h] :: r == parent || r in refs;
  }

  lemma AddProposerListed(g: Proposers, h: Hash, parent: Hash, refs: seq<Hash>, txRefs: seq<Hash>)
    requires LevelsListed(g) && h !in g.level && parent in g.level
    ensures LevelsListed(AddProposer(g, h, parent, refs, txRefs))
  {
    var g' := AddProposer(g, h, parent, refs, txRefs);
    var level := g.level[parent] + 1;
    var before := if level in g.byLevel then g.byLevel[level] else [];
    assert h !in before;
    NoDupConcat(before, [h]);
  }

  lemma AddProposerGrown(g: Proposers, genesis: Hash, h: Hash, parent: Hash, refs: seq<Hash>, txRefs: seq<Hash>)
    requires GrownFrom(g, genesis) && h !in g.level && parent in g.level
    ensures GrownFrom(AddProposer(g, h, parent, refs, txRefs), genesis)
  {
    var g' := AddProposer(g, h, parent, refs, txRefs);
    forall q | q in g'.level && q != genesis
      ensures AboveParent(g', q)
    {
      if q != h {
        assert AboveParent(g, q);
      }
    }
  }

  lemma AddProposerBest(g: Proposers, best: nat, h: Hash, parent: Hash, refs: seq<Hash>, txRefs: seq<Hash>)
    requires BestLevel(g, best) && parent in g.level
    ensures BestLevel(AddProposer(g, h, parent, refs, txRefs), if g.level[parent] + 1 > best then g.level[parent] + 1 else best)
  {
  }

  lemma AddProposerOk(g: Proposers, genesis: Hash, best: nat, h: Hash, parent: Hash, refs: seq<Hash>, txRefs: seq<Hash>)
    requires GraphOk(g, genesis, best) && h !in g.level && RefsBelow(g, parent, refs)
    ensures var g' := AddProposer(g, h, parent, refs, txRefs);
            && GraphOk(g', genesis, if g.level[parent] + 1 > best then g.level[parent] + 1 else best)
            && Extends(g, g') && g'.level.Keys == g.level.Keys + {h}
  {
    hide Acyclic, GrownFrom, LevelsListed, BestLevel, Extends, AddProposer;
    AddProposerExtends(g, h, parent, refs, txRefs);
    AddProposerListed(g, h, parent, refs, txRefs);
    AddProposerGrown(g, genesis, h, parent, refs, txRefs);
    AddProposerBest(g, best, h, parent, refs, txRefs);
  }

  lemma AddProposerUnreferred(g: Proposers, unreferred: set<Hash>, h: Hash, parent: Hash, refs: seq<Hash>, txRefs: seq<Hash>)
    requires Acyclic(g) && UnreferredExact(g, unreferred) && h !in g.level && RefsBelow(g, parent, refs)
    ensures UnreferredExact(AddProposer(g, h, parent, refs, txRefs), unreferred + {h} - Elements(refs) - {parent})
  {
    hide Unreferred;
    var g' := AddProposer(g, h, parent, refs, txRefs);
    NewIsUnreferred(g, h);
    hide Acyclic, RefsBelow;
    forall x: Hash
      ensures x in unreferred + {h} - Elements(refs) - {parent} <==> x in g'.level && Unreferred(g', x)
    {
      UnreferredAfter(g, g', h, x);
      assert x in [parent] + refs <==> x == parent || x in refs;
    }
  }

  lemma NewIsUnreferred(g: Proposers, h: Hash)
    requires Acyclic(g) && h !in g.level
    ensures Unreferred(g, h)
  {
  }

  lemma UnreferredAfter(g: Proposers, g': Proposers, h: Hash, x: Hash)
    requires h !in g.refs && h in g'.refs && g'.refs == g.refs[h := g'.refs[h]]
    ensures Unreferred(g', x) <==> Unreferred(g, x) && x !in g'.refs[h]
  {
    if Unreferred(g', x) {
      forall q | q in g.refs
        ensures x !in g.refs[q]
      {
        assert g'.refs[q] == g.refs[q];
      }
    }
  }
}
