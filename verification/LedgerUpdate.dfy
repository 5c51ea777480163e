/** The part of `update_ledger` that turns new leaders into a new ledger. */
module LedgerUpdate {
  import opened Prelude
  import opened LedgerSpec
  import opened LedgerOrder

  /** How often the traversal can pop: a block, and every path below it. */
  ghost function Weight(g: Proposers, s: seq<Hash>): nat
    requires Acyclic(g) && InGraph(g, s)
    decreases Height(g, s), |s|
  {
    if s == [] then 0
    else
      HeightBound(g, g.refs[Last(s)], g.level[Last(s)]);
      Weight(g, Init(s)) + 1 + Weight(g, g.refs[Last(s)])
  }

  lemma WeightSnoc(g: Proposers, s: seq<Hash>, x: Hash)
    requires Acyclic(g) && InGraph(g, s) && x in g.refs
    ensures InGraph(g, s + [x]) && Weight(g, s + [x]) == Weight(g, s) + 1 + Weight(g, g.refs[x])
  {
    SnocInit(s, x);
  }

  lemma {:induction false} WeightConcat(g: Proposers, a: seq<Hash>, b: seq<Hash>)
    requires Acyclic(g) && InGraph(g, a) && InGraph(g, b)
    ensures InGraph(g, a + b) && Weight(g, a + b) == Weight(g, a) + Weight(g, b)
    decreases |b|
  {
    if b == [] {
      assert a + b == a;
    } else {
      hide Weight;
      InitLast(a, b);
      WeightConcat(g, a, Init(b));
      WeightSnoc(g, a + Init(b), Last(b));
      WeightSnoc(g, Init(b), Last(b));
    }
  }

  function Reversed(s: seq<Hash>): (r: seq<Hash>)
    ensures |r| == |s|
  {
    if s == [] then [] else [Last(s)] + Reversed(Init(s))
  }

  /** The depth-first traversal. It keeps no visited set, so a block can be pushed many times;
      it still ends, and its reversed trace is the post-order. */
  method Traverse(g: Proposers, unconfirmed: set<Hash>, leader: Hash) returns (order: seq<Hash>)
    requires Acyclic(g) && leader in g.refs
    ensures Reversed(order) == PostOrder(g, g.level.Keys - unconfirmed, [leader])
  {
    ghost var confirmed := g.level.Keys - unconfirmed;
    order := [];
    var stack := [leader];
    assert PostOrder(g, confirmed, stack) + [] == PostOrder(g, confirmed, stack);
    while stack != []
      invariant InGraph(g, stack)
      invariant PostOrder(g, confirmed, stack) + Reversed(order) == PostOrder(g, confirmed, [leader])
      decreases Weight(g, stack)
    {
      var top := Last(stack);
      var rest := Init(stack);
      PopStep(g, confirmed, stack, Reversed(order));
      stack := rest;
      if top in unconfirmed {
        var refs := g.refs[top];
        order := order + [top];
        assert Init(order) == order[..|order| - 1];
        stack := stack + refs;
      }
    }
  }

  lemma PopStep(g: Proposers, confirmed: set<Hash>, stack: seq<Hash>, tail: seq<Hash>)
    requires Acyclic(g) && InGraph(g, stack) && stack != []
    ensures var top, rest := Last(stack), Init(stack);
            && InGraph(g, rest) && InGraph(g, rest + g.refs[top])
            && Weight(g, rest) < Weight(g, stack) && Weight(g, rest + g.refs[top]) < Weight(g, stack)
            && PostOrder(g, confirmed, stack) + tail ==
               if top in confirmed then PostOrder(g, confirmed, rest) + tail
               else PostOrder(g, confirmed, rest + g.refs[top]) + ([top] + tail)
  {
    hide PostOrder, Weight;
    var top, rest := Last(stack), Init(stack);
    InitLast([], stack);
    WeightConcat(g, rest, g.refs[top]);
    WeightSnoc(g, rest, top);
    PostOrderConcat(g, confirmed, rest, g.refs[top]);
    PostOrderSnoc(g, confirmed, rest, top);
    if top in confirmed {
      assert PostOrder(g, confirmed, rest) + [] == PostOrder(g, confirmed, rest);
    } else {
      Assoc(PostOrder(g, confirmed, rest), PostOrder(g, confirmed, g.refs[top]), [top]);
      Assoc(PostOrder(g, confirmed, rest + g.refs[top]), [top], tail);
    }
  }

  /** `filter(|h| unconfirmed_proposers.remove(h))`: the first copy of every block is kept. */
  method KeepFirst(s: seq<Hash>, unconfirmed: set<Hash>) returns (kept: seq<Hash>, left: set<Hash>)
    requires forall x | x in s :: x in unconfirmed
    ensures kept == Dedup(s) && left == unconfirmed - Elements(kept)
  {
    kept, left := [], unconfirmed;
    for i := 0 to |s|
      invariant kept == Dedup(s[..i]) && left == unconfirmed - Elements(kept)
    {
      assert Init(s[..i + 1]) == s[..i] && Last(s[..i + 1]) == s[i];
      if s[i] in left {
        left := left - {s[i]};
        kept := kept + [s[i]];
      }
    }
    assert s[..|s|] == s;
  }

  /** The order of one level, and what stays unconfirmed after it. */
  method ConfirmLevel(g: Proposers, unconfirmed: set<Hash>, leader: Hash) returns (order: seq<Hash>, left: set<Hash>)
    requires Acyclic(g) && leader in g.refs
    ensures order == OrderOf(g, g.level.Keys - unconfirmed, leader)
    ensures left == unconfirmed - Elements(order)
    ensures leader in g.level && leader in unconfirmed && ClosedUnderRefs(g, g.level.Keys - unconfirmed) ==>
              ReferenceOrder(g, g.level.Keys - unconfirmed, leader, order)
  {
    hide ReferenceOrder;
    if leader in g.level && leader in unconfirmed && ClosedUnderRefs(g, g.level.Keys - unconfirmed) {
      OrderIsReferenceOrder(g, g.level.Keys - unconfirmed, leader);
    }
    var trace := Traverse(g, unconfirmed, leader);
    PostOrderElements(g, g.level.Keys - unconfirmed, [leader]);
    order, left := KeepFirst(Reversed(trace), unconfirmed);
  }

  /** `order` stores the first `n` levels of the ledger, and `unconfirmed` the other blocks. */
  ghost predicate Stored(g: Proposers, leaders: map<nat, Hash>, order: map<nat, seq<Hash>>, unconfirmed: set<Hash>, n: nat)
    requires Acyclic(g)
  {
    && Led(g, leaders, n)
    && (forall l: nat :: l in order <==> l < n)
    && (forall l: nat | l < n :: order[l] == Ledger(g, leaders, n)[l])
    && unconfirmed == g.level.Keys - Elements(Flatten(Ledger(g, leaders, n)))
  }

  lemma RemoveSuffix(keys: set<Hash>, kept: seq<Hash>, removed: seq<Hash>)
    requires NoDup(kept + removed) && forall x | x in kept + removed :: x in keys
    ensures keys - Elements(kept + removed) + Elements(removed) == keys - Elements(kept)
  {
    NoDupDisjoint(kept, removed);
    ElementsConcat(kept, removed);
    assert forall x | x in removed :: x in kept + removed;
  }

  /** Deconfirm the levels from `begin` to the tip. */
  method Deconfirm(order: map<nat, seq<Hash>>, unconfirmed: set<Hash>, tip: nat, begin: nat, ghost ledger: seq<seq<Hash>>)
    returns (order': map<nat, seq<Hash>>, unconfirmed': set<Hash>, removed: seq<Hash>)
    requires begin <= tip + 1 == |ledger|
    requires forall l: nat :: l in order <==> l <= tip
    requires forall l: nat | l <= tip :: order[l] == ledger[l]
    ensures forall l: nat :: l in order' <==> l < begin
    ensures forall l: nat | l < begin :: order'[l] == ledger[l]
    ensures removed == Flatten(ledger[begin..]) && unconfirmed' == unconfirmed + Elements(removed)
  {
    hide Flatten;
    order', unconfirmed', removed := order, unconfirmed, [];
    assert ledger[begin..begin] == [];
    FlattenNothing<Hash>();
    for level := begin to tip + 1
      invariant forall l: nat :: l in order' <==> l < begin || level <= l <= tip
      invariant forall l | l in order' :: order'[l] == ledger[l]
      invariant removed == Flatten(ledger[begin..level])
      invariant unconfirmed' == unconfirmed + Elements(removed)
    {
      var original := order'[level];
      order' := order' - {level};
      unconfirmed' := unconfirmed' + Elements(original);
      ElementsConcat(removed, original);
      removed := removed + original;
      FlattenSlice(ledger, begin, level);
    }
    assert ledger[begin..tip + 1] == ledger[begin..];
  }

  lemma FlattenNothing<T>()
    ensures Flatten<T>([]) == []
  {
  }

  lemma FlattenSlice(ledger: seq<seq<Hash>>, begin: nat, level: nat)
    requires begin <= level < |ledger|
    ensures Flatten(ledger[begin..level + 1]) == Flatten(ledger[begin..level]) + ledger[level]
  {
    assert ledger[begin..level + 1] == ledger[begin..level] + [ledger[level]];
    FlattenSnoc(ledger[begin..level], ledger[level]);
  }

  method Rollback(g: Proposers, ghost leaders: map<nat, Hash>, order: map<nat, seq<Hash>>, unconfirmed: set<Hash>,
                  tip: nat, begin: nat)
    returns (order': map<nat, seq<Hash>>, unconfirmed': set<Hash>, removed: seq<Hash>)
    requires Acyclic(g) && Stored(g, leaders, order, unconfirmed, tip + 1) && begin <= tip + 1
    ensures Led(g, leaders, begin) && Stored(g, leaders, order', unconfirmed', begin)
    ensures Flatten(Ledger(g, leaders, tip + 1)) == Flatten(Ledger(g, leaders, begin)) + removed
  {
    ghost var ledger := Ledger(g, leaders, tip + 1);
    order', unconfirmed', removed := Deconfirm(order, unconfirmed, tip, begin, ledger);
    RollbackKeepsPrefix(g, leaders, tip + 1, begin, removed);
  }

  lemma RollbackKeepsPrefix(g: Proposers, leaders: map<nat, Hash>, n: nat, begin: nat, removed: seq<Hash>)
    requires Acyclic(g) && Led(g, leaders, n) && begin <= n
    requires removed == Flatten(Ledger(g, leaders, n)[begin..])
    ensures Led(g, leaders, begin)
    ensures forall l: nat | l < begin :: Ledger(g, leaders, n)[l] == Ledger(g, leaders, begin)[l]
    ensures Flatten(Ledger(g, leaders, n)) == Flatten(Ledger(g, leaders, begin)) + removed
    ensures g.level.Keys - Elements(Flatten(Ledger(g, leaders, n))) + Elements(removed) ==
            g.level.Keys - Elements(Flatten(Ledger(g, leaders, begin)))
  {
    var all := Ledger(g, leaders, n);
    LedgerPrefix(g, leaders, begin, n);
    FlattenSplit(all, begin);
    LedgerHasNoDup(g, leaders, n);
    RemoveSuffix(g.level.Keys, Flatten(all[..begin]), removed);
  }

  lemma LedgerHasNoDup(g: Proposers, leaders: map<nat, Hash>, n: nat)
    requires Acyclic(g) && Led(g, leaders, n)
    ensures NoDup(Flatten(Ledger(g, leaders, n)))
    ensures forall x | x in Flatten(Ledger(g, leaders, n)) :: x in g.level.Keys
  {
    LedgerIsSound(g, leaders, n);
  }

  lemma FlattenSplit(all: seq<seq<Hash>>, n: nat)
    requires n <= |all|
    ensures Flatten(all) == Flatten(all[..n]) + Flatten(all[n..])
    ensures forall l: nat | l < n :: all[l] == all[..n][l]
  {
    assert all == all[..n] + all[n..];
    FlattenConcat(all[..n], all[n..]);
  }

  /** Every recorded leader is a block of its level. */
  ghost predicate LeadersInPlace(g: Proposers, leaders: map<nat, Hash>) {
    forall l | l in leaders :: leaders[l] in g.refs && leaders[l] in g.level && g.level[leaders[l]] == l
  }

  lemma StoreLevel(g: Proposers, leaders: map<nat, Hash>, order: map<nat, seq<Hash>>, unconfirmed: set<Hash>, n: nat,
                   level: seq<Hash>, left: set<Hash>)
    requires Acyclic(g) && Stored(g, leaders, order, unconfirmed, n) && Led(g, leaders, n + 1)
    requires level == OrderOf(g, g.level.Keys - unconfirmed, leaders[n]) && left == unconfirmed - Elements(level)
    ensures Stored(g, leaders, order[n := level], left, n + 1)
    ensures Flatten(Ledger(g, leaders, n + 1)) == Flatten(Ledger(g, leaders, n)) + level
  {
    hide Flatten, OrderOf;
    var before := Ledger(g, leaders, n);
    LedgerHasNoDup(g, leaders, n);
    assert g.level.Keys - unconfirmed == Elements(Flatten(before));
    FlattenSnoc(before, level);
    ElementsConcat(Flatten(before), level);
  }

  lemma StoredIsLed(g: Proposers, leaders: map<nat, Hash>, order: map<nat, seq<Hash>>, unconfirmed: set<Hash>, n: nat)
    requires Acyclic(g) && Stored(g, leaders, order, unconfirmed, n)
    ensures Led(g, leaders, n)
  {
  }

  method ConfirmNext(g: Proposers, leaders: map<nat, Hash>, order: map<nat, seq<Hash>>, unconfirmed: set<Hash>, n: nat)
    returns (order': map<nat, seq<Hash>>, unconfirmed': set<Hash>, blocks: seq<Hash>)
    requires Acyclic(g) && Stored(g, leaders, order, unconfirmed, n)
    requires LeadersInPlace(g, leaders) && n in leaders
    ensures Led(g, leaders, n) && Led(g, leaders, n + 1) && Stored(g, leaders, order', unconfirmed', n + 1)
    ensures Flatten(Ledger(g, leaders, n + 1)) == Flatten(Ledger(g, leaders, n)) + blocks
  {
    blocks, unconfirmed' := ConfirmLevel(g, unconfirmed, leaders[n]);
    assert Led(g, leaders, n + 1);
    StoreLevel(g, leaders, order, unconfirmed, n, blocks, unconfirmed');
    order' := order[n := blocks];
  }

  /** Confirm levels from `begin` on, up to the first one without a leader. */
  method Rebuild(g: Proposers, leaders: map<nat, Hash>, order: map<nat, seq<Hash>>, unconfirmed: set<Hash>,
                 begin: nat, ghost best: nat)
    returns (order': map<nat, seq<Hash>>, unconfirmed': set<Hash>, tip: nat, added: seq<Hash>)
    requires Acyclic(g) && begin >= 1 && Stored(g, leaders, order, unconfirmed, begin)
    requires LeadersInPlace(g, leaders) && forall h | h in g.level :: g.level[h] <= best
    ensures Stored(g, leaders, order', unconfirmed', tip + 1) && tip + 1 !in leaders
    ensures Flatten(Ledger(g, leaders, tip + 1)) == Flatten(Ledger(g, leaders, begin)) + added
  {
    hide Stored, Ledger, Flatten, Led;
    order', unconfirmed', added := order, unconfirmed, [];
    var level := begin;
    StoredIsLed(g, leaders, order, unconfirmed, begin);
    ghost var base := Flatten(Ledger(g, leaders, begin));
    assert base + [] == base;
    while level in leaders
      invariant begin <= level && Stored(g, leaders, order', unconfirmed', level) && Led(g, leaders, level)
      invariant Flatten(Ledger(g, leaders, level)) == base + added
      decreases best + 1 - level
    {
      var blocks;
      assert level <= best;
      order', unconfirmed', blocks := ConfirmNext(g, leaders, order', unconfirmed', level);
      Assoc(base, added, blocks);
      added := added + blocks;
      level := level + 1;
    }
    tip := level - 1;
  }

  ghost predicate AgreeBelow(before: map<nat, Hash>, leaders: map<nat, Hash>, n: nat) {
    forall l: nat | l < n :: (l in before <==> l in leaders) && (l in before ==> leaders[l] == before[l])
  }

  lemma StoredStable(g: Proposers, before: map<nat, Hash>, leaders: map<nat, Hash>,
                     order: map<nat, seq<Hash>>, unconfirmed: set<Hash>, n: nat)
    requires Acyclic(g) && Stored(g, before, order, unconfirmed, n) && AgreeBelow(before, leaders, n)
    ensures Led(g, before, n) && Led(g, leaders, n) && Ledger(g, leaders, n) == Ledger(g, before, n)
    ensures Stored(g, leaders, order, unconfirmed, n)
  {
    LedgerStable(g, g, before, leaders, n);
  }

  /** The ledger after the leaders changed from level `begin` on: roll back to `begin`, then
      confirm again, unless the ledger does not reach that far. */
  method Recompute(g: Proposers, ghost before: map<nat, Hash>, leaders: map<nat, Hash>,
                   order: map<nat, seq<Hash>>, unconfirmed: set<Hash>, tip: nat, begin: nat, ghost best: nat)
    returns (order': map<nat, seq<Hash>>, unconfirmed': set<Hash>, tip': nat, added: seq<Hash>, removed: seq<Hash>,
             ghost kept: seq<Hash>)
    requires Acyclic(g) && Stored(g, before, order, unconfirmed, tip + 1) && tip + 1 !in before
    requires begin >= 1 && AgreeBelow(before, leaders, begin)
    requires LeadersInPlace(g, leaders) && forall h | h in g.level :: g.level[h] <= best
    ensures Stored(g, leaders, order', unconfirmed', tip' + 1) && tip' + 1 !in leaders
    ensures Flatten(Ledger(g, before, tip + 1)) == kept + removed
    ensures Flatten(Ledger(g, leaders, tip' + 1)) == kept + added
  {
    hide Stored, Ledger, Flatten, LeadersInPlace, Led;
    if begin <= tip + 1 {
      order', unconfirmed', removed := Rollback(g, before, order, unconfirmed, tip, begin);
      kept := Flatten(Ledger(g, before, begin));
      StoredStable(g, before, leaders, order', unconfirmed', begin);
      order', unconfirmed', tip', added := Rebuild(g, leaders, order', unconfirmed', begin, best);
    } else {
      order', unconfirmed', tip', added, removed := order, unconfirmed, tip, [], [];
      StoredStable(g, before, leaders, order, unconfirmed, tip + 1);
      kept := Flatten(Ledger(g, before, tip + 1));
      assert kept + [] == kept;
    }
  }

  /** `extend` of the transaction references of every block in a list. */
  method CollectTransactions(g: Proposers, s: seq<Hash>) returns (txs: seq<Hash>)
    requires forall x | x in s :: x in g.txRefs
    ensures txs == TransactionsOf(g, s)
  {
    txs := [];
    for i := 0 to |s|
      invariant txs == TransactionsOf(g, s[..i])
    {
      assert Init(s[..i + 1]) == s[..i] && Last(s[..i + 1]) == s[i];
      txs := txs + g.txRefs[s[i]];
    }
    assert s[..|s|] == s;
  }
}
