/** The ledger as a function of the leader sequence and the proposer references: what
    `update_ledger` (src/blockchain/mod.rs) has to keep equal to its stored levels. */
module LedgerSpec {
  import opened Prelude

  /** The column families about proposer blocks that only `insert_block` writes. */
  datatype Proposers = Proposers(
    level: map<Hash, nat>,            // PROPOSER_NODE_LEVEL
    byLevel: map<nat, seq<Hash>>,     // PROPOSER_TREE_LEVEL
    refs: map<Hash, seq<Hash>>,       // PROPOSER_REF_NEIGHBOR, the parent first
    txRefs: map<Hash, seq<Hash>>)     // TRANSACTION_REF_NEIGHBOR

  /** References point to known blocks of strictly lower levels. */
  ghost predicate Acyclic(g: Proposers) {
    && g.refs.Keys == g.level.Keys
    && forall h, r | h in g.refs && r in g.refs[h] :: r in g.refs && g.level[r] < g.level[h]
  }

  ghost predicate InGraph(g: Proposers, s: seq<Hash>) {
    forall x | x in s :: x in g.refs
  }

  /** One more than the highest level in `s`. */
  ghost function Height(g: Proposers, s: seq<Hash>): nat
    requires Acyclic(g) && InGraph(g, s)
  {
    if s == [] then 0
    else
      var h := Height(g, Init(s));
      if g.level[Last(s)] < h then h else g.level[Last(s)] + 1
  }

  lemma {:induction false} HeightBound(g: Proposers, s: seq<Hash>, n: nat)
    requires Acyclic(g) && InGraph(g, s)
    requires forall x | x in s :: g.level[x] < n
    ensures Height(g, s) <= n
  {
    if s != [] {
      HeightBound(g, Init(s), n);
    }
  }

  /** The blocks below `s` that are not confirmed yet, every block after the blocks it refers
      to, in reference order. A block referred to twice is listed twice. */
  ghost function PostOrder(g: Proposers, confirmed: set<Hash>, s: seq<Hash>): seq<Hash>
    requires Acyclic(g) && InGraph(g, s)
    decreases Height(g, s), |s|
  {
    if s == [] then []
    else
      HeightBound(g, g.refs[Last(s)], g.level[Last(s)]);
      PostOrder(g, confirmed, Init(s)) +
      (if Last(s) in confirmed then [] else PostOrder(g, confirmed, g.refs[Last(s)]) + [Last(s)])
  }

  /** The first occurrence of every element. */
  function Dedup(s: seq<Hash>): seq<Hash> {
    if s == [] then []
    else
      var d := Dedup(Init(s));
      if Last(s) in d then d else d + [Last(s)]
  }

  /** The blocks a leader confirms. */
  ghost function OrderOf(g: Proposers, confirmed: set<Hash>, leader: Hash): seq<Hash>
    requires Acyclic(g) && leader in g.refs
  {
    Dedup(PostOrder(g, confirmed, [leader]))
  }

  lemma LoneOrder(g: Proposers, confirmed: set<Hash>, h: Hash)
    requires Acyclic(g) && h in g.refs && g.refs[h] == [] && h !in confirmed
    ensures OrderOf(g, confirmed, h) == [h]
  {
    hide Acyclic, Height;
    assert Init([h]) == [] && Last([h]) == h;
    assert PostOrder(g, confirmed, []) == [];
    assert PostOrder(g, confirmed, [h]) == [] + ([] + [h]) == [h];
    hide PostOrder;
    assert Dedup([]) == [];
    assert Dedup([h]) == [h];
  }

  /** Levels 0 to `n - 1` have a leader, each a block of its level. */
  ghost predicate Led(g: Proposers, leaders: map<nat, Hash>, n: nat) {
    forall l: nat | l < n :: l in leaders && leaders[l] in g.refs && leaders[l] in g.level && g.level[leaders[l]] == l
  }

  /** The ledger rebuilt from scratch: level by level, each leader confirms what is left. */
  ghost function Ledger(g: Proposers, leaders: map<nat, Hash>, n: nat): (r: seq<seq<Hash>>)
    requires Acyclic(g) && Led(g, leaders, n)
    ensures |r| == n
  {
    if n == 0 then []
    else
      var before := Ledger(g, leaders, n - 1);
      before + [OrderOf(g, Elements(Flatten(before)), leaders[n - 1])]
  }

  /** Every reference of a listed block is confirmed or listed earlier. */
  ghost predicate Topological(g: Proposers, confirmed: set<Hash>, s: seq<Hash>) {
    forall i | 0 <= i < |s| :: s[i] in g.refs && RefsIn(g, s[i], confirmed + Elements(s[..i]))
  }

  ghost predicate RefsIn(g: Proposers, h: Hash, there: set<Hash>)
    requires h in g.refs
  {
    forall r | r in g.refs[h] :: r in there
  }

  lemma TopologicalConcat(g: Proposers, confirmed: set<Hash>, a: seq<Hash>, b: seq<Hash>)
    requires Topological(g, confirmed, a) && Topological(g, confirmed + Elements(a), b)
    ensures Topological(g, confirmed, a + b)
  {
    forall i | 0 <= i < |a + b|
      ensures (a + b)[i] in g.refs && RefsIn(g, (a + b)[i], confirmed + Elements((a + b)[..i]))
    {
      if i < |a| {
        assert (a + b)[..i] == a[..i];
      } else {
        assert (a + b)[..i] == a + b[..i - |a|];
        ElementsConcat(a, b[..i - |a|]);
      }
    }
  }

  lemma TopologicalMore(g: Proposers, confirmed: set<Hash>, more: set<Hash>, s: seq<Hash>)
    requires Topological(g, confirmed, s)
    ensures Topological(g, confirmed + more, s)
  {
  }

  lemma {:induction false} PostOrderElements(g: Proposers, confirmed: set<Hash>, s: seq<Hash>)
    requires Acyclic(g) && InGraph(g, s)
    ensures forall x | x in PostOrder(g, confirmed, s) ::
              x in g.refs && x !in confirmed && g.level[x] < Height(g, s)
    decreases Height(g, s), |s|
  {
    if s != [] {
      var top := Last(s);
      PostOrderElements(g, confirmed, Init(s));
      HeightBound(g, g.refs[top], g.level[top]);
      PostOrderElements(g, confirmed, g.refs[top]);
      assert Height(g, Init(s)) <= Height(g, s) && g.level[top] < Height(g, s);
    }
  }

  lemma {:induction false} PostOrderCovers(g: Proposers, confirmed: set<Hash>, s: seq<Hash>)
    requires Acyclic(g) && InGraph(g, s)
    ensures forall x | x in s :: x in confirmed || x in PostOrder(g, confirmed, s)
    decreases |s|
  {
    if s != [] {
      PostOrderCovers(g, confirmed, Init(s));
      assert forall x | x in s :: x in Init(s) || x == Last(s);
    }
  }

  lemma {:induction false} PostOrderTopological(g: Proposers, confirmed: set<Hash>, s: seq<Hash>)
    requires Acyclic(g) && InGraph(g, s)
    ensures Topological(g, confirmed, PostOrder(g, confirmed, s))
    decreases Height(g, s), |s|
  {
    if s != [] {
      var top := Last(s);
      var before := PostOrder(g, confirmed, Init(s));
      PostOrderTopological(g, confirmed, Init(s));
      HeightBound(g, g.refs[top], g.level[top]);
      if top !in confirmed {
        var below := PostOrder(g, confirmed, g.refs[top]);
        PostOrderTopological(g, confirmed, g.refs[top]);
        PostOrderCovers(g, confirmed, g.refs[top]);
        assert Topological(g, confirmed + Elements(below), [top]);
        TopologicalConcat(g, confirmed, below, [top]);
        TopologicalMore(g, confirmed, Elements(before), below + [top]);
        TopologicalConcat(g, confirmed, before, below + [top]);
      } else {
        assert before + [] == before;
      }
    }
  }

  /** What one more block on the traversal stack contributes. */
  ghost function PostOrderOf(g: Proposers, confirmed: set<Hash>, x: Hash): seq<Hash>
    requires Acyclic(g) && x in g.refs
  {
    if x in confirmed then [] else PostOrder(g, confirmed, g.refs[x]) + [x]
  }

  lemma PostOrderSnoc(g: Proposers, confirmed: set<Hash>, s: seq<Hash>, x: Hash)
    requires Acyclic(g) && InGraph(g, s) && x in g.refs
    ensures InGraph(g, s + [x])
    ensures PostOrder(g, confirmed, s + [x]) == PostOrder(g, confirmed, s) + PostOrderOf(g, confirmed, x)
  {
    SnocInit(s, x);
  }

  lemma {:induction false} PostOrderConcat(g: Proposers, confirmed: set<Hash>, a: seq<Hash>, b: seq<Hash>)
    requires Acyclic(g) && InGraph(g, a) && InGraph(g, b)
    ensures InGraph(g, a + b)
    ensures PostOrder(g, confirmed, a + b) == PostOrder(g, confirmed, a) + PostOrder(g, confirmed, b)
    decreases |b|
  {
    if b == [] {
      assert a + b == a;
    } else {
      hide PostOrder, PostOrderOf;
      InitLast(a, b);
      PostOrderConcat(g, confirmed, a, Init(b));
      PostOrderSnoc(g, confirmed, a + Init(b), Last(b));
      PostOrderSnoc(g, confirmed, Init(b), Last(b));
      Assoc(PostOrder(g, confirmed, a), PostOrder(g, confirmed, Init(b)), PostOrderOf(g, confirmed, Last(b)));
    }
  }

  lemma {:induction false} DedupElements(s: seq<Hash>)
    ensures Elements(Dedup(s)) == Elements(s) && NoDup(Dedup(s))
  {
    if s != [] {
      DedupElements(Init(s));
      assert Elements(s) == Elements(Init(s)) + {Last(s)};
      if Last(s) !in Dedup(Init(s)) {
        NoDupConcat(Dedup(Init(s)), [Last(s)]);
      }
    }
  }

  lemma {:induction false} DedupTopological(g: Proposers, confirmed: set<Hash>, s: seq<Hash>)
    requires Topological(g, confirmed, s)
    ensures Topological(g, confirmed, Dedup(s))
  {
    if s != [] {
      var front := Init(s);
      assert forall i | 0 <= i < |front| :: front[i] == s[i] && front[..i] == s[..i];
      DedupTopological(g, confirmed, front);
      DedupElements(front);
      assert s[..|s| - 1] == front && RefsIn(g, s[|s| - 1], confirmed + Elements(front));
      if Last(s) !in Dedup(front) {
        TopologicalConcat(g, confirmed, Dedup(front), [Last(s)]);
      }
    }
  }

  /** A set closed under references that holds the start of the traversal holds all of it. */
  lemma {:induction false} PostOrderWithin(g: Proposers, confirmed: set<Hash>, s: seq<Hash>, closed: set<Hash>)
    requires Acyclic(g) && InGraph(g, s)
    requires ClosedUnderRefs(g, closed) && forall x | x in s :: x in closed
    ensures forall x | x in PostOrder(g, confirmed, s) :: x in closed
    decreases Height(g, s), |s|
  {
    if s != [] {
      PostOrderWithin(g, confirmed, Init(s), closed);
      HeightBound(g, g.refs[Last(s)], g.level[Last(s)]);
      PostOrderWithin(g, confirmed, g.refs[Last(s)], closed);
    }
  }

  ghost predicate ClosedUnderRefs(g: Proposers, s: set<Hash>) {
    forall h | h in s :: h in g.refs && RefsIn(g, h, s)
  }

  /** What one leader adds: new blocks of no higher level, each after its references, and
      the leader last. */
  lemma OrderIsSound(g: Proposers, confirmed: set<Hash>, leader: Hash)
    requires Acyclic(g) && leader in g.refs && leader !in confirmed
    ensures var order := OrderOf(g, confirmed, leader);
            && NoDup(order) && Topological(g, confirmed, order)
            && order != [] && Last(order) == leader
            && forall x | x in order :: x in g.refs && x !in confirmed && g.level[x] <= g.level[leader]
  {
    var below := PostOrder(g, confirmed, g.refs[leader]);
    assert Init([leader]) == [];
    var all := PostOrder(g, confirmed, [leader]);
    assert PostOrder(g, confirmed, []) == [] && [] + (below + [leader]) == below + [leader];
    assert all == below + [leader];
    HeightBound(g, g.refs[leader], g.level[leader]);
    PostOrderElements(g, confirmed, g.refs[leader]);
    PostOrderTopological(g, confirmed, [leader]);
    DedupElements(all);
    DedupElements(below);
    DedupTopological(g, confirmed, all);
    assert Init(all) == below && leader !in below;
    assert forall x | x in Dedup(all) :: x in Elements(all);
    assert leader !in Elements(below);
  }

  /** No block twice, every block after its parent and references, only blocks below level `n`. */
  ghost predicate SoundOrder(g: Proposers, flat: seq<Hash>, n: nat) {
    && NoDup(flat)
    && Topological(g, {}, flat)
    && forall x | x in flat :: x in g.level && g.level[x] < n
  }

  ghost predicate EndsWithLeaders(leaders: map<nat, Hash>, ledger: seq<seq<Hash>>) {
    forall l | 0 <= l < |ledger| :: l in leaders && ledger[l] != [] && Last(ledger[l]) == leaders[l]
  }

  /** What holds of the ledger: its blocks, in order, are sound, and each level ends with its leader. */
  ghost predicate SoundLedger(g: Proposers, leaders: map<nat, Hash>, ledger: seq<seq<Hash>>) {
    SoundOrder(g, Flatten(ledger), |ledger|) && EndsWithLeaders(leaders, ledger)
  }

  lemma {:induction false} LedgerIsSound(g: Proposers, leaders: map<nat, Hash>, n: nat)
    requires Acyclic(g) && Led(g, leaders, n)
    ensures SoundLedger(g, leaders, Ledger(g, leaders, n))
  {
    hide SoundOrder, EndsWithLeaders;
    if n > 0 {
      LedgerIsSound(g, leaders, n - 1);
      var before := Ledger(g, leaders, n - 1);
      FreshLeader(g, Flatten(before), leaders[n - 1]);
      OrderIsSound(g, Elements(Flatten(before)), leaders[n - 1]);
      var order := OrderOf(g, Elements(Flatten(before)), leaders[n - 1]);
      hide OrderOf;
      SoundWithOneMore(g, Flatten(before), order, n - 1);
      FlattenSnoc(before, order);
      EndsWithOneMore(leaders, before, order);
    } else {
      SoundAtStart(g, leaders);
    }
  }

  lemma SoundAtStart(g: Proposers, leaders: map<nat, Hash>)
    ensures SoundOrder(g, Flatten([]), 0) && EndsWithLeaders(leaders, [])
  {
  }

  lemma FreshLeader(g: Proposers, flat: seq<Hash>, leader: Hash)
    requires leader in g.level && SoundOrder(g, flat, g.level[leader])
    ensures leader !in Elements(flat)
  {
  }

  lemma SoundWithOneMore(g: Proposers, flat: seq<Hash>, order: seq<Hash>, n: nat)
    requires SoundOrder(g, flat, n)
    requires NoDup(order) && Topological(g, Elements(flat), order)
    requires forall x | x in order :: x in g.level && x !in Elements(flat) && g.level[x] <= n
    ensures SoundOrder(g, flat + order, n + 1)
  {
    hide Topological, NoDup;
    NoDupConcat(flat, order);
    assert {} + Elements(flat) == Elements(flat);
    TopologicalConcat(g, {}, flat, order);
  }

  lemma EndsWithOneMore(leaders: map<nat, Hash>, before: seq<seq<Hash>>, order: seq<Hash>)
    requires EndsWithLeaders(leaders, before)
    requires |before| in leaders && order != [] && Last(order) == leaders[|before|]
    ensures EndsWithLeaders(leaders, before + [order])
  {
  }

  /** The ledger confirms no more than it must: it lies within every set that is closed under
      references and holds the leaders. With soundness, it is the least such set. */
  lemma {:induction false} LedgerIsLeast(g: Proposers, leaders: map<nat, Hash>, n: nat, closed: set<Hash>)
    requires Acyclic(g) && Led(g, leaders, n)
    requires ClosedUnderRefs(g, closed) && forall l: nat | l < n :: leaders[l] in closed
    ensures Elements(Flatten(Ledger(g, leaders, n))) <= closed
  {
    if n > 0 {
      LedgerIsLeast(g, leaders, n - 1, closed);
      var before := Ledger(g, leaders, n - 1);
      var confirmed := Elements(Flatten(before));
      PostOrderWithin(g, confirmed, [leaders[n - 1]], closed);
      DedupElements(PostOrder(g, confirmed, [leaders[n - 1]]));
      FlattenSnoc(before, OrderOf(g, confirmed, leaders[n - 1]));
      ElementsConcat(Flatten(before), OrderOf(g, confirmed, leaders[n - 1]));
    }
  }

  /** Later insertions keep every block as it is. */
  ghost predicate Extends(g: Proposers, g': Proposers) {
    forall h | h in g.refs ::
      h in g'.refs && g'.refs[h] == g.refs[h] && h in g.level && h in g'.level && g'.level[h] == g.level[h]
  }

  lemma {:induction false} PostOrderStable(g: Proposers, g': Proposers, confirmed: set<Hash>, s: seq<Hash>)
    requires Acyclic(g) && Acyclic(g') && Extends(g, g') && InGraph(g, s)
    ensures InGraph(g', s) && PostOrder(g', confirmed, s) == PostOrder(g, confirmed, s)
    decreases Height(g, s), |s|
  {
    if s != [] {
      PostOrderStable(g, g', confirmed, Init(s));
      HeightBound(g, g.refs[Last(s)], g.level[Last(s)]);
      PostOrderStable(g, g', confirmed, g.refs[Last(s)]);
    }
  }

  /** The ledger depends on the blocks it confirms and on the leaders below `n` only. */
  lemma {:induction false} LedgerStable(g: Proposers, g': Proposers, leaders: map<nat, Hash>, leaders': map<nat, Hash>, n: nat)
    requires Acyclic(g) && Acyclic(g') && Extends(g, g') && Led(g, leaders, n)
    requires forall l: nat | l < n :: l in leaders' && leaders'[l] == leaders[l]
    ensures Led(g', leaders', n) && Ledger(g', leaders', n) == Ledger(g, leaders, n)
  {
    LedOver(g, g', leaders, leaders', n);
    hide Acyclic, Extends, Flatten, OrderOf;
    if n > 0 {
      assert leaders[n - 1] in g.refs && leaders'[n - 1] == leaders[n - 1];
      hide Led;
      LedgerStable(g, g', leaders, leaders', n - 1);
      OrderStable(g, g', Elements(Flatten(Ledger(g, leaders, n - 1))), leaders[n - 1]);
    }
  }

  lemma LedOver(g: Proposers, g': Proposers, leaders: map<nat, Hash>, leaders': map<nat, Hash>, n: nat)
    requires Extends(g, g') && Led(g, leaders, n)
    requires forall l: nat | l < n :: l in leaders' && leaders'[l] == leaders[l]
    ensures Led(g', leaders', n)
  {
  }

  lemma OrderStable(g: Proposers, g': Proposers, confirmed: set<Hash>, leader: Hash)
    requires Acyclic(g) && Acyclic(g') && Extends(g, g') && leader in g.refs
    ensures leader in g'.refs && OrderOf(g', confirmed, leader) == OrderOf(g, confirmed, leader)
  {
    hide Acyclic, PostOrder, Dedup;
    PostOrderStable(g, g', confirmed, [leader]);
  }

  lemma {:induction false} LedgerPrefix(g: Proposers, leaders: map<nat, Hash>, n: nat, m: nat)
    requires Acyclic(g) && Led(g, leaders, m) && n <= m
    ensures Ledger(g, leaders, m)[..n] == Ledger(g, leaders, n)
  {
    hide OrderOf, Flatten;
    if n < m {
      LedgerPrefix(g, leaders, n, m - 1);
      PrefixOfSnoc(Ledger(g, leaders, m - 1), Ledger(g, leaders, m), n);
    } else {
      WholePrefix(Ledger(g, leaders, m));
    }
  }

  lemma PrefixOfSnoc(a: seq<seq<Hash>>, b: seq<seq<Hash>>, n: nat)
    requires n <= |a| < |b| && b == a + [Last(b)]
    ensures b[..n] == a[..n]
  {
  }

  lemma WholePrefix(a: seq<seq<Hash>>)
    ensures a[..|a|] == a
  {
  }

  /** The transaction blocks referred to by a list of proposer blocks. */
  function TransactionsOf(g: Proposers, s: seq<Hash>): seq<Hash>
    requires forall x | x in s :: x in g.txRefs
  {
    if s == [] then [] else TransactionsOf(g, Init(s)) + g.txRefs[Last(s)]
  }

  /** A block contributes its own references, in its order. */
  lemma TransactionsOfOne(g: Proposers, h: Hash)
    requires h in g.txRefs
    ensures TransactionsOf(g, [h]) == g.txRefs[h]
  {
    assert Init([h]) == [] && TransactionsOf(g, []) == [] && [] + g.txRefs[h] == g.txRefs[h];
  }

  lemma TransactionsSnoc(g: Proposers, s: seq<Hash>, x: Hash)
    requires (forall y | y in s :: y in g.txRefs) && x in g.txRefs
    ensures TransactionsOf(g, s + [x]) == TransactionsOf(g, s) + g.txRefs[x]
  {
    SnocInit(s, x);
  }

  lemma {:induction false} TransactionsConcat(g: Proposers, a: seq<Hash>, b: seq<Hash>)
    requires forall x | x in a :: x in g.txRefs
    requires forall x | x in b :: x in g.txRefs
    ensures TransactionsOf(g, a + b) == TransactionsOf(g, a) + TransactionsOf(g, b)
    decreases |b|
  {
    if b == [] {
      assert a + b == a;
    } else {
      hide TransactionsOf;
      InitLast(a, b);
      TransactionsConcat(g, a, Init(b));
      TransactionsSnoc(g, a + Init(b), Last(b));
      TransactionsSnoc(g, Init(b), Last(b));
      Assoc(TransactionsOf(g, a), TransactionsOf(g, Init(b)), g.txRefs[Last(b)]);
    }
  }
}
