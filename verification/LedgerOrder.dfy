/** In which order a leader confirms blocks, said of the reference graph alone: reference after
    reference, each with all that it reaches and is not listed yet, and the leader last. */
module LedgerOrder {
  import opened Prelude
  import opened LedgerSpec

  /** The block is in every set that holds the given ones and all references of its members. */
  ghost predicate Needed(g: Proposers, from: set<Hash>, x: Hash) {
    forall closed: set<Hash> {:trigger ClosedUnderRefs(g, closed)} | ClosedUnderRefs(g, closed) && from <= closed :: x in closed
  }

  /** The least such set. */
  ghost function Reach(g: Proposers, from: set<Hash>): set<Hash> {
    set x | x in g.refs && Needed(g, from, x)
  }

  lemma ReachIsLeast(g: Proposers, from: set<Hash>)
    requires Acyclic(g) && forall x | x in from :: x in g.refs
    ensures from <= Reach(g, from) && ClosedUnderRefs(g, Reach(g, from))
    ensures forall closed: set<Hash> | ClosedUnderRefs(g, closed) && from <= closed :: Reach(g, from) <= closed
  {
    assert forall x | x in from :: Needed(g, from, x);
    forall closed: set<Hash> | ClosedUnderRefs(g, closed) && from <= closed
      ensures Reach(g, from) <= closed
    {
      assert forall x | x in Reach(g, from) :: Needed(g, from, x);
    }
    hide Needed;
    forall x | x in Reach(g, from)
      ensures RefsIn(g, x, Reach(g, from))
    {
      forall r | r in g.refs[x]
        ensures r in Reach(g, from)
      {
        NeededRef(g, from, x, r);
      }
    }
  }

  lemma NeededRef(g: Proposers, from: set<Hash>, x: Hash, r: Hash)
    requires Needed(g, from, x) && x in g.refs && r in g.refs[x]
    ensures Needed(g, from, r)
  {
    forall closed: set<Hash> | ClosedUnderRefs(g, closed) && from <= closed
      ensures r in closed
    {
      assert x in closed && RefsIn(g, x, closed);
    }
  }

  /** The traversal lists what it can reach and is not confirmed. */
  lemma PostOrderReaches(g: Proposers, confirmed: set<Hash>, s: seq<Hash>)
    requires Acyclic(g) && InGraph(g, s) && ClosedUnderRefs(g, confirmed)
    ensures Elements(PostOrder(g, confirmed, s)) == Reach(g, Elements(s)) - confirmed
  {
    var listed := PostOrder(g, confirmed, s);
    PostOrderElements(g, confirmed, s);
    PostOrderCovers(g, confirmed, s);
    PostOrderTopological(g, confirmed, s);
    forall closed: set<Hash> | ClosedUnderRefs(g, closed) && Elements(s) <= closed
      ensures Elements(listed) <= closed
    {
      PostOrderWithin(g, confirmed, s, closed);
    }
    hide PostOrder, Acyclic;
    TopologicalCloses(g, confirmed, listed);
  }

  lemma TopologicalCloses(g: Proposers, confirmed: set<Hash>, s: seq<Hash>)
    requires Topological(g, confirmed, s) && ClosedUnderRefs(g, confirmed)
    ensures ClosedUnderRefs(g, Elements(s) + confirmed)
  {
    forall x | x in Elements(s) + confirmed
      ensures x in g.refs && RefsIn(g, x, Elements(s) + confirmed)
    {
      if x !in confirmed {
        var i :| 0 <= i < |s| && s[i] == x;
        assert RefsIn(g, s[i], confirmed + Elements(s[..i]));
      }
    }
  }

  /** The elements that are not in `taken`. */
  ghost function Without(s: seq<Hash>, taken: set<Hash>): seq<Hash> {
    if s == [] then [] else Without(Init(s), taken) + if Last(s) in taken then [] else [Last(s)]
  }

  lemma {:induction false} WithoutConcat(a: seq<Hash>, b: seq<Hash>, taken: set<Hash>)
    ensures Without(a + b, taken) == Without(a, taken) + Without(b, taken)
  {
    if b == [] {
      assert a + b == a;
    } else {
      WithoutConcat(a, Init(b), taken);
      assert Init(a + b) == a + Init(b);
    }
  }

  lemma {:induction false} WithoutAll(s: seq<Hash>, taken: set<Hash>)
    requires forall x | x in s :: x in taken
    ensures Without(s, taken) == []
  {
    if s != [] {
      WithoutAll(Init(s), taken);
    }
  }

  lemma DedupSnoc(s: seq<Hash>, x: Hash)
    ensures Dedup(s + [x]) == if x in s then Dedup(s) else Dedup(s) + [x]
  {
    SnocInit(s, x);
    DedupElements(s);
    assert x in Dedup(s) <==> x in Elements(Dedup(s));
  }

  lemma WithoutSnoc(s: seq<Hash>, x: Hash, taken: set<Hash>)
    ensures Without(s + [x], taken) == if x in taken then Without(s, taken) else Without(s, taken) + [x]
  {
    SnocInit(s, x);
  }

  lemma {:induction false} WithoutMember(s: seq<Hash>, x: Hash, taken: set<Hash>)
    ensures x in Without(s, taken) <==> x in s && x !in taken
  {
    if s != [] {
      WithoutMember(Init(s), x, taken);
      assert s == Init(s) + [Last(s)];
      WithoutSnoc(Init(s), Last(s), taken);
    }
  }

  /** The first copies, when some elements were listed before. */
  lemma {:induction false} DedupAfter(a: seq<Hash>, b: seq<Hash>)
    ensures Dedup(a + b) == Dedup(a) + Dedup(Without(b, Elements(a)))
  {
    if b == [] {
      assert a + b == a && Dedup(a) + [] == Dedup(a);
    } else {
      hide Dedup, Without, Elements;
      var front, last := Init(b), Last(b);
      DedupAfter(a, front);
      assert b == front + [last];
      DedupAfterOne(a, front, last);
    }
  }

  lemma DedupAfterOne(a: seq<Hash>, front: seq<Hash>, last: Hash)
    requires Dedup(a + front) == Dedup(a) + Dedup(Without(front, Elements(a)))
    ensures Dedup(a + (front + [last])) == Dedup(a) + Dedup(Without(front + [last], Elements(a)))
  {
    hide Dedup, Without;
    var rest := Without(front, Elements(a));
    Assoc(a, front, [last]);
    DedupSnoc(a + front, last);
    DedupSnoc(rest, last);
    WithoutSnoc(front, last, Elements(a));
    WithoutMember(front, last, Elements(a));
    Assoc(Dedup(a), Dedup(rest), [last]);
    assert last in a + front <==> last in a || last in front;
    assert last in Elements(a) <==> last in a;
    hide Elements;
    if last !in a && last !in front {
      assert Dedup((a + front) + [last]) == (Dedup(a) + Dedup(rest)) + [last];
    }
  }

  /** Counting more blocks as confirmed leaves them out and changes nothing else. */
  lemma {:induction false} PostOrderLeavesOut(g: Proposers, confirmed: set<Hash>, taken: set<Hash>, s: seq<Hash>)
    requires Acyclic(g) && InGraph(g, s) && ClosedUnderRefs(g, confirmed + taken)
    ensures Without(PostOrder(g, confirmed, s), taken) == PostOrder(g, confirmed + taken, s)
    decreases Height(g, s), |s|
  {
    if s != [] {
      var top := Last(s);
      PostOrderLeavesOut(g, confirmed, taken, Init(s));
      HeightBound(g, g.refs[top], g.level[top]);
      var below := PostOrder(g, confirmed, g.refs[top]);
      WithoutConcat(PostOrder(g, confirmed, Init(s)), if top in confirmed then [] else below + [top], taken);
      if top !in confirmed {
        WithoutConcat(below, [top], taken);
        assert Init([top]) == [];
        if top in taken {
          PostOrderWithin(g, confirmed, g.refs[top], confirmed + taken);
          PostOrderElements(g, confirmed, g.refs[top]);
          WithoutAll(below, taken);
        } else {
          PostOrderLeavesOut(g, confirmed, taken, g.refs[top]);
        }
      }
    }
  }

  /** What is confirmed or listed before the reference number `i` is visited. */
  ghost function ListedBefore(g: Proposers, confirmed: set<Hash>, refs: seq<Hash>, i: nat): set<Hash>
    requires i <= |refs|
  {
    confirmed + Reach(g, Elements(refs[..i]))
  }

  /** How long the order is then. */
  ghost function Mark(g: Proposers, confirmed: set<Hash>, refs: seq<Hash>, i: nat): nat
    requires i <= |refs|
  {
    |ListedBefore(g, confirmed, refs, i) - confirmed|
  }

  /** The order in which a block confirms what it reaches: after the first `i` references, exactly
      what they reach is listed; what the next one adds is in the same order for itself, with all
      before counted as confirmed; the block itself comes last. */
  ghost predicate ReferenceOrder(g: Proposers, confirmed: set<Hash>, h: Hash, order: seq<Hash>)
    requires Acyclic(g) && h in g.refs
    decreases g.level[h], 3
  {
    && |order| == Mark(g, confirmed, g.refs[h], |g.refs[h]|) + 1 && Last(order) == h
    && ReachListed(g, confirmed, g.refs[h], order)
    && forall i | 0 <= i < |g.refs[h]| :: PartOrder(g, h, confirmed, order, i)
  }

  ghost predicate ReachListed(g: Proposers, confirmed: set<Hash>, refs: seq<Hash>, order: seq<Hash>) {
    forall i | 0 <= i <= |refs| :: Listed(order, Mark(g, confirmed, refs, i), ListedBefore(g, confirmed, refs, i) - confirmed)
  }

  ghost function PartOf(g: Proposers, confirmed: set<Hash>, refs: seq<Hash>, order: seq<Hash>, i: nat): seq<Hash>
    requires i < |refs|
  {
    Part(order, Mark(g, confirmed, refs, i), Mark(g, confirmed, refs, i + 1))
  }

  ghost predicate PartOrder(g: Proposers, h: Hash, confirmed: set<Hash>, order: seq<Hash>, i: nat)
    requires Acyclic(g) && h in g.refs && i < |g.refs[h]|
    decreases g.level[h], 2
  {
    OrderOrNone(g, h, g.refs[h][i], ListedBefore(g, confirmed, g.refs[h], i), PartOf(g, confirmed, g.refs[h], order, i))
  }

  ghost predicate OrderOrNone(g: Proposers, h: Hash, r: Hash, before: set<Hash>, part: seq<Hash>)
    requires Acyclic(g) && h in g.refs && r in g.refs[h]
    decreases g.level[h], 0
  {
    if r in before then part == [] else ReferenceOrder(g, before, r, part)
  }

  /** The first `n` entries are these blocks. */
  ghost predicate Listed(order: seq<Hash>, n: nat, blocks: set<Hash>) {
    n <= |order| && Elements(order[..n]) == blocks
  }

  ghost function Part(order: seq<Hash>, start: nat, end: nat): seq<Hash> {
    if start <= end <= |order| then order[start..end] else []
  }

  /** What the first `i` references contribute. */
  ghost function FirstPart(g: Proposers, confirmed: set<Hash>, refs: seq<Hash>, i: nat): seq<Hash>
    requires Acyclic(g) && InGraph(g, refs) && i <= |refs|
  {
    assert InGraph(g, refs[..i]);
    Dedup(PostOrder(g, confirmed, refs[..i]))
  }

  lemma FirstPartIs(g: Proposers, confirmed: set<Hash>, refs: seq<Hash>, i: nat)
    requires Acyclic(g) && InGraph(g, refs) && i <= |refs| && ClosedUnderRefs(g, confirmed)
    ensures |FirstPart(g, confirmed, refs, i)| == Mark(g, confirmed, refs, i)
    ensures Elements(FirstPart(g, confirmed, refs, i)) == ListedBefore(g, confirmed, refs, i) - confirmed
    ensures InGraph(g, refs[..i])
    ensures ListedBefore(g, confirmed, refs, i) == confirmed + Elements(PostOrder(g, confirmed, refs[..i]))
    ensures ClosedUnderRefs(g, ListedBefore(g, confirmed, refs, i))
  {
    assert InGraph(g, refs[..i]);
    var listed := PostOrder(g, confirmed, refs[..i]);
    PostOrderReaches(g, confirmed, refs[..i]);
    PostOrderTopological(g, confirmed, refs[..i]);
    hide PostOrder, Reach, Acyclic;
    TopologicalCloses(g, confirmed, listed);
    assert confirmed + Elements(listed) == Elements(listed) + confirmed;
    DedupElements(listed);
    NoDupCardinality(Dedup(listed));
  }

  /** One reference more adds its own order, counted from what is listed. */
  lemma NextPart(g: Proposers, confirmed: set<Hash>, refs: seq<Hash>, i: nat)
    requires Acyclic(g) && InGraph(g, refs) && i < |refs| && ClosedUnderRefs(g, confirmed)
    ensures var before := ListedBefore(g, confirmed, refs, i);
            FirstPart(g, confirmed, refs, i + 1) ==
            FirstPart(g, confirmed, refs, i) + if refs[i] in before then [] else OrderOf(g, before, refs[i])
  {
    hide PostOrder, Dedup, Without, Mark, ClosedUnderRefs, Acyclic;
    FirstPartIs(g, confirmed, refs, i);
    FirstPartIs(g, confirmed, refs, i + 1);
    assert refs[..i + 1] == refs[..i] + [refs[i]];
    var a, before := PostOrder(g, confirmed, refs[..i]), ListedBefore(g, confirmed, refs, i);
    hide ListedBefore;
    ConfirmedAddsNothing(g, before, refs[i]);
    PostOrderConcat(g, confirmed, refs[..i], [refs[i]]);
    DedupAfter(a, PostOrder(g, confirmed, [refs[i]]));
    PostOrderLeavesOut(g, confirmed, Elements(a), [refs[i]]);
  }

  lemma ConfirmedAddsNothing(g: Proposers, confirmed: set<Hash>, x: Hash)
    requires Acyclic(g) && x in g.refs
    ensures InGraph(g, [x]) && (x in confirmed ==> Dedup(PostOrder(g, confirmed, [x])) == [])
  {
    assert Init([x]) == [];
  }

  lemma OrderEndsIn(g: Proposers, confirmed: set<Hash>, h: Hash)
    requires Acyclic(g) && h in g.refs && h !in confirmed
    ensures InGraph(g, g.refs[h]) && OrderOf(g, confirmed, h) == FirstPart(g, confirmed, g.refs[h], |g.refs[h]|) + [h]
  {
    var refs := g.refs[h];
    assert InGraph(g, refs) && refs[..|refs|] == refs && Init([h]) == [];
    var below := PostOrder(g, confirmed, refs);
    assert PostOrder(g, confirmed, []) == [] && PostOrder(g, confirmed, [h]) == [] + (below + [h]) == below + [h];
    HeightBound(g, refs, g.level[h]);
    PostOrderElements(g, confirmed, refs);
    hide PostOrder;
    DedupSnoc(below, h);
  }

  lemma {:induction false} FirstPartGrows(g: Proposers, confirmed: set<Hash>, refs: seq<Hash>, i: nat, j: nat)
    requires Acyclic(g) && InGraph(g, refs) && i <= j <= |refs| && ClosedUnderRefs(g, confirmed)
    ensures FirstPart(g, confirmed, refs, i) <= FirstPart(g, confirmed, refs, j)
    decreases j
  {
    if i < j {
      hide FirstPart, ListedBefore, ClosedUnderRefs, Acyclic, OrderOf;
      FirstPartGrows(g, confirmed, refs, i, j - 1);
      NextPart(g, confirmed, refs, j - 1);
    }
  }

  /** The traversal with its reversal and filter gives this order. */
  lemma {:induction false} OrderIsReferenceOrder(g: Proposers, confirmed: set<Hash>, h: Hash)
    requires Acyclic(g) && h in g.refs && h !in confirmed && ClosedUnderRefs(g, confirmed)
    ensures ReferenceOrder(g, confirmed, h, OrderOf(g, confirmed, h))
    decreases g.level[h]
  {
    hide FirstPart, ListedBefore, ClosedUnderRefs, Mark, OrderOf, Listed;
    var refs, order := g.refs[h], OrderOf(g, confirmed, h);
    OrderEndsIn(g, confirmed, h);
    FirstPartIs(g, confirmed, refs, |refs|);
    forall i | 0 <= i <= |refs|
      ensures Listed(order, Mark(g, confirmed, refs, i), ListedBefore(g, confirmed, refs, i) - confirmed)
    {
      FirstPartIs(g, confirmed, refs, i);
      FirstPartGrows(g, confirmed, refs, i, |refs|);
      PrefixListed(FirstPart(g, confirmed, refs, i), order);
    }
    forall i | 0 <= i < |refs|
      ensures PartOrder(g, h, confirmed, order, i)
    {
      var before := ListedBefore(g, confirmed, refs, i);
      FirstPartIs(g, confirmed, refs, i);
      FirstPartIs(g, confirmed, refs, i + 1);
      FirstPartGrows(g, confirmed, refs, i + 1, |refs|);
      NextPart(g, confirmed, refs, i);
      Between(FirstPart(g, confirmed, refs, i), FirstPart(g, confirmed, refs, i + 1), order);
      if refs[i] !in before {
        OrderIsReferenceOrder(g, before, refs[i]);
      }
    }
  }

  lemma PrefixListed(a: seq<Hash>, order: seq<Hash>)
    requires a <= order
    ensures Listed(order, |a|, Elements(a))
  {
    assert order[..|a|] == a;
  }

  lemma Between(a: seq<Hash>, b: seq<Hash>, order: seq<Hash>)
    requires a <= b <= order
    ensures Part(order, |a|, |b|) == b[|a|..] && b == a + b[|a|..]
    ensures forall c :: b == a + c ==> c == b[|a|..]
  {
  }

  lemma ReachGrows(g: Proposers, from: set<Hash>, more: set<Hash>)
    requires from <= more
    ensures Reach(g, from) <= Reach(g, more)
  {
  }

  lemma MarkGrows(g: Proposers, confirmed: set<Hash>, refs: seq<Hash>, i: nat)
    requires i < |refs|
    ensures Mark(g, confirmed, refs, i) <= Mark(g, confirmed, refs, i + 1)
  {
    hide Reach;
    assert refs[..i + 1] == refs[..i] + [refs[i]];
    ElementsConcat(refs[..i], [refs[i]]);
    ReachGrows(g, Elements(refs[..i]), Elements(refs[..i + 1]));
    SubsetCardinality(ListedBefore(g, confirmed, refs, i) - confirmed, ListedBefore(g, confirmed, refs, i + 1) - confirmed);
  }

  /** No other order is like this. */
  lemma {:induction false} ReferenceOrderIsUnique(g: Proposers, confirmed: set<Hash>, h: Hash, a: seq<Hash>, b: seq<Hash>)
    requires Acyclic(g) && h in g.refs && ReferenceOrder(g, confirmed, h, a) && ReferenceOrder(g, confirmed, h, b)
    ensures a == b
    decreases g.level[h], 1
  {
    hide Mark, ListedBefore, Acyclic, PartOrder;
    var refs := g.refs[h];
    assert Listed(a, Mark(g, confirmed, refs, |refs|), ListedBefore(g, confirmed, refs, |refs|) - confirmed);
    PrefixIsUnique(g, confirmed, h, a, b, |refs|);
    assert a == Init(a) + [h] && b == Init(b) + [h];
  }

  lemma {:induction false} PrefixIsUnique(g: Proposers, confirmed: set<Hash>, h: Hash, a: seq<Hash>, b: seq<Hash>, i: nat)
    requires Acyclic(g) && h in g.refs && ReferenceOrder(g, confirmed, h, a) && ReferenceOrder(g, confirmed, h, b) && i <= |g.refs[h]|
    ensures var n := Mark(g, confirmed, g.refs[h], i);
            n <= |a| && n <= |b| && a[..n] == b[..n]
    decreases g.level[h], 0, i
  {
    hide Mark, ListedBefore;
    var refs := g.refs[h];
    var n := Mark(g, confirmed, refs, i);
    assert Listed(a, n, ListedBefore(g, confirmed, refs, i) - confirmed) && Listed(b, n, ListedBefore(g, confirmed, refs, i) - confirmed);
    if i == 0 {
      NothingBefore(g, confirmed, refs);
    } else {
      var k := i - 1;
      PrefixIsUnique(g, confirmed, h, a, b, k);
      MarkGrows(g, confirmed, refs, k);
      var before, part, part' := ListedBefore(g, confirmed, refs, k), PartOf(g, confirmed, refs, a, k), PartOf(g, confirmed, refs, b, k);
      PartUnfolds(g, confirmed, h, a, k);
      PartUnfolds(g, confirmed, h, b, k);
      if refs[k] !in before {
        ReferenceOrderIsUnique(g, before, refs[k], part, part');
      }
      SamePrefix(a, b, Mark(g, confirmed, refs, k), n);
    }
  }

  lemma PartUnfolds(g: Proposers, confirmed: set<Hash>, h: Hash, order: seq<Hash>, i: nat)
    requires Acyclic(g) && h in g.refs && ReferenceOrder(g, confirmed, h, order) && i < |g.refs[h]|
    ensures var before, part := ListedBefore(g, confirmed, g.refs[h], i), PartOf(g, confirmed, g.refs[h], order, i);
            if g.refs[h][i] in before then part == [] else ReferenceOrder(g, before, g.refs[h][i], part)
  {
    hide Mark, ListedBefore, PartOf, Listed;
    assert PartOrder(g, h, confirmed, order, i);
    assert OrderOrNone(g, h, g.refs[h][i], ListedBefore(g, confirmed, g.refs[h], i), PartOf(g, confirmed, g.refs[h], order, i));
  }

  lemma NothingBefore(g: Proposers, confirmed: set<Hash>, refs: seq<Hash>)
    ensures Mark(g, confirmed, refs, 0) == 0
  {
    assert ClosedUnderRefs(g, {});
    assert Elements(refs[..0]) == {} && Reach(g, {}) == {};
    assert ListedBefore(g, confirmed, refs, 0) - confirmed == {};
  }

  lemma SamePrefix(a: seq<Hash>, b: seq<Hash>, m: nat, n: nat)
    requires m <= n <= |a| && n <= |b| && a[..m] == b[..m] && Part(a, m, n) == Part(b, m, n)
    ensures a[..n] == b[..n]
  {
    assert a[..n] == a[..m] + a[m..n] && b[..n] == b[..m] + b[m..n];
  }

  /** Every level of the ledger is in this order, with the levels below it confirmed. */
  ghost predicate OrderedAt(g: Proposers, leaders: map<nat, Hash>, ledger: seq<seq<Hash>>, l: nat)
    requires Acyclic(g) && l < |ledger|
  {
    l in leaders && leaders[l] in g.refs && ReferenceOrder(g, Elements(Flatten(ledger[..l])), leaders[l], ledger[l])
  }

  lemma LedgerIsOrdered(g: Proposers, leaders: map<nat, Hash>, n: nat, l: nat)
    requires Acyclic(g) && Led(g, leaders, n) && l < n
    ensures OrderedAt(g, leaders, Ledger(g, leaders, n), l)
  {
    hide Acyclic, Flatten, OrderOf, ReferenceOrder;
    LedgerPrefix(g, leaders, l, n);
    LedgerPrefix(g, leaders, l + 1, n);
    assert Ledger(g, leaders, n)[l] == Ledger(g, leaders, n)[..l + 1][l];
    var flat := Flatten(Ledger(g, leaders, l));
    LedgerIsSound(g, leaders, l);
    FreshLeader(g, flat, leaders[l]);
    TopologicalCloses(g, {}, flat);
    assert Elements(flat) + {} == Elements(flat);
    OrderIsReferenceOrder(g, Elements(flat), leaders[l]);
  }
}
