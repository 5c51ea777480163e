/** When two lists of leaves have the same Merkle root, src/crypto/merkle.rs. The root does not
    fix the list: repeating the last node of an odd layer is what padding does anyway. */
module MerkleRoots {
  import opened Prelude
  import opened MerkleSpec

  /** The number of leaf positions once every layer is padded. */
  function Width(n: nat): (r: nat)
    requires n >= 1
    ensures r >= n
  {
    if n == 1 then 1 else 2 * Width(AboveSize(n))
  }

  /** The leaf that fills position `i` of the padded tree of `n` leaves. */
  function Source(i: nat, n: nat): (r: nat)
    requires n >= 1
    ensures r < n && (i < n ==> r == i)
    decreases n
  {
    if i < n then i
    else if n == 1 then 0
    else
      var j := 2 * Source(i / 2, AboveSize(n)) + i % 2;
      if j < n then j else n - 1
  }

  function At<T>(s: seq<T>, i: nat): T
    requires s != []
  {
    s[Source(i, |s|)]
  }

  /** Two lists fill padded trees of the same depth in the same way. */
  ghost predicate Alike<T(!new)>(a: seq<T>, b: seq<T>) {
    if a == [] || b == [] then a == b
    else |LayerSizes(|a|)| == |LayerSizes(|b|)| && SameLeaves(a, b, Width(|a|))
  }

  ghost predicate SameLeaves<T(!new)>(a: seq<T>, b: seq<T>, width: nat)
    requires a != [] && b != []
  {
    forall i: nat | i < width :: At(a, i) == At(b, i)
  }

  /** A padded position goes to the same leaf by way of the layer above. */
  lemma SourceAbove(j: nat, n: nat, odd: nat)
    requires n > 1 && odd < 2
    ensures var k := 2 * Source(j, AboveSize(n)) + odd;
            k < PaddedSize(n) && Source(2 * j + odd, n) == if k < n then k else n - 1
  {
    var i, m := 2 * j + odd, AboveSize(n);
    Halves(j, odd);
    LayerAbove(n);
    var s := Source(j, m);
    hide AboveSize, PaddedSize;
    if i < n {
      assert j < m && s == j;
    } else {
      assert Source(i, n) == var k := 2 * Source(i / 2, AboveSize(n)) + i % 2; if k < n then k else n - 1;
    }
  }

  lemma Halves(j: nat, odd: nat)
    requires odd < 2
    ensures (2 * j + odd) / 2 == j && (2 * j + odd) % 2 == odd
  {
  }

  lemma LayerAbove(n: nat)
    requires n > 1
    ensures 1 <= AboveSize(n) < n && PaddedSize(n) == 2 * AboveSize(n) && n <= PaddedSize(n)
  {
  }

  lemma AtAbove(f: PairHash, layer: seq<Hash>, j: nat)
    requires |layer| > 1
    ensures At(Above(f, layer), j) == f(At(layer, 2 * j), At(layer, 2 * j + 1))
  {
    hide Source;
    SourceAbove(j, |layer|, 0);
    SourceAbove(j, |layer|, 1);
    var s, p := Source(j, AboveSize(|layer|)), Padded(layer);
    assert Above(f, layer)[s] == f(p[2 * s], p[2 * s + 1]);
  }

  lemma LeavesAbove(f: PairHash, a: seq<Hash>, b: seq<Hash>, width: nat)
    requires Injective(f) && |a| > 1 && |b| > 1
    ensures SameLeaves(Above(f, a), Above(f, b), width) <==> SameLeaves(a, b, 2 * width)
  {
    hide At, Above;
    if SameLeaves(Above(f, a), Above(f, b), width) {
      forall i: nat | i < 2 * width
        ensures At(a, i) == At(b, i)
      {
        assert i == 2 * (i / 2) + i % 2;
        AtAbove(f, a, i / 2);
        AtAbove(f, b, i / 2);
        assert At(Above(f, a), i / 2) == At(Above(f, b), i / 2);
      }
    }
    if SameLeaves(a, b, 2 * width) {
      forall j: nat | j < width
        ensures At(Above(f, a), j) == At(Above(f, b), j)
      {
        AtAbove(f, a, j);
        AtAbove(f, b, j);
        assert At(a, 2 * j) == At(b, 2 * j) && At(a, 2 * j + 1) == At(b, 2 * j + 1);
      }
    }
  }

  lemma {:induction false} SameDepthRoots(f: PairHash, a: seq<Hash>, b: seq<Hash>)
    requires Injective(f) && a != [] && b != [] && |LayerSizes(|a|)| == |LayerSizes(|b|)|
    ensures Root(f, a) == Root(f, b) <==> SameLeaves(a, b, Width(|a|))
    decreases |a|
  {
    if |a| == 1 {
      assert |b| == 1;
      assert At(a, 0) == a[0] && At(b, 0) == b[0];
    } else {
      assert |b| > 1;
      SameDepthRoots(f, Above(f, a), Above(f, b));
      LeavesAbove(f, a, b, Width(AboveSize(|a|)));
    }
  }

  /** The layer `k` steps up. */
  function Up(f: PairHash, layer: seq<Hash>, k: nat): (r: seq<Hash>)
    requires layer != [] && k < |LayerSizes(|layer|)|
    ensures r != [] && Root(f, r) == Root(f, layer) && |LayerSizes(|r|)| == |LayerSizes(|layer|)| - k
    decreases k
  {
    if k == 0 then layer else Up(f, Above(f, layer), k - 1)
  }

  /** No leaf is itself the hash of two nodes. */
  ghost predicate NoPairs(f: PairHash, s: seq<Hash>) {
    forall x, p, q | x in s :: x != f(p, q)
  }

  ghost predicate IsPair(f: PairHash, x: Hash) {
    exists p, q :: x == f(p, q)
  }

  lemma FirstIsPair(f: PairHash, layer: seq<Hash>)
    requires |layer| > 1
    ensures IsPair(f, Above(f, layer)[0])
  {
    var p := Padded(layer);
    assert Above(f, layer)[0] == f(p[0], p[1]);
  }

  lemma {:induction false} UpIsPairs(f: PairHash, layer: seq<Hash>, k: nat)
    requires layer != [] && 0 < k < |LayerSizes(|layer|)|
    ensures IsPair(f, Up(f, layer, k)[0])
    decreases k
  {
    hide IsPair, Root, Above;
    if k == 1 {
      FirstIsPair(f, layer);
    } else {
      UpIsPairs(f, Above(f, layer), k - 1);
    }
  }

  lemma DeeperRootDiffers(f: PairHash, a: seq<Hash>, b: seq<Hash>)
    requires Injective(f) && a != [] && b != [] && NoPairs(f, a) && |LayerSizes(|a|)| < |LayerSizes(|b|)|
    ensures Root(f, a) != Root(f, b)
  {
    var k := |LayerSizes(|b|)| - |LayerSizes(|a|)|;
    var c := Up(f, b, k);
    UpIsPairs(f, b, k);
    SameDepthRoots(f, a, c);
    assert At(a, 0) == a[0] && At(c, 0) == c[0];
    assert a[0] in a && a[0] != c[0];
  }

  /** With an injective pair hash, and leaves that are no pair hashes, the roots of two lists
      agree exactly if the lists are alike. */
  lemma RootsAgree(f: PairHash, a: seq<Hash>, b: seq<Hash>)
    requires Injective(f) && a != [] && b != [] && NoPairs(f, a) && NoPairs(f, b)
    ensures Root(f, a) == Root(f, b) <==> Alike(a, b)
  {
    if |LayerSizes(|a|)| == |LayerSizes(|b|)| {
      SameDepthRoots(f, a, b);
    } else if |LayerSizes(|a|)| < |LayerSizes(|b|)| {
      DeeperRootDiffers(f, a, b);
    } else {
      DeeperRootDiffers(f, b, a);
    }
  }

  /** Lists of one length are alike only if they are equal. */
  lemma AlikeOfOneLength<T(!new)>(a: seq<T>, b: seq<T>)
    requires |a| == |b|
    ensures Alike(a, b) <==> a == b
  {
    if Alike(a, b) && a != [] {
      forall i | 0 <= i < |a|
        ensures a[i] == b[i]
      {
        assert At(a, i) == At(b, i);
      }
    }
  }

  /** Repeating the last leaf of an odd list changes the list and not the root, for any hash. */
  lemma RepeatedTail(f: PairHash, a: seq<Hash>)
    requires |a| > 1 && |a| % 2 == 1
    ensures Root(f, a + [Last(a)]) == Root(f, a) && a + [Last(a)] != a
  {
    assert Padded(a) == a + [Last(a)] == Padded(a + [Last(a)]);
    assert Above(f, a) == Above(f, a + [Last(a)]);
  }

  function TwoTo(k: nat): (r: nat)
    ensures r >= 1
  {
    if k == 0 then 1 else 2 * TwoTo(k - 1)
  }

  /** The root of a full tree is the pair of the roots of its halves, the first half first. */
  lemma {:induction false} RootOfHalves(f: PairHash, a: seq<Hash>, b: seq<Hash>, k: nat)
    requires |a| == |b| == TwoTo(k)
    ensures Root(f, a + b) == f(Root(f, a), Root(f, b))
    decreases k
  {
    if k == 0 {
      assert Above(f, a + b) == [f(a[0], b[0])];
    } else {
      hide Root, Padded;
      AboveOfHalves(f, a, b, TwoTo(k - 1));
      RootOfHalves(f, Above(f, a), Above(f, b), k - 1);
      RootAbove(f, a);
      RootAbove(f, b);
      RootAbove(f, a + b);
    }
  }

  lemma RootAbove(f: PairHash, a: seq<Hash>)
    requires |a| > 1
    ensures Root(f, a) == Root(f, Above(f, a))
  {
  }

  lemma AboveOfHalves(f: PairHash, a: seq<Hash>, b: seq<Hash>, n: nat)
    requires |a| == |b| == 2 * n && n > 0
    ensures Above(f, a + b) == Above(f, a) + Above(f, b) && |Above(f, a)| == |Above(f, b)| == n
  {
    var up := Above(f, a + b);
    assert Padded(a) == a && Padded(b) == b && Padded(a + b) == a + b;
    forall i | 0 <= i < |up|
      ensures up[i] == (Above(f, a) + Above(f, b))[i]
    {
    }
  }
}
