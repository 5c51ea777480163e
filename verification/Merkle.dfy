/** src/crypto/merkle.rs. */
module Merkle {
  import opened Prelude
  import opened MerkleSpec

  /** The hash of 32 zero bytes. */
  const ZERO_HASH: Hash := 0

  /** `layer_size`: the sizes of the layers after padding, leaves first. */
  function PaddedSizes(n: nat): (r: seq<nat>)
    requires n >= 1
    ensures |r| == |LayerSizes(n)| && r[0] == PaddedSize(n)
  {
    if n == 1 then [1] else [PaddedSize(n)] + PaddedSizes(AboveSize(n))
  }

  function Sum(s: seq<nat>): nat {
    if s == [] then 0 else s[0] + Sum(s[1..])
  }

  lemma {:induction false} SumOfPaddedSizes(n: nat)
    requires n >= 1
    ensures Sum(PaddedSizes(n)) == TreeSize(n)
    ensures Sum(PaddedSizes(n)[1..]) == if n == 1 then 0 else TreeSize(AboveSize(n))
  {
    if n > 1 {
      SumOfPaddedSizes(AboveSize(n));
      assert PaddedSizes(n)[1..] == PaddedSizes(AboveSize(n));
    }
  }

  /** The loop that computes the layer sizes, in both `new` and `verify`. */
  method LayerTable(n: nat) returns (layerSize: seq<nat>, dataSize: seq<nat>)
    requires n >= 1
    ensures layerSize == PaddedSizes(n) && dataSize == LayerSizes(n)
  {
    hide PaddedSizes, LayerSizes;
    layerSize, dataSize := [], [];
    var size := n;
    while size != 1
      invariant size >= 1
      invariant layerSize + PaddedSizes(size) == PaddedSizes(n)
      invariant dataSize + LayerSizes(size) == LayerSizes(n)
      decreases size
    {
      ghost var before := size;
      SizesUnfold(size);
      Assoc(layerSize, [PaddedSize(size)], PaddedSizes(AboveSize(size)));
      Assoc(dataSize, [size], LayerSizes(AboveSize(size)));
      dataSize := dataSize + [size];
      if size % 2 == 1 {
        size := size + 1;
      }
      layerSize := layerSize + [size];
      size := size / 2;
      assert size == AboveSize(before);
    }
    SizesUnfold(1);
    dataSize := dataSize + [1];
    layerSize := layerSize + [1];
  }

  lemma SizesUnfold(n: nat)
    requires n >= 1
    ensures n == 1 ==> PaddedSizes(1) == [1] && LayerSizes(1) == [1]
    ensures n > 1 ==> PaddedSizes(n) == [PaddedSize(n)] + PaddedSizes(AboveSize(n)) && LayerSizes(n) == [n] + LayerSizes(AboveSize(n))
  {
  }

  function HashAll<T>(hash: T -> Hash, data: seq<T>): seq<Hash> {
    seq(|data|, i requires 0 <= i < |data| => hash(data[i]))
  }

  /** Fill the layer that starts at `start` from the one below it, which starts at `last`. */
  method FillLayer(f: PairHash, nodes: seq<Hash>, start: nat, last: nat, d: nat,
                   ghost layer: seq<Hash>, ghost lower: seq<Hash>)
    returns (filled: seq<Hash>)
    requires |layer| > 1 && d == AboveSize(|layer|)
    requires start + PaddedSize(d) == last <= |nodes|
    requires nodes[last..] == Padded(layer) + lower
    ensures |filled| == |nodes| && filled[start..] == Padded(Above(f, layer)) + (Padded(layer) + lower)
  {
    hide Above, Padded;
    filled := nodes;
    ghost var below, up := Padded(layer), Above(f, layer);
    for i := 0 to d
      invariant |filled| == |nodes| && filled[last..] == below + lower
      invariant filled[start..start + i] == up[..i]
    {
      AboveAt(f, layer, i);
      assert filled[last..][2 * i] == below[2 * i] && filled[last..][2 * i + 1] == below[2 * i + 1];
      FillOne(filled, start, i, last, up);
      filled := filled[start + i := f(filled[last + 2 * i], filled[last + 2 * i + 1])];
    }
    FillPadding(filled, start, last, up, below + lower);
    if start + d != last {
      filled := filled[last - 1 := filled[start + d - 1]];
    }
  }

  lemma AboveAt(f: PairHash, layer: seq<Hash>, i: nat)
    requires |layer| > 1 && i < AboveSize(|layer|)
    ensures 2 * i + 1 < |Padded(layer)| && Above(f, layer)[i] == f(Padded(layer)[2 * i], Padded(layer)[2 * i + 1])
  {
  }

  lemma FillOne(nodes: seq<Hash>, start: nat, i: nat, last: nat, up: seq<Hash>)
    requires start + i < last <= |nodes| && i < |up|
    requires nodes[start..start + i] == up[..i]
    ensures nodes[start + i := up[i]][start..start + i + 1] == up[..i + 1]
    ensures nodes[start + i := up[i]][last..] == nodes[last..]
  {
    assert up[..i + 1] == up[..i] + [up[i]];
  }

  lemma FillPadding(nodes: seq<Hash>, start: nat, last: nat, up: seq<Hash>, suffix: seq<Hash>)
    requires up != [] && start + PaddedSize(|up|) == last <= |nodes|
    requires nodes[start..start + |up|] == up[..|up|] && nodes[last..] == suffix
    ensures var full := if start + |up| != last then nodes[last - 1 := nodes[start + |up| - 1]] else nodes;
            full[start..] == Padded(up) + suffix
  {
    var full := if start + |up| != last then nodes[last - 1 := nodes[start + |up| - 1]] else nodes;
    assert up == up[..|up|];
    assert full[start..last] == Padded(up) && full[last..] == suffix;
    assert full[start..] == full[start..last] + full[last..];
  }

  /** The tree is finished from `start` on, where `layer` and all layers below it lie. */
  ghost predicate DoneFrom(f: PairHash, leaves: seq<Hash>, start: nat, layer: seq<Hash>, lower: seq<Hash>) {
    && leaves != [] && layer != []
    && start + PaddedSize(|layer|) == TreeSize(|layer|)
    && Tree(f, leaves) == Tree(f, layer) + lower
  }

  lemma DoneAbove(f: PairHash, leaves: seq<Hash>, start: nat, layer: seq<Hash>, lower: seq<Hash>)
    requires DoneFrom(f, leaves, start, layer, lower) && |layer| > 1
    ensures var l := PaddedSize(AboveSize(|layer|));
            l <= start && DoneFrom(f, leaves, start - l, Above(f, layer), Padded(layer) + lower)
  {
    hide Above, Padded;
    Assoc(Tree(f, Above(f, layer)), Padded(layer), lower);
  }

  lemma NextSizes(dataSize: seq<nat>, layerSize: seq<nat>, k: nat, n: nat)
    requires n >= 1 && 1 <= k < |dataSize| == |layerSize|
    requires dataSize[k - 1..] == LayerSizes(n) && layerSize[k - 1..] == PaddedSizes(n)
    ensures n > 1
    ensures dataSize[k..] == LayerSizes(AboveSize(n)) && layerSize[k..] == PaddedSizes(AboveSize(n))
    ensures dataSize[k] == AboveSize(n) && layerSize[k] == PaddedSize(AboveSize(n))
  {
    assert dataSize[k - 1..][1..] == dataSize[k..] && layerSize[k - 1..][1..] == layerSize[k..];
  }

  lemma LastLayer(layer: seq<Hash>, dataSize: seq<nat>)
    requires layer != [] && dataSize != [] && dataSize[|dataSize| - 1..] == LayerSizes(|layer|)
    ensures |layer| == 1
  {
  }

  method Total(s: seq<nat>) returns (total: nat)
    ensures total == Sum(s)
  {
    total := 0;
    for i := |s| downto 0
      invariant total == Sum(s[i..])
    {
      assert s[i..][1..] == s[i + 1..];
      total := total + s[i];
    }
    assert s[0..] == s;
  }

  method FillBottom(nodes: seq<Hash>, hashed: seq<Hash>, l: nat) returns (filled: seq<Hash>)
    requires hashed != [] && l == PaddedSize(|hashed|) <= |nodes|
    ensures |filled| == |nodes| && filled[|nodes| - l..] == Padded(hashed)
  {
    var start := |nodes| - l;
    filled := nodes[..start] + hashed + nodes[start + |hashed|..];
    if l != |hashed| {
      filled := filled[start + l - 1 := filled[start + |hashed| - 1]];
    }
  }

  /** The layers above the bottom one, from the leaves to the root. */
  method FillLayers(f: PairHash, bottom: seq<Hash>, layerSize: seq<nat>, dataSize: seq<nat>, ghost leaves: seq<Hash>)
    returns (nodes: seq<Hash>)
    requires leaves != []
    requires layerSize == PaddedSizes(|leaves|) && dataSize == LayerSizes(|leaves|)
    requires |bottom| == TreeSize(|leaves|) && bottom[|bottom| - layerSize[0]..] == Padded(leaves)
    ensures nodes == Tree(f, leaves)
  {
    nodes := bottom;
    var start := |nodes| - layerSize[0];
    ghost var layer, lower: seq<Hash> := leaves, [];
    assert Padded(layer) + lower == Padded(layer) && Tree(f, leaves) + lower == Tree(f, leaves);
    for k := 1 to |dataSize|
      invariant 0 <= start <= |nodes| && DoneFrom(f, leaves, start, layer, lower)
      invariant nodes[start..] == Padded(layer) + lower
      invariant dataSize[k - 1..] == LayerSizes(|layer|) && layerSize[k - 1..] == PaddedSizes(|layer|)
    {
      NextSizes(dataSize, layerSize, k, |layer|);
      DoneAbove(f, leaves, start, layer, lower);
      var last := start;
      start := start - layerSize[k];
      nodes := FillLayer(f, nodes, start, last, dataSize[k], layer, lower);
      layer, lower := Above(f, layer), Padded(layer) + lower;
    }
    LastLayer(layer, dataSize);
    assert nodes == nodes[0..];
  }

  class MerkleTree {
    const f: PairHash
    var dataSize: seq<nat>
    var nodes: seq<Hash>

    /** The leaf hashes the tree stands for. */
    ghost var leaves: seq<Hash>

    ghost predicate Valid()
      reads this
    {
      dataSize == DataSizes(|leaves|) && nodes == Nodes(f, leaves)
    }

    /** `new`. */
    constructor <T>(f: PairHash, hash: T -> Hash, data: seq<T>)
      ensures Valid()
      ensures this.f == f && leaves == HashAll(hash, data)
    {
      this.f := f;
      var hashed := HashAll(hash, data);
      leaves := hashed;
      if |data| == 0 {
        dataSize := [0];
        nodes := [];
      } else {
        var layerSize, sizes := LayerTable(|data|);
        var treeSize := Total(layerSize);
        SumOfPaddedSizes(|data|);
        var bottom := FillBottom(seq(treeSize, _ => 0), hashed, layerSize[0]);
        var tree := FillLayers(f, bottom, layerSize, sizes, hashed);
        dataSize := sizes;
        nodes := tree;
      }
    }

    /** `root`. */
    method Root() returns (r: Hash)
      requires Valid()
      ensures r == if leaves == [] then ZERO_HASH else MerkleSpec.Root(f, leaves)
    {
      if |nodes| == 0 {
        r := ZERO_HASH;
      } else {
        RootIsFirst(f, leaves);
        r := nodes[0];
      }
    }

    /** `leaf`. */
    method Leaf(index: nat) returns (r: Hash)
      requires Valid()
      ensures r == if index < |leaves| then leaves[index] else ZERO_HASH
    {
      if index >= dataSize[0] {
        return ZERO_HASH;
      }
      if dataSize[0] == 1 {
        return nodes[0];
      }
      var lastLayerStart := if dataSize[0] % 2 == 1 then |nodes| - dataSize[0] - 1 else |nodes| - dataSize[0];
      MiddleAt(Tree(f, Above(f, leaves)), Padded(leaves), [], index);
      r := nodes[lastLayerStart + index];
    }

    /** `proof`. */
    method Proof(index: nat) returns (results: seq<Hash>)
      requires Valid()
      ensures results == if index < |leaves| then ProofOf(f, leaves, index) else []
    {
      if |dataSize| == 1 || index >= dataSize[0] {
        return [];
      }
      results := CollectSiblings(f, nodes, dataSize, index, leaves);
    }

    /** `update`: rewrite the path from one leaf to the root in place. */
    method Update<T>(hash: T -> Hash, index: nat, data: T)
      requires Valid()
      modifies this
      ensures Valid()
      ensures leaves == if index < |old(leaves)| then old(leaves)[index := hash(data)] else old(leaves)
    {
      if index >= dataSize[0] {
        return;
      }
      ghost var target := leaves[index := hash(data)];
      if dataSize[0] == 1 {
        nodes := nodes[0 := hash(data)];
        leaves := target;
        return;
      }
      var lastLayerStart := |nodes| - PaddedSize(dataSize[0]);
      var layerStart, layer, i := lastLayerStart, 0, index;
      ghost var stale, current, lower: seq<Hash> := leaves, target, [];
      assert nodes + [] == nodes && Tree(f, target) + [] == Tree(f, target) && dataSize[0..] == dataSize;
      while true
        invariant 0 <= i < |current| && Updating(f, nodes, layerStart, stale, current, i, lower, target)
        invariant 0 <= layer < |dataSize| && dataSize[layer..] == LayerSizes(|current|)
        invariant dataSize == LayerSizes(|target|)
        invariant Expected(f, hash(data), layerStart, lastLayerStart, current, i, lower)
        decreases |dataSize| - layer
      {
        SizesAt(dataSize, layer, |current|);
        nodes := RewriteNode(f, nodes, layerStart, lastLayerStart, dataSize[layer], i, hash(data), stale, current, lower, target);
        layer := layer + 1;
        if layer == |dataSize| {
          break;
        }
        layerStart := if layer == |dataSize| - 1 then 0 else layerStart - PaddedSize(dataSize[layer]);
        i := i / 2;
        stale, current, lower := Above(f, stale), Above(f, current), Padded(current) + lower;
      }
      leaves := target;
    }
  }

  /** Where the value of the changed node comes from: the data, or the layer just written. */
  ghost predicate Expected(f: PairHash, leaf: Hash, start: int, bottom: int, current: seq<Hash>, i: nat, lower: seq<Hash>) {
    i < |current| && if start == bottom then current[i] == leaf else start + i < bottom && IsParent(f, current[i], lower, i)
  }

  /** One round of the loop of `update`. */
  method RewriteNode(f: PairHash, nodes: seq<Hash>, layerStart: nat, lastLayerStart: nat, size: nat, i: nat, leaf: Hash,
                     ghost stale: seq<Hash>, ghost current: seq<Hash>, ghost lower: seq<Hash>, ghost target: seq<Hash>)
    returns (written: seq<Hash>)
    requires Updating(f, nodes, layerStart, stale, current, i, lower, target) && size == |stale|
    requires Expected(f, leaf, layerStart, lastLayerStart, current, i, lower)
    ensures size == 1 ==> written == Tree(f, target)
    ensures size > 1 ==>
              && layerStart <= lastLayerStart && layerStart == TreeSize(AboveSize(size))
              && Updating(f, written, layerStart - PaddedSize(AboveSize(size)), Above(f, stale), Above(f, current), i / 2,
                          Padded(current) + lower, target)
              && Expected(f, leaf, layerStart - PaddedSize(AboveSize(size)), lastLayerStart, Above(f, current), i / 2,
                          Padded(current) + lower)
  {
    var node := NewNode(f, nodes, layerStart, lastLayerStart, size, i, leaf, Tree(f, stale), current, lower);
    if size == 1 {
      WriteRoot(f, nodes, layerStart, stale, current, lower, target);
    } else {
      WriteLayer(f, nodes, layerStart, stale, current, i, lower, target);
      ParentOf(f, current, lower, i);
    }
    written := StoreNode(nodes, layerStart, size, i, node);
  }

  method NewNode(f: PairHash, nodes: seq<Hash>, layerStart: nat, lastLayerStart: nat, size: nat, i: nat, leaf: Hash,
                 ghost upper: seq<Hash>, ghost current: seq<Hash>, ghost lower: seq<Hash>)
    returns (node: Hash)
    requires nodes == upper + lower && |upper| == layerStart + PaddedSize(size) && i < size == |current|
    requires size == 1 <==> layerStart == 0
    requires Expected(f, leaf, layerStart, lastLayerStart, current, i, lower)
    ensures node == current[i]
  {
    var nodesIndex := layerStart + i;
    if nodesIndex >= lastLayerStart {
      node := leaf;
    } else {
      ChildrenAt(upper, lower, i);
      var left := if nodesIndex > 0 then layerStart + 2 * i + PaddedSize(size) else 1;
      node := f(nodes[left], nodes[left + 1]);
    }
  }

  method StoreNode(nodes: seq<Hash>, layerStart: nat, size: nat, i: nat, node: Hash) returns (written: seq<Hash>)
    requires i < size && layerStart + PaddedSize(size) <= |nodes|
    requires if size == 1 then layerStart == 0 else layerStart % 2 == 1
    ensures written == WriteBack(nodes, layerStart, size, i, node)
  {
    var nodesIndex := layerStart + i;
    written := nodes[nodesIndex := node];
    if nodesIndex == layerStart + size - 1 && nodesIndex % 2 == 1 {
      written := written[nodesIndex + 1 := written[nodesIndex]];
    }
  }

  lemma SizesAt(dataSize: seq<nat>, k: nat, n: nat)
    requires n >= 1 && k < |dataSize| && dataSize[k..] == LayerSizes(n)
    ensures dataSize[k] == n && (k + 1 == |dataSize| <==> n == 1)
    ensures n > 1 ==> dataSize[k + 1..] == LayerSizes(AboveSize(n)) && dataSize[k + 1] == AboveSize(n)
    ensures n > 1 ==> (k + 2 == |dataSize| <==> AboveSize(n) == 1)
  {
    if n > 1 {
      SizesAbove(dataSize, k + 1, n);
    }
  }

  /** The tree of `target` is written below a layer; from the layer up, the old tree stands.
      The layer itself is to change from `stale` to `current`, at `i` only. */
  ghost predicate Updating(f: PairHash, nodes: seq<Hash>, start: int, stale: seq<Hash>, current: seq<Hash>, i: nat,
                           lower: seq<Hash>, target: seq<Hash>)
  {
    && target != [] && i < |stale| == |current| && current == stale[i := current[i]]
    && start == TreeSize(|stale|) - PaddedSize(|stale|)
    && nodes == Tree(f, stale) + lower
    && Tree(f, target) == Tree(f, current) + lower
  }

  ghost predicate IsParent(f: PairHash, node: Hash, below: seq<Hash>, i: nat) {
    2 * i + 1 < |below| && node == f(below[2 * i], below[2 * i + 1])
  }

  lemma WriteRoot(f: PairHash, nodes: seq<Hash>, start: int, stale: seq<Hash>, current: seq<Hash>,
                  lower: seq<Hash>, target: seq<Hash>)
    requires Updating(f, nodes, start, stale, current, 0, lower, target) && |stale| == 1
    ensures start == 0 && nodes[0 := current[0]] == Tree(f, target)
  {
    assert nodes == stale + lower && current == [current[0]];
  }

  /** Below the root, writing the changed node leaves the same task one layer up. */
  lemma WriteLayer(f: PairHash, nodes: seq<Hash>, start: nat, stale: seq<Hash>, current: seq<Hash>, i: nat,
                   lower: seq<Hash>, target: seq<Hash>)
    requires Updating(f, nodes, start, stale, current, i, lower, target) && |stale| > 1
    ensures start + PaddedSize(|stale|) <= |nodes| && start % 2 == 1 && i / 2 < AboveSize(|stale|)
    ensures start == TreeSize(AboveSize(|stale|))
    ensures Updating(f, WriteBack(nodes, start, |stale|, i, current[i]), start - PaddedSize(AboveSize(|stale|)),
                     Above(f, stale), Above(f, current), i / 2, Padded(current) + lower, target)
  {
    TreeSizeIsOdd(AboveSize(|stale|));
    var upper := Tree(f, Above(f, stale));
    WriteBackLayer(upper, stale, lower, i, current[i]);
    AboveAfterUpdate(f, stale, i, current[i]);
    Assoc(upper, Padded(current), lower);
    Assoc(Tree(f, Above(f, current)), Padded(current), lower);
  }

  lemma ParentOf(f: PairHash, layer: seq<Hash>, lower: seq<Hash>, i: nat)
    requires |layer| > 1 && i < |layer|
    ensures i / 2 < AboveSize(|layer|) && IsParent(f, Above(f, layer)[i / 2], Padded(layer) + lower, i / 2)
  {
  }

  lemma ChildrenAt(upper: seq<Hash>, lower: seq<Hash>, i: nat)
    requires 2 * i + 1 < |lower|
    ensures (upper + lower)[|upper| + 2 * i] == lower[2 * i]
    ensures (upper + lower)[|upper| + 2 * i + 1] == lower[2 * i + 1]
  {
  }

  /** The loop of `proof`. */
  method CollectSiblings(f: PairHash, nodes: seq<Hash>, dataSize: seq<nat>, index: nat, ghost leaves: seq<Hash>)
    returns (results: seq<Hash>)
    requires |leaves| > 1 && index < |leaves| && dataSize == LayerSizes(|leaves|) && nodes == Tree(f, leaves)
    ensures results == ProofOf(f, leaves, index)
  {
    hide ProofOf, Above, Sibling, LayerStarts, Padded, Tree, TreeSize, LayerSizes;
    results := [];
    var layerStart := |nodes| - PaddedSize(dataSize[0]);
    var layer, i := 0, index;
    ghost var current, lower: seq<Hash>, whole := leaves, [], ProofOf(f, leaves, index);
    StartsAtLeaves(f, nodes, leaves);
    assert [] + whole == whole && dataSize[0..] == dataSize;
    while true
      invariant 1 < |current| && 0 <= i < |current| && LayerStarts(f, nodes, layerStart, current, lower)
      invariant layer < |dataSize| && dataSize[layer..] == LayerSizes(|current|)
      invariant results + ProofOf(f, current, i) == whole
      decreases |dataSize| - layer
    {
      var sibling := SiblingNode(f, nodes, layerStart, i, current, lower);
      OneMoreSibling(f, results, current, i, whole);
      results := results + [sibling];
      layer := layer + 1;
      SizesAbove(dataSize, layer, |current|);
      if layer == |dataSize| - 1 {
        break;
      }
      StartsAbove(f, nodes, layerStart, current, lower);
      layerStart := layerStart - PaddedSize(dataSize[layer]);
      i := i / 2;
      lower := Padded(current) + lower;
      current := Above(f, current);
    }
  }

  method SiblingNode(f: PairHash, nodes: seq<Hash>, layerStart: int, i: nat, ghost current: seq<Hash>, ghost lower: seq<Hash>)
    returns (sibling: Hash)
    requires 1 < |current| && i < |current| && LayerStarts(f, nodes, layerStart, current, lower)
    ensures sibling == Sibling(current, i)
  {
    hide LayerStarts, Sibling;
    var nodesIndex := layerStart + i;
    SiblingAt(f, nodes, layerStart, current, lower, i);
    var siblingIndex := if nodesIndex % 2 == 1 then nodesIndex + 1 else nodesIndex - 1;
    sibling := nodes[siblingIndex];
  }

  /** `layer` lies in `nodes` from `start` on, below its own tree and above `lower`. */
  ghost predicate LayerStarts(f: PairHash, nodes: seq<Hash>, start: int, layer: seq<Hash>, lower: seq<Hash>) {
    && |layer| > 1
    && start == TreeSize(AboveSize(|layer|))
    && nodes == Tree(f, Above(f, layer)) + Padded(layer) + lower
  }

  lemma StartsAtLeaves(f: PairHash, nodes: seq<Hash>, leaves: seq<Hash>)
    requires |leaves| > 1 && nodes == Tree(f, leaves)
    ensures LayerStarts(f, nodes, |nodes| - PaddedSize(|leaves|), leaves, [])
  {
    assert nodes + [] == nodes;
  }

  lemma StartsAbove(f: PairHash, nodes: seq<Hash>, start: int, layer: seq<Hash>, lower: seq<Hash>)
    requires LayerStarts(f, nodes, start, layer, lower) && AboveSize(|layer|) > 1
    ensures LayerStarts(f, nodes, start - PaddedSize(AboveSize(|layer|)), Above(f, layer), Padded(layer) + lower)
  {
    var up := Above(f, layer);
    Assoc(Tree(f, Above(f, up)) + Padded(up), Padded(layer), lower);
  }

  lemma SiblingAt(f: PairHash, nodes: seq<Hash>, start: int, layer: seq<Hash>, lower: seq<Hash>, i: nat)
    requires LayerStarts(f, nodes, start, layer, lower) && i < |layer|
    ensures (start + i) % 2 == 1 <==> i % 2 == 0
    ensures var k := if i % 2 == 0 then start + i + 1 else start + i - 1;
            0 <= k < |nodes| && nodes[k] == Sibling(layer, i)
  {
    hide Tree, TreeSize, Above;
    TreeSizeIsOdd(AboveSize(|layer|));
    OppositeParity(start, i);
    var j := if i % 2 == 0 then i + 1 else i - 1;
    MiddleAt(Tree(f, Above(f, layer)), Padded(layer), lower, j);
    assert Padded(layer)[j] == Sibling(layer, i);
  }

  lemma OppositeParity(start: nat, i: nat)
    requires start % 2 == 1
    ensures (start + i) % 2 == 1 <==> i % 2 == 0
  {
  }

  lemma SizesAbove(dataSize: seq<nat>, k: nat, n: nat)
    requires n > 1 && 1 <= k <= |dataSize|
    requires dataSize[k - 1..] == LayerSizes(n)
    ensures k < |dataSize| && dataSize[k..] == LayerSizes(AboveSize(n)) && dataSize[k] == AboveSize(n)
    ensures k == |dataSize| - 1 <==> AboveSize(n) == 1
  {
    assert dataSize[k - 1..][1..] == dataSize[k..];
  }

  lemma OneMoreSibling(f: PairHash, results: seq<Hash>, layer: seq<Hash>, i: nat, whole: seq<Hash>)
    requires |layer| > 1 && i < |layer| && results + ProofOf(f, layer, i) == whole
    ensures results + [Sibling(layer, i)] + ProofOf(f, Above(f, layer), i / 2) == whole
    ensures AboveSize(|layer|) == 1 ==> results + [Sibling(layer, i)] == whole
  {
    Assoc(results, [Sibling(layer, i)], ProofOf(f, Above(f, layer), i / 2));
  }

  /** `verify`. */
  method Verify(f: PairHash, root: Hash, data: Hash, proof: seq<Hash>, index: nat, leafSize: nat) returns (ok: bool)
    ensures ok <==> Accepts(f, root, data, proof, index, leafSize)
  {
    if index >= leafSize {
      return false;
    }
    var layerSize, _ := LayerTable(leafSize);
    if |layerSize| != |proof| + 1 {
      return false;
    }
    var layerStart := Total(layerSize[1..]);
    var i: nat, acc: Hash := index, data;
    ghost var size := leafSize;
    SumOfPaddedSizes(leafSize);
    assert layerSize[0..] == layerSize && proof[0..] == proof;
    for layer := 0 to |proof|
      invariant 0 <= i < size && layerSize[layer..] == PaddedSizes(size)
      invariant layerStart == Sum(layerSize[layer + 1..])
      invariant Climb(f, acc, proof[layer..], i) == Climb(f, data, proof, index)
    {
      ParityBelowRoot(layerSize, layer, size, layerStart, i);
      var nodesIndex := layerStart + i;
      assert nodesIndex != 0;  // the early exit of the source is never taken
      ClimbOne(f, acc, proof, layer, i);
      acc := if nodesIndex % 2 == 1 then f(acc, proof[layer]) else f(proof[layer], acc);
      layerStart := layerStart - layerSize[layer + 1];
      i := i / 2;
      size := AboveSize(size);
    }
    ok := acc == root;
  }

  lemma ClimbOne(f: PairHash, acc: Hash, proof: seq<Hash>, layer: nat, i: nat)
    requires layer < |proof|
    ensures Climb(f, acc, proof[layer..], i) == Climb(f, Join(f, acc, proof[layer], i), proof[layer + 1..], i / 2)
  {
    assert proof[layer..][1..] == proof[layer + 1..];
  }

  lemma ParityBelowRoot(layerSize: seq<nat>, layer: nat, size: nat, layerStart: int, i: nat)
    requires i < size && layer + 1 < |layerSize| && layerSize[layer..] == PaddedSizes(size)
    requires layerStart == Sum(layerSize[layer + 1..])
    ensures size > 1 && layerStart >= 1 && ((layerStart + i) % 2 == 1 <==> i % 2 == 0)
    ensures layerSize[layer + 1..] == PaddedSizes(AboveSize(size))
    ensures layerStart - layerSize[layer + 1] == Sum(layerSize[layer + 2..])
    ensures i / 2 < AboveSize(size)
  {
    assert layerSize[layer..][1..] == layerSize[layer + 1..];
    assert layerSize[layer + 1..][1..] == layerSize[layer + 2..];
    SumOfPaddedSizes(AboveSize(size));
    TreeSizeIsOdd(AboveSize(size));
    OppositeParity(layerStart, i);
  }
}
