/** `BlockBuffer`, src/network/buffer.rs: blocks that wait for the blocks they refer to. */
module Buffer {
  import opened Prelude
  import opened Blocks

  /** `dependent` is the inverse of `dependency`. */
  ghost predicate Inverse(dependency: map<Hash, set<Hash>>, dependent: map<Hash, set<Hash>>) {
    forall d: Hash, h: Hash :: Waits(dependent, d, h) <==> Waits(dependency, h, d)
  }

  ghost predicate Waits(m: map<Hash, set<Hash>>, from: Hash, to: Hash) {
    from in m && to in m[from]
  }

  /** The buffered blocks are those with an entry in `dependency`. */
  ghost predicate Keyed(blocks: map<Hash, Block>, dependency: map<Hash, set<Hash>>) {
    blocks.Keys == dependency.Keys && forall h | h in blocks :: blocks[h].hash == h
  }

  /** The blocks that wait for nothing but `d`. */
  ghost function Freed(dependency: map<Hash, set<Hash>>, d: Hash): set<Hash> {
    set h | h in dependency && d in dependency[h] && dependency[h] - {d} == {}
  }

  /** The dependencies once `d` is there. */
  ghost function Without(dependency: map<Hash, set<Hash>>, d: Hash): map<Hash, set<Hash>> {
    map h | h in dependency && h !in Freed(dependency, d) :: dependency[h] - {d}
  }

  /** The same after only the dependents in `done` were looked at. */
  ghost predicate PartlyWithout(before: map<Hash, set<Hash>>, after: map<Hash, set<Hash>>, d: Hash, done: set<Hash>) {
    && (forall h | h in after :: h in before && after[h] == if h in done then before[h] - {d} else before[h])
    && forall h | h in before :: h in after <==> !(h in done && h in Freed(before, d))
  }

  /** `list` holds the blocks of `hashes`, each once. */
  ghost predicate Lists(list: seq<Block>, hashes: set<Hash>, blocks: map<Hash, Block>) {
    && NoDup(list) && hashes <= blocks.Keys
    && forall b: Block :: b in list <==> b.hash in hashes && blocks[b.hash] == b
  }

  class BlockBuffer {
    var blocks: map<Hash, Block>
    var dependency: map<Hash, set<Hash>>
    var dependent: map<Hash, set<Hash>>

    ghost predicate Valid()
      reads this
    {
      Keyed(blocks, dependency) && Inverse(dependency, dependent)
    }

    constructor ()
      ensures Valid() && blocks == map[]
    {
      blocks, dependency, dependent := map[], map[], map[];
    }

    /** `insert`: buffer a block that is not buffered yet. */
    method Insert(b: Block, dependencies: seq<Hash>)
      requires Valid() && b.hash !in blocks
      modifies this
      ensures Valid()
      ensures blocks == old(blocks)[b.hash := b]
      ensures dependency == old(dependency)[b.hash := Elements(dependencies)]
    {
      hide Elements;
      var needs, inverse := Register(dependent, dependency, b.hash, dependencies);
      blocks, dependency, dependent := blocks[b.hash := b], dependency[b.hash := needs], inverse;
    }

    /** `satisfy`: no block waits for `d` any more. Every block that waited for nothing else
        leaves the buffer. */
    method Satisfy(d: Hash) returns (resolved: seq<Block>)
      requires Valid()
      modifies this
      ensures Valid() && d !in dependent
      ensures Lists(resolved, Freed(old(dependency), d), old(blocks))
      ensures dependency == Without(old(dependency), d)
      ensures blocks == old(blocks) - Freed(old(dependency), d)
    {
      hide Inverse, Lists, PartlyWithout, Freed;
      resolved := [];
      ghost var before, buffered, inverse := dependency, blocks, dependent;
      if d in dependent {
        var rest := dependent[d];
        dependent := dependent - {d};
        ghost var done := {};
        NothingDone(before, d, buffered);
        assert buffered - {} == buffered;
        while rest != {}
          invariant done + rest == inverse[d] && done !! rest
          invariant PartlyWithout(before, dependency, d, done)
          invariant Lists(resolved, done * Freed(before, d), buffered)
          invariant blocks == buffered - done * Freed(before, d) && dependent == inverse - {d}
          decreases rest
        {
          var node :| node in rest;
          IsWaiting(before, inverse, dependency, buffered, d, node, done);
          var needs := dependency[node] - {d};
          if needs == {} {
            FreeOne(before, dependency, d, done, node, buffered, resolved);
            dependency := dependency - {node};
            resolved := resolved + [blocks[node]];
            blocks := blocks - {node};
          } else {
            KeepOne(before, dependency, d, done, node);
            dependency := dependency[node := needs];
          }
          rest, done := rest - {node}, done + {node};
        }
      } else {
        NothingDone(before, d, buffered);
      }
      AllDone(before, inverse, dependency, d, buffered);
    }
  }

  /** The loop of `insert`. */
  method Register(dependent: map<Hash, set<Hash>>, ghost dependency: map<Hash, set<Hash>>, h: Hash, dependencies: seq<Hash>)
    returns (needs: set<Hash>, inverse: map<Hash, set<Hash>>)
    requires Inverse(dependency, dependent) && h !in dependency
    ensures needs == Elements(dependencies)
    ensures Inverse(dependency[h := needs], inverse)
  {
    needs, inverse := {}, dependent;
    hide Inverse;
    assert dependencies[..0] == [];
    StartRegister(dependency, dependent, h);
    for i := 0 to |dependencies|
      invariant needs == Elements(dependencies[..i])
      invariant Inverse(dependency[h := needs], inverse)
    {
      var d := dependencies[i];
      assert dependencies[..i + 1] == dependencies[..i] + [d];
      ElementsConcat(dependencies[..i], [d]);
      assert Elements([d]) == {d};
      RegisterOne(dependency, inverse, h, needs, d);
      needs := needs + {d};
      inverse := inverse[d := (if d in inverse then inverse[d] else {}) + {h}];
    }
    assert dependencies[..|dependencies|] == dependencies;
  }

  lemma StartRegister(dependency: map<Hash, set<Hash>>, inverse: map<Hash, set<Hash>>, h: Hash)
    requires Inverse(dependency, inverse) && h !in dependency
    ensures Inverse(dependency[h := {}], inverse)
  {
    forall d: Hash, x: Hash
      ensures Waits(inverse, d, x) <==> Waits(dependency[h := {}], x, d)
    {
      assert Waits(inverse, d, x) <==> Waits(dependency, x, d);
    }
  }

  lemma RegisterOne(dependency: map<Hash, set<Hash>>, inverse: map<Hash, set<Hash>>, h: Hash, needs: set<Hash>, d: Hash)
    requires Inverse(dependency[h := needs], inverse)
    ensures Inverse(dependency[h := needs + {d}], inverse[d := (if d in inverse then inverse[d] else {}) + {h}])
  {
    var inverse' := inverse[d := (if d in inverse then inverse[d] else {}) + {h}];
    forall e: Hash, x: Hash
      ensures Waits(inverse', e, x) <==> Waits(dependency[h := needs + {d}], x, e)
    {
      assert Waits(inverse, e, x) <==> Waits(dependency[h := needs], x, e);
    }
  }

  lemma NothingDone(before: map<Hash, set<Hash>>, d: Hash, blocks: map<Hash, Block>)
    ensures PartlyWithout(before, before, d, {}) && {} * Freed(before, d) == {}
    ensures Lists([], {}, blocks)
  {
  }

  /** No unwrap of `satisfy` fails: a dependent still has its entry and its block. */
  lemma IsWaiting(before: map<Hash, set<Hash>>, inverse: map<Hash, set<Hash>>, now: map<Hash, set<Hash>>, blocks: map<Hash, Block>,
                  d: Hash, node: Hash, done: set<Hash>)
    requires Inverse(before, inverse) && Keyed(blocks, before) && PartlyWithout(before, now, d, done)
    requires d in inverse && node in inverse[d] && node !in done
    ensures node in before && node in now && now[node] == before[node] && d in before[node]
    ensures node in blocks && blocks[node].hash == node && node in blocks - done * Freed(before, d)
    ensures node in Freed(before, d) <==> now[node] - {d} == {}
  {
    assert Waits(inverse, d, node);
    assert Waits(before, node, d);
  }

  lemma FreeOne(before: map<Hash, set<Hash>>, now: map<Hash, set<Hash>>, d: Hash, done: set<Hash>, node: Hash,
                blocks: map<Hash, Block>, resolved: seq<Block>)
    requires PartlyWithout(before, now, d, done) && node in now && node !in done && node in Freed(before, d)
    requires Lists(resolved, done * Freed(before, d), blocks) && node in blocks && blocks[node].hash == node
    ensures PartlyWithout(before, now - {node}, d, done + {node})
    ensures (done + {node}) * Freed(before, d) == done * Freed(before, d) + {node}
    ensures Lists(resolved + [blocks[node]], (done + {node}) * Freed(before, d), blocks)
  {
    hide Freed;
    var hashes, b := done * Freed(before, d), blocks[node];
    assert (done + {node}) * Freed(before, d) == hashes + {node};
    assert b !in resolved;
    NoDupConcat(resolved, [b]);
    forall x: Block
      ensures x in resolved + [b] <==> x.hash in hashes + {node} && blocks[x.hash] == x
    {
      assert x in resolved <==> x.hash in hashes && blocks[x.hash] == x;
    }
  }

  lemma KeepOne(before: map<Hash, set<Hash>>, now: map<Hash, set<Hash>>, d: Hash, done: set<Hash>, node: Hash)
    requires PartlyWithout(before, now, d, done) && node in now && node !in done && node !in Freed(before, d)
    ensures PartlyWithout(before, now[node := now[node] - {d}], d, done + {node})
    ensures (done + {node}) * Freed(before, d) == done * Freed(before, d)
  {
  }

  lemma AllDone(before: map<Hash, set<Hash>>, inverse: map<Hash, set<Hash>>, now: map<Hash, set<Hash>>, d: Hash, blocks: map<Hash, Block>)
    requires Inverse(before, inverse) && Keyed(blocks, before)
    requires PartlyWithout(before, now, d, if d in inverse then inverse[d] else {})
    ensures (if d in inverse then inverse[d] else {}) * Freed(before, d) == Freed(before, d)
    ensures now == Without(before, d) && Inverse(now, inverse - {d}) && Keyed(blocks - Freed(before, d), now)
  {
    var all := if d in inverse then inverse[d] else {};
    forall h: Hash
      ensures h in all <==> h in before && d in before[h]
    {
      assert Waits(inverse, d, h) <==> Waits(before, h, d);
    }
    forall h | h in now
      ensures now[h] == before[h] - {d}
    {
      assert h !in all ==> before[h] - {d} == before[h];
    }
    forall e: Hash, x: Hash
      ensures Waits(inverse - {d}, e, x) <==> Waits(now, x, e)
    {
      assert Waits(inverse, e, x) <==> Waits(before, x, e);
    }
  }
}
