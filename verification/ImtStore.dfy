/** The in-place engine of the indexed Merkle tree: a vector of leaves and one sparse table of
    digests per level, in which an absent entry stands for the digest of an empty subtree. */
module ImtStore {
  import opened Merkle
  import opened Wrappers
  import opened Imt
  import opened Field

  type Table = map<nat, Digest>

  /** Table lookup with the empty-subtree default. */
  function Get(tree: seq<Table>, empties: seq<Digest>, level: nat, i: nat): Digest
    requires level < |tree| && level < |empties|
  {
    if i in tree[level] then tree[level][i] else empties[level]
  }

  function Put(tree: seq<Table>, level: nat, i: nat, d: Digest): seq<Table>
    requires level < |tree|
  {
    var table: Table := tree[level][i := d];
    tree[level := table]
  }

  ghost predicate Shaped(p: Params, tree: seq<Table>, empties: seq<Digest>) {
    && |tree| == p.depth + 1 && |empties| == p.depth + 1
    && forall l :: 0 <= l <= p.depth ==> empties[l] == Empty(p.node, EmptyLeaf(p), l)
  }

  ghost predicate LevelHolds(p: Params, tree: seq<Table>, empties: seq<Digest>, s: seq<Digest>, level: nat)
    requires level < |tree| && level < |empties|
  {
    forall i: nat :: Get(tree, empties, level, i) == Node(p.node, EmptyLeaf(p), s, level, i)
  }

  /** The sparse tables are the full padded Merkle tree over `s`, at every level and every index. */
  ghost predicate Represents(p: Params, tree: seq<Table>, empties: seq<Digest>, s: seq<Digest>) {
    && Shaped(p, tree, empties)
    && forall l :: 0 <= l <= p.depth ==> LevelHolds(p, tree, empties, s, l)
  }

  /** One level of `set_leaf_hash`: writing the parent repairs the whole level above. */
  lemma LevelRepaired(p: Params, tree: seq<Table>, next: seq<Table>, empties: seq<Digest>,
                      s: seq<Digest>, t: seq<Digest>, i: nat, level: nat)
    requires Shaped(p, tree, empties) && level < p.depth && AgreeOff(EmptyLeaf(p), s, t, i)
    requires LevelHolds(p, tree, empties, t, level) && LevelHolds(p, tree, empties, s, level + 1)
    requires var j := Anc(i, level) / 2;
             next == Put(tree, level + 1, j,
                         p.node(Get(tree, empties, level, 2 * j), Get(tree, empties, level, 2 * j + 1)))
    ensures LevelHolds(p, next, empties, t, level + 1)
    ensures Shaped(p, next, empties)
  {
    var z, j, above := EmptyLeaf(p), Anc(i, level + 1), level + 1;
    forall k: nat ensures Get(next, empties, above, k) == Node(p.node, z, t, above, k) {
      if k != j {
        NodeAgree(p.node, z, s, t, i, above, k);
        assert Get(next, empties, above, k) == Get(tree, empties, above, k);
      } else {
        assert Get(tree, empties, level, 2 * j) == Node(p.node, z, t, level, 2 * j);
        assert Get(tree, empties, level, 2 * j + 1) == Node(p.node, z, t, level, 2 * j + 1);
      }
    }
  }

  lemma LeafWritten(p: Params, tree: seq<Table>, empties: seq<Digest>, s: seq<Digest>, t: seq<Digest>, i: nat)
    requires Shaped(p, tree, empties) && LevelHolds(p, tree, empties, s, 0)
    requires AgreeOff(EmptyLeaf(p), s, t, i)
    ensures LevelHolds(p, Put(tree, 0, i, LeafAt(EmptyLeaf(p), t, i)), empties, t, 0)
  {
    var next, level := Put(tree, 0, i, LeafAt(EmptyLeaf(p), t, i)), 0;
    forall k: nat ensures Get(next, empties, level, k) == Node(p.node, EmptyLeaf(p), t, level, k) {
      assert Get(tree, empties, level, k) == Node(p.node, EmptyLeaf(p), s, level, k);
    }
  }

  lemma LevelUntouched(p: Params, tree: seq<Table>, empties: seq<Digest>, s: seq<Digest>,
                       level: nat, i: nat, d: Digest, other: nat)
    requires Shaped(p, tree, empties) && level <= p.depth && other <= p.depth && other != level
    requires LevelHolds(p, tree, empties, s, other)
    ensures LevelHolds(p, Put(tree, level, i, d), empties, s, other)
  {
    var next := Put(tree, level, i, d);
    forall k: nat ensures Get(next, empties, other, k) == Node(p.node, EmptyLeaf(p), s, other, k) {
      assert Get(next, empties, other, k) == Get(tree, empties, other, k);
    }
  }

  datatype Membership = Membership(leaf: Leaf, index: nat, siblings: seq<Digest>, bits: seq<bool>)

  method EmptySubtrees(p: Params) returns (levels: seq<Digest>)
    ensures |levels| == p.depth + 1
    ensures forall l :: 0 <= l <= p.depth ==> levels[l] == Empty(p.node, EmptyLeaf(p), l)
  {
    levels := [p.leaf(0, 0, 0)];
    for i := 1 to p.depth + 1
      invariant |levels| == i
      invariant forall l :: 0 <= l < i ==> levels[l] == Empty(p.node, EmptyLeaf(p), l)
    {
      levels := levels + [p.node(levels[i - 1], levels[i - 1])];
    }
  }

  class IndexedMerkleTree {
    const p: Params
    var leaves: seq<Leaf>
    var tree: seq<Table>
    var emptySubtree: seq<Digest>

    ghost predicate Valid()
      reads this
    {
      && Sorted(leaves) && |leaves| <= Pow2(p.depth)
      && Represents(p, tree, emptySubtree, Digests(p, leaves))
    }

    constructor (p: Params)
      ensures Valid() && this.p == p && leaves == [ZERO]
    {
      var levels := EmptySubtrees(p);
      this.p := p;
      leaves := [ZERO];
      emptySubtree := levels;
      tree := seq(p.depth + 1, i => map[]);
      new;
      EmptyIsSorted();
      forall l, i: nat | 0 <= l <= p.depth
        ensures Get(tree, emptySubtree, l, i) == Node(p.node, EmptyLeaf(p), [], l, i)
      {
        NodeOfNothing(p.node, EmptyLeaf(p), [], l, i);
      }
      SetLeafHash(0, HashOf(p, ZERO), [], Digests(p, leaves));
    }

    method SetLeafHash(i: nat, d: Digest, ghost s: seq<Digest>, ghost t: seq<Digest>)
      requires Represents(p, tree, emptySubtree, s)
      requires AgreeOff(EmptyLeaf(p), s, t, i) && LeafAt(EmptyLeaf(p), t, i) == d
      modifies this`tree
      ensures Represents(p, tree, emptySubtree, t)
    {
      LeafWritten(p, tree, emptySubtree, s, t, i);
      forall l | 1 <= l <= p.depth
        ensures LevelHolds(p, Put(tree, 0, i, d), emptySubtree, s, l)
      {
        LevelUntouched(p, tree, emptySubtree, s, 0, i, d, l);
      }
      tree := Put(tree, 0, i, d);
      var idx := i;
      for level := 0 to p.depth
        invariant Shaped(p, tree, emptySubtree) && idx == Anc(i, level)
        invariant forall l :: 0 <= l <= level ==> LevelHolds(p, tree, emptySubtree, t, l)
        invariant forall l :: level < l <= p.depth ==> LevelHolds(p, tree, emptySubtree, s, l)
      {
        var me := Get(tree, emptySubtree, level, idx);
        var sib := Get(tree, emptySubtree, level, Sib(idx));
        var left, right := me, sib;
        if idx % 2 != 0 {
          left, right := sib, me;
        }
        var parentIdx := idx / 2;
        var parent := p.node(left, right);
        ghost var before := tree;
        tree := Put(tree, level + 1, parentIdx, parent);
        LevelRepaired(p, before, tree, emptySubtree, s, t, i, level);
        forall l | 0 <= l <= level
          ensures LevelHolds(p, tree, emptySubtree, t, l)
        {
          LevelUntouched(p, before, emptySubtree, t, level + 1, parentIdx, parent, l);
        }
        forall l | level + 1 < l <= p.depth
          ensures LevelHolds(p, tree, emptySubtree, s, l)
        {
          LevelUntouched(p, before, emptySubtree, s, level + 1, parentIdx, parent, l);
        }
        idx := parentIdx;
      }
    }

    method RootFr() returns (r: Digest)
      requires Valid()
      ensures r == RootOf(p, leaves)
    {
      assert LevelHolds(p, tree, emptySubtree, Digests(p, leaves), p.depth);
      r := Get(tree, emptySubtree, p.depth, 0);
    }

    method PathFor(i: nat) returns (siblings: seq<Digest>, bits: seq<bool>)
      requires Valid()
      ensures siblings == PathOf(p, leaves, i) && bits == Bits(i, p.depth)
    {
      siblings, bits := [], [];
      var idx := i;
      ghost var s := Digests(p, leaves);
      for level := 0 to p.depth
        invariant idx == Anc(i, level) && |siblings| == level
        invariant Collected(p.node, EmptyLeaf(p), s, i, siblings, bits)
      {
        assert LevelHolds(p, tree, emptySubtree, s, level);
        siblings := siblings + [Get(tree, emptySubtree, level, Sib(idx))];
        bits := bits + [idx % 2 == 1];
        idx := idx / 2;
      }
      CollectedIsPath(p.node, EmptyLeaf(p), s, i, siblings, bits);
    }

    method FindLowLeafIndex(target: nat) returns (r: Result<nat, Error>)
      ensures r == FindLow(leaves, target)
    {
      var low: Option<nat> := None;
      for i := 0 to |leaves|
        invariant !Has(leaves[..i], target) && low == LastLow(leaves[..i], target)
      {
        var leaf := leaves[i];
        if leaf.value == target {
          return Err(DuplicateInsertion);
        }
        assert leaves[..i + 1][..i] == leaves[..i];
        if IsLow(leaf, target) {
          low := Some(i);
        }
      }
      assert leaves[..|leaves|] == leaves;
      match low
      case None => r := Err(NoLowLeaf);
      case Some(i) => r := Ok(i);
    }

    /** Answers exactly when the value is present, with a proof against the current root. */
    method QueryMembership(value: Bytes32) returns (r: Option<Membership>)
      requires Valid()
      ensures r.Some? <==> Has(leaves, FromBe(value))
      ensures r.Some? ==>
              && r.value.leaf.value == FromBe(value) && r.value.bits == Bits(r.value.index, p.depth)
              && r.value.index < |leaves| && leaves[r.value.index] == r.value.leaf
              && Verifies(p, r.value.leaf, r.value.index, r.value.siblings, RootOf(p, leaves))
    {
      var v := FromBe(value);
      for i := 0 to |leaves|
        invariant forall k :: 0 <= k < i ==> leaves[k].value != v
      {
        if leaves[i].value == v {
          var siblings, bits := PathFor(i);
          OwnPathVerifies(p, leaves, i);
          return Some(Membership(leaves[i], i, siblings, bits));
        }
      }
      return None;
    }

    /** Answers exactly when the value is absent, with its one bracketing leaf. */
    method QueryNonMembership(value: Bytes32) returns (r: Option<Membership>)
      requires Valid()
      ensures r.Some? <==> !Has(leaves, FromBe(value))
      ensures r.Some? ==>
              && IsLow(r.value.leaf, FromBe(value)) && r.value.bits == Bits(r.value.index, p.depth)
              && r.value.index < |leaves| && leaves[r.value.index] == r.value.leaf
              && (forall k :: 0 <= k < |leaves| && IsLow(leaves[k], FromBe(value)) ==> k == r.value.index)
              && Verifies(p, r.value.leaf, r.value.index, r.value.siblings, RootOf(p, leaves))
    {
      var v := FromBe(value);
      LowIffAbsent(leaves, v);
      var low: Option<(nat, Leaf)> := None;
      for i := 0 to |leaves|
        invariant forall k :: 0 <= k < i ==> leaves[k].value != v
        invariant low.Some? ==> low.value.0 < i && leaves[low.value.0] == low.value.1 && IsLow(low.value.1, v)
        invariant low.None? ==> forall k :: 0 <= k < i ==> !IsLow(leaves[k], v)
      {
        if leaves[i].value == v {
          return None;
        }
        if IsLow(leaves[i], v) {
          low := Some((i, leaves[i]));
        }
      }
      match low
      case None => return None;
      case Some((i, leaf)) =>
        var siblings, bits := PathFor(i);
        OwnPathVerifies(p, leaves, i);
        forall k | 0 <= k < |leaves| && IsLow(leaves[k], v) ensures k == i {
          LowIsUnique(leaves, v, i, k);
        }
        return Some(Membership(leaf, i, siblings, bits));
    }

    /** Inserts in place; the witness is a two-step update proof from the old root to the new one. */
    method InsertValue(value: Bytes32) returns (r: Result<InsertWitness, Error>)
      requires Valid()
      modifies this`leaves, this`tree
      ensures Valid()
      ensures match Insert(p, old(leaves), FromBe(value))
              case Err(e) => r == Err(e) && leaves == old(leaves) && tree == old(tree)
              case Ok(t) =>
                && leaves == t && r.Ok?
                && r.value.newRoot == RootOf(p, t) && r.value.newIndex == |old(leaves)|
                && r.value.lowIndex < |old(leaves)|
                && r.value == WitnessFor(p, old(leaves), FromBe(value))
                && UpdateProof(p, RootOf(p, old(leaves)), FromBe(value), r.value)
    {
      var v := FromBe(value);
      if |leaves| >= Pow2(p.depth) {
        return Err(CapacityExhausted);
      }
      var found := FindLowLeafIndex(v);
      LastLowIsLow(leaves, v);
      match found {
        case Err(e) => return Err(e);
        case Ok(low) =>
          InsertKeepsSorted(p, leaves, v);
          WitnessIsUpdateProof(p, leaves, low, v);
          LinkedDigests(p, leaves, low, v);
          ghost var s := leaves;
          var lowBefore, newIndex := leaves[low], |leaves|;
          var lowPath, _ := PathFor(low);
          var lowAfter := Leaf(lowBefore.value, newIndex, v);
          var newLeaf := Leaf(v, lowBefore.nextIndex, lowBefore.nextValue);
          leaves := leaves[low := lowAfter];
          SetLeafHash(low, HashOf(p, lowAfter), Digests(p, s), Digests(p, Linked(s, low, v)));
          leaves := leaves + [newLeaf];
          SetLeafHash(newIndex, HashOf(p, newLeaf), Digests(p, Linked(s, low, v)), Digests(p, Spliced(s, low, v)));
          assert leaves == Spliced(s, low, v);
          var newPath, _ := PathFor(newIndex);
          var newRoot := RootFr();
          var w := InsertWitness(lowBefore, lowAfter, low, lowPath, newLeaf, newIndex, newPath, newRoot);
          assert w == WitnessOf(p, s, low, v);
          return Ok(w);
      }
    }
  }
}
