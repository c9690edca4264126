/** The forward-secure ratchet tree: a sparse root builder, a path builder and a binary-counter
    frontier over one zero-padded tree, and the signer state that wipes what it has signed with. */
module Fsrt {
  import opened Merkle

  /** Node hash, PRG step (value of the slot, next seed) and tree depth. */
  datatype Chain = Chain(depth: nat, node: (Digest, Digest) -> Digest, prg: Digest -> (Digest, Digest))

  const ZERO_VALUE: Digest := 0

  /** The root of the zero-padded tree: what every construction below must agree with. */
  function ChainRoot(c: Chain, vs: seq<Digest>): Digest {
    Node(c.node, ZERO_VALUE, vs, c.depth, 0)
  }

  function EmptyAt(c: Chain, level: nat): Digest {
    Empty(c.node, ZERO_VALUE, level)
  }

  // ----- expansion -----

  function SeedAt(c: Chain, s0: Digest, i: nat): Digest {
    if i == 0 then s0 else c.prg(SeedAt(c, s0, i - 1)).1
  }

  function Seeds(c: Chain, s0: Digest, n: nat): (r: seq<Digest>)
    ensures |r| == n
  {
    seq(n, i requires i >= 0 => SeedAt(c, s0, i))
  }

  function Values(c: Chain, s0: Digest, n: nat): (r: seq<Digest>)
    ensures |r| == n
  {
    seq(n, i requires i >= 0 => c.prg(SeedAt(c, s0, i)).0)
  }

  method ExpandChain(c: Chain, s0: Digest, n: nat) returns (values: seq<Digest>, seeds: seq<Digest>)
    ensures values == Values(c, s0, n) && seeds == Seeds(c, s0, n)
    ensures n > 0 ==> seeds[0] == s0
    ensures forall i :: 0 <= i < n ==> values[i] == c.prg(seeds[i]).0
    ensures forall i :: 0 <= i < n - 1 ==> seeds[i + 1] == c.prg(seeds[i]).1
  {
    values, seeds := [], [];
    var s := s0;
    for i := 0 to n
      invariant s == SeedAt(c, s0, i)
      invariant values == Values(c, s0, i) && seeds == Seeds(c, s0, i)
    {
      seeds := seeds + [s];
      var (v, next) := c.prg(s);
      values := values + [v];
      s := next;
    }
  }

  // ----- layers -----

  /** `layer` is one level of the padded tree, cut off where only empty subtrees follow. */
  ghost predicate Layer(c: Chain, vs: seq<Digest>, level: nat, layer: seq<Digest>) {
    && (forall i :: 0 <= i < |layer| ==> layer[i] == Node(c.node, ZERO_VALUE, vs, level, i))
    && (forall i: nat :: i >= |layer| ==> Node(c.node, ZERO_VALUE, vs, level, i) == EmptyAt(c, level))
  }

  method NextLayer(c: Chain, layer: seq<Digest>, ghost vs: seq<Digest>, ghost level: nat) returns (next: seq<Digest>)
    requires Layer(c, vs, level, layer) && |layer| % 2 == 0
    ensures Layer(c, vs, level + 1, next) && |next| == |layer| / 2
  {
    next := [];
    for i := 0 to |layer| / 2
      invariant |next| == i
      invariant forall k :: 0 <= k < i ==> next[k] == Node(c.node, ZERO_VALUE, vs, level + 1, k)
    {
      next := next + [c.node(layer[2 * i], layer[2 * i + 1])];
    }
    ghost var above := level + 1;
    forall i: nat | i >= |next| ensures Node(c.node, ZERO_VALUE, vs, above, i) == EmptyAt(c, above) {
      assert Node(c.node, ZERO_VALUE, vs, level, 2 * i) == Node(c.node, ZERO_VALUE, vs, level, 2 * i + 1)
        == EmptyAt(c, level);
    }
  }

  method EmptySubtrees(c: Chain) returns (levels: seq<Digest>)
    ensures |levels| == c.depth + 1 && forall l :: 0 <= l <= c.depth ==> levels[l] == EmptyAt(c, l)
  {
    levels := [ZERO_VALUE];
    for i := 1 to c.depth + 1
      invariant |levels| == i && forall l :: 0 <= l < i ==> levels[l] == EmptyAt(c, l)
    {
      levels := levels + [c.node(levels[i - 1], levels[i - 1])];
    }
  }

  /** Above a single node, every sibling is an empty subtree. */
  lemma {:induction false} AboveSingle(c: Chain, vs: seq<Digest>, layer: seq<Digest>, level: nat, k: nat)
    requires Layer(c, vs, level, layer) && |layer| <= 1
    ensures Node(c.node, ZERO_VALUE, vs, level + k, 1) == EmptyAt(c, level + k)
    ensures Node(c.node, ZERO_VALUE, vs, level + k + 1, 0)
         == c.node(Node(c.node, ZERO_VALUE, vs, level + k, 0), EmptyAt(c, level + k))
  {
    if k == 0 {
      assert Node(c.node, ZERO_VALUE, vs, level, 1) == EmptyAt(c, level);
    } else {
      EmptyFrom(c, vs, layer, level, k, 1);
    }
  }

  lemma {:induction false} EmptyFrom(c: Chain, vs: seq<Digest>, layer: seq<Digest>, level: nat, k: nat, i: nat)
    requires Layer(c, vs, level, layer) && |layer| <= 1 && i >= 1
    ensures Node(c.node, ZERO_VALUE, vs, level + k, i) == EmptyAt(c, level + k)
    decreases k
  {
    if k != 0 {
      EmptyFrom(c, vs, layer, level, k - 1, 2 * i);
      EmptyFrom(c, vs, layer, level, k - 1, 2 * i + 1);
    }
  }

  /** The sparse builder computes the root of the full padded tree, for every list of values. */
  method ComputeChainRoot(c: Chain, vs: seq<Digest>) returns (root: Digest)
    ensures root == ChainRoot(c, vs)
  {
    var empty := EmptySubtrees(c);
    if |vs| == 0 {
      NodeOfNothing(c.node, ZERO_VALUE, vs, c.depth, 0);
      return empty[c.depth];
    }
    var layer, level := vs, 0;
    while level < c.depth
      invariant level <= c.depth && |layer| >= 1 && Layer(c, vs, level, layer)
    {
      if |layer| == 1 {
        root := layer[0];
        for k := 0 to c.depth - level
          invariant root == Node(c.node, ZERO_VALUE, vs, level + k, 0)
        {
          AboveSingle(c, vs, layer, level, k);
          root := c.node(root, empty[level + k]);
        }
        return;
      }
      if |layer| % 2 != 0 {
        layer := layer + [empty[level]];
      }
      layer := NextLayer(c, layer, vs, level);
      level := level + 1;
    }
    return layer[0];
  }

  /** The upper end of a path, once the layer has shrunk to one node. */
  method EmptyTail(c: Chain, empty: seq<Digest>, ghost vs: seq<Digest>, ghost layer: seq<Digest>,
                   ghost index: nat, below: seq<Digest>, belowIndices: seq<bool>)
    returns (siblings: seq<Digest>, indices: seq<bool>)
    requires |below| <= c.depth && Layer(c, vs, |below|, layer) && |layer| <= 1
    requires |empty| == c.depth + 1 && forall l :: 0 <= l <= c.depth ==> empty[l] == EmptyAt(c, l)
    ensures Anc(index, |below|) == 0 && Collected(c.node, ZERO_VALUE, vs, index, below, belowIndices) ==>
            |siblings| == c.depth && Collected(c.node, ZERO_VALUE, vs, index, siblings, indices)
  {
    siblings, indices := below, belowIndices;
    ghost var genuine := Anc(index, |below|) == 0 && Collected(c.node, ZERO_VALUE, vs, index, below, belowIndices);
    for k := |below| to c.depth
      invariant |siblings| == k
      invariant genuine ==> Anc(index, k) == 0 && Collected(c.node, ZERO_VALUE, vs, index, siblings, indices)
    {
      AboveSingle(c, vs, layer, |below|, k - |below|);
      if genuine {
        CollectedNext(c.node, ZERO_VALUE, vs, index, siblings, indices, empty[k]);
      }
      siblings, indices := siblings + [empty[k]], indices + [false];
    }
  }

  /** The path builder agrees with the padded tree at every index in range. */
  method ComputePath(c: Chain, vs: seq<Digest>, index: nat) returns (siblings: seq<Digest>, indices: seq<bool>)
    ensures index < |vs| ==>
      siblings == Path(c.node, ZERO_VALUE, vs, 0, index, c.depth) && indices == Bits(index, c.depth)
  {
    var empty := EmptySubtrees(c);
    siblings, indices := [], [];
    var layer, idx: nat := vs, index;
    while |siblings| < c.depth && |layer| > 1
      invariant |siblings| <= c.depth && Layer(c, vs, |siblings|, layer)
      invariant idx == Anc(index, |siblings|)
      invariant index < |vs| ==> idx < |layer| && Collected(c.node, ZERO_VALUE, vs, index, siblings, indices)
      decreases c.depth - |siblings|
    {
      var level := |siblings|;
      if |layer| % 2 != 0 {
        layer := layer + [empty[level]];
      }
      var sib := if Sib(idx) < |layer| then layer[Sib(idx)] else empty[level];
      if index < |vs| {
        CollectedNext(c.node, ZERO_VALUE, vs, index, siblings, indices, sib);
      }
      siblings, indices := siblings + [sib], indices + [idx % 2 == 1];
      layer := NextLayer(c, layer, vs, level);
      idx := idx / 2;
    }
    if |siblings| < c.depth {
      siblings, indices := EmptyTail(c, empty, vs, layer, index, siblings, indices);
    }
    if index < |vs| {
      CollectedIsPath(c.node, ZERO_VALUE, vs, index, siblings, indices);
    }
  }

  /** Every path so built folds to the chain root. */
  lemma PathFolds(c: Chain, vs: seq<Digest>, i: nat)
    requires i < |vs| <= Pow2(c.depth)
    ensures Fold(c.node, vs[i], Path(c.node, ZERO_VALUE, vs, 0, i, c.depth), Bits(i, c.depth)) == ChainRoot(c, vs)
  {
    FoldPath(c.node, ZERO_VALUE, vs, 0, i, c.depth);
    AncTop(i, c.depth);
  }
}
