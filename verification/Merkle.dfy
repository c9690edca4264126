/** Binary Merkle trees over a padded leaf vector.

    One reference tree serves every construction of the repository: the leaves are `s`,
    every slot past the end of `s` holds the padding leaf `z`, and `Node(h, z, s, level, i)`
    is the digest of the `i`-th node `level` steps above the leaves. Digests have an
    arbitrary type `D` and the two-to-one hash `h` is a parameter, so that a hypothesis
    such as `Injective(h)` can be met. */
module Merkle {
  /** Digests are left unbounded, so that a hash into them can be free of collisions. */
  type Digest = int

  /** Collision-freeness of the node hash. */
  ghost predicate Injective<D(!new)>(h: (D, D) -> D) {
    forall a, b, c, d {:trigger h(a, b), h(c, d)} :: h(a, b) == h(c, d) ==> a == c && b == d
  }

  function LeafAt<D>(z: D, s: seq<D>, i: nat): D {
    if i < |s| then s[i] else z
  }

  function Node<D>(h: (D, D) -> D, z: D, s: seq<D>, level: nat, i: nat): D
    decreases level
  {
    if level == 0 then LeafAt(z, s, i)
    else h(Node(h, z, s, level - 1, 2 * i), Node(h, z, s, level - 1, 2 * i + 1))
  }

  /** Digest of a subtree of padding leaves only. */
  function Empty<D>(h: (D, D) -> D, z: D, level: nat): D {
    if level == 0 then z else h(Empty(h, z, level - 1), Empty(h, z, level - 1))
  }

  /** One step of a Merkle proof: `right` says that the current node is the right child. */
  function Up<D>(h: (D, D) -> D, cur: D, sibling: D, right: bool): D {
    if right then h(sibling, cur) else h(cur, sibling)
  }

  /** Root recomputation; like a zip, it stops at the shorter of the two sequences. */
  function Fold<D>(h: (D, D) -> D, cur: D, sibs: seq<D>, bits: seq<bool>): D {
    if |sibs| == 0 || |bits| == 0 then cur
    else Fold(h, Up(h, cur, sibs[0], bits[0]), sibs[1..], bits[1..])
  }

  function Sib(i: nat): nat {
    if i % 2 == 0 then i + 1 else i - 1
  }

  /** Siblings met on the way from node `i` at `level` up to `depth`. */
  function Path<D>(h: (D, D) -> D, z: D, s: seq<D>, level: nat, i: nat, depth: nat): (p: seq<D>)
    requires level <= depth
    ensures |p| == depth - level
    decreases depth - level
  {
    if level == depth then []
    else [Node(h, z, s, level, Sib(i))] + Path(h, z, s, level + 1, i / 2, depth)
  }

  function Bits(i: nat, n: nat): (b: seq<bool>)
    ensures |b| == n
    decreases n
  {
    if n == 0 then [] else [i % 2 == 1] + Bits(i / 2, n - 1)
  }

  /** Index of the ancestor of `i` that is `level` steps up. */
  function Anc(i: nat, level: nat): nat {
    if level == 0 then i else Anc(i, level - 1) / 2
  }

  /** Index of the node reached from `j` by walking down the directions, last one first. */
  function Descend(j: nat, bits: seq<bool>): nat {
    if |bits| == 0 then j else 2 * Descend(j, bits[1..]) + (if bits[0] then 1 else 0)
  }

  function Pow2(n: nat): (r: nat)
    ensures r >= 1
  {
    if n == 0 then 1 else 2 * Pow2(n - 1)
  }

  // ----- arithmetic of indices -----

  lemma {:induction false} AncHalf(i: nat, n: nat)
    ensures Anc(i / 2, n) == Anc(i, n + 1)
  {
    if n == 0 {
      assert Anc(i, 1) == Anc(i, 0) / 2;
    } else {
      AncHalf(i, n - 1);
    }
  }

  lemma {:induction false} AncBounds(i: nat, n: nat)
    ensures Anc(i, n) * Pow2(n) <= i < (Anc(i, n) + 1) * Pow2(n)
  {
    if n != 0 {
      AncBounds(i, n - 1);
      var a, j, p := Anc(i, n - 1), Anc(i, n), Pow2(n - 1);
      MulDouble(j, p);
      MulDouble(j + 1, p);
      MulMono(2 * j, a, p);
      MulMono(a + 1, 2 * (j + 1), p);
    }
  }

  lemma AncRange(i: nat, n: nat, j: nat)
    ensures Anc(i, n) == j <==> j * Pow2(n) <= i < (j + 1) * Pow2(n)
  {
    AncBounds(i, n);
    var a := Anc(i, n);
    if a < j {
      MulMono(a + 1, j, Pow2(n));
    } else if j < a {
      MulMono(j + 1, a, Pow2(n));
    }
  }

  lemma MulDouble(j: nat, p: nat)
    ensures j * (2 * p) == (2 * j) * p
  {
  }

  lemma MulMono(a: nat, b: nat, c: nat)
    requires a <= b
    ensures a * c <= b * c
  {
    assert b * c == a * c + (b - a) * c;
  }

  lemma AncTop(i: nat, n: nat)
    ensures Anc(i, n) == 0 <==> i < Pow2(n)
  {
    AncRange(i, n, 0);
  }

  lemma {:induction false} DescendBits(i: nat, n: nat)
    ensures Descend(Anc(i, n), Bits(i, n)) == i
  {
    if n != 0 {
      AncHalf(i, n - 1);
      DescendBits(i / 2, n - 1);
    }
  }

  lemma {:induction false} BitsDescend(j: nat, bits: seq<bool>)
    ensures Bits(Descend(j, bits), |bits|) == bits
    ensures Anc(Descend(j, bits), |bits|) == j
  {
    if |bits| != 0 {
      BitsDescend(j, bits[1..]);
      var i := Descend(j, bits);
      assert i / 2 == Descend(j, bits[1..]);
      AncHalf(i, |bits| - 1);
      assert bits == [bits[0]] + bits[1..];
    }
  }

  // ----- the padded tree -----

  lemma {:induction false} NodeOfNothing<D>(h: (D, D) -> D, z: D, s: seq<D>, level: nat, i: nat)
    requires |s| <= i * Pow2(level)
    ensures Node(h, z, s, level, i) == Empty(h, z, level)
  {
    if level != 0 {
      var p := Pow2(level - 1);
      assert i * Pow2(level) == (2 * i) * p;
      assert (2 * i + 1) * p == (2 * i) * p + p;
      NodeOfNothing(h, z, s, level - 1, 2 * i);
      NodeOfNothing(h, z, s, level - 1, 2 * i + 1);
    }
  }

  /** The two leaf vectors agree at every slot but `i`. */
  ghost predicate AgreeOff<D>(z: D, s: seq<D>, t: seq<D>, i: nat) {
    forall k: nat :: k != i ==> LeafAt(z, s, k) == LeafAt(z, t, k)
  }

  lemma {:induction false} NodeAgree<D>(h: (D, D) -> D, z: D, s: seq<D>, t: seq<D>, i: nat, level: nat, j: nat)
    requires AgreeOff(z, s, t, i) && j != Anc(i, level)
    ensures Node(h, z, s, level, j) == Node(h, z, t, level, j)
  {
    if level != 0 {
      NodeAgree(h, z, s, t, i, level - 1, 2 * j);
      NodeAgree(h, z, s, t, i, level - 1, 2 * j + 1);
    }
  }

  /** A change of leaf `i` is invisible in the path of `i`. */
  lemma {:induction false} PathAgree<D>(h: (D, D) -> D, z: D, s: seq<D>, t: seq<D>, i: nat, level: nat, depth: nat)
    requires level <= depth && AgreeOff(z, s, t, i)
    ensures Path(h, z, s, level, Anc(i, level), depth) == Path(h, z, t, level, Anc(i, level), depth)
    decreases depth - level
  {
    if level < depth {
      var a := Anc(i, level);
      NodeAgree(h, z, s, t, i, level, Sib(a));
      assert a / 2 == Anc(i, level + 1);
      PathAgree(h, z, s, t, i, level + 1, depth);
    }
  }

  lemma {:induction false} PathEntry<D>(h: (D, D) -> D, z: D, s: seq<D>, level: nat, i: nat, depth: nat, l: nat)
    requires level + l < depth
    ensures Path(h, z, s, level, i, depth)[l] == Node(h, z, s, level + l, Sib(Anc(i, l)))
    ensures Bits(i, depth - level)[l] == (Anc(i, l) % 2 == 1)
    decreases l
  {
    if l != 0 {
      PathEntry(h, z, s, level + 1, i / 2, depth, l - 1);
      AncHalf(i, l - 1);
    }
  }

  /** Siblings and directions of slot `i`, collected level by level from the leaves. */
  ghost predicate Collected<D>(h: (D, D) -> D, z: D, s: seq<D>, i: nat, sibs: seq<D>, bits: seq<bool>) {
    && |sibs| == |bits|
    && (forall l :: 0 <= l < |sibs| ==> sibs[l] == Node(h, z, s, l, Sib(Anc(i, l))))
    && (forall l :: 0 <= l < |bits| ==> bits[l] == (Anc(i, l) % 2 == 1))
  }

  /** One more level. */
  lemma CollectedNext<D>(h: (D, D) -> D, z: D, s: seq<D>, i: nat, sibs: seq<D>, bits: seq<bool>, sib: D)
    requires Collected(h, z, s, i, sibs, bits) && sib == Node(h, z, s, |sibs|, Sib(Anc(i, |sibs|)))
    ensures Collected(h, z, s, i, sibs + [sib], bits + [Anc(i, |sibs|) % 2 == 1])
  {
  }

  lemma CollectedIsPath<D>(h: (D, D) -> D, z: D, s: seq<D>, i: nat, sibs: seq<D>, bits: seq<bool>)
    requires Collected(h, z, s, i, sibs, bits)
    ensures sibs == Path(h, z, s, 0, i, |sibs|) && bits == Bits(i, |sibs|)
  {
    forall l | 0 <= l < |sibs|
      ensures sibs[l] == Path(h, z, s, 0, i, |sibs|)[l] && bits[l] == Bits(i, |sibs|)[l]
    {
      PathEntry(h, z, s, 0, i, |sibs|, l);
    }
  }

  /** Completeness: a node folds along its own path to its ancestor. */
  lemma {:induction false} FoldPath<D>(h: (D, D) -> D, z: D, s: seq<D>, level: nat, i: nat, depth: nat)
    requires level <= depth
    ensures Fold(h, Node(h, z, s, level, i), Path(h, z, s, level, i, depth), Bits(i, depth - level))
         == Node(h, z, s, depth, Anc(i, depth - level))
    decreases depth - level
  {
    if level < depth {
      FoldPath(h, z, s, level + 1, i / 2, depth);
      AncHalf(i, depth - level - 1);
      var p, b := Path(h, z, s, level, i, depth), Bits(i, depth - level);
      assert p[1..] == Path(h, z, s, level + 1, i / 2, depth) && b[1..] == Bits(i / 2, depth - level - 1);
      assert Up(h, Node(h, z, s, level, i), p[0], b[0]) == Node(h, z, s, level + 1, i / 2);
    }
  }

  /** The root with leaf `i` replaced is the fold of the new leaf along the old path. */
  lemma FoldReplaced<D>(h: (D, D) -> D, z: D, s: seq<D>, t: seq<D>, i: nat, depth: nat)
    requires AgreeOff(z, s, t, i) && i < Pow2(depth)
    ensures Fold(h, LeafAt(z, t, i), Path(h, z, s, 0, i, depth), Bits(i, depth)) == Node(h, z, t, depth, 0)
    ensures Path(h, z, s, 0, i, depth) == Path(h, z, t, 0, i, depth)
  {
    PathAgree(h, z, s, t, i, 0, depth);
    FoldPath(h, z, t, 0, i, depth);
    AncTop(i, depth);
  }

  /** Soundness: under a collision-free hash, a proof of the right length that folds to a node
      of the tree starts at the node it names and carries exactly that node's siblings. */
  lemma {:induction false} FoldSound<D(!new)>(h: (D, D) -> D, z: D, s: seq<D>, level: nat, j: nat,
                                       cur: D, sibs: seq<D>, bits: seq<bool>)
    requires Injective(h) && |sibs| == |bits|
    requires Fold(h, cur, sibs, bits) == Node(h, z, s, level + |bits|, j)
    ensures cur == Node(h, z, s, level, Descend(j, bits))
    ensures sibs == Path(h, z, s, level, Descend(j, bits), level + |bits|)
    decreases |bits|
  {
    if |bits| != 0 {
      var up := Up(h, cur, sibs[0], bits[0]);
      FoldSound(h, z, s, level + 1, j, up, sibs[1..], bits[1..]);
      var i := Descend(j, bits);
      assert i / 2 == Descend(j, bits[1..]);
      assert up == h(Node(h, z, s, level, 2 * (i / 2)), Node(h, z, s, level, 2 * (i / 2) + 1));
      assert sibs == [sibs[0]] + sibs[1..];
    }
  }

  /** The root is a commitment: equal roots mean equal leaves at every slot of the tree. */
  lemma {:induction false} NodeBinding<D(!new)>(h: (D, D) -> D, z: D, s: seq<D>, t: seq<D>, level: nat, j: nat, i: nat)
    requires Injective(h) && Node(h, z, s, level, j) == Node(h, z, t, level, j)
    requires Anc(i, level) == j
    ensures LeafAt(z, s, i) == LeafAt(z, t, i)
    decreases level
  {
    if level != 0 {
      NodeBinding(h, z, s, t, level - 1, Anc(i, level - 1), i);
    }
  }

  // ----- pieces of paths and folds -----

  lemma PathSplit<D>(h: (D, D) -> D, z: D, s: seq<D>, level: nat, i: nat, depth: nat, k: nat)
    requires level + k <= depth
    ensures Path(h, z, s, level, i, depth) == Path(h, z, s, level, i, level + k)
      + Path(h, z, s, level + k, Anc(i, k), depth)
    ensures Bits(i, depth - level) == Bits(i, k) + Bits(Anc(i, k), depth - level - k)
  {
    var p, b := Path(h, z, s, level, i, depth), Bits(i, depth - level);
    var q, c := Path(h, z, s, level, i, level + k), Bits(i, k);
    var r, d := Path(h, z, s, level + k, Anc(i, k), depth), Bits(Anc(i, k), depth - level - k);
    forall l | 0 <= l < depth - level
      ensures p[l] == (q + r)[l] && b[l] == (c + d)[l]
    {
      PathEntry(h, z, s, level, i, depth, l);
      if l < k {
        PathEntry(h, z, s, level, i, level + k, l);
      } else {
        PathEntry(h, z, s, level + k, Anc(i, k), depth, l - k);
        AncAnc(i, k, l - k);
      }
    }
  }

  lemma {:induction false} FoldConcat<D>(h: (D, D) -> D, cur: D, p: seq<D>, b: seq<bool>, q: seq<D>, c: seq<bool>)
    requires |p| == |b|
    ensures Fold(h, cur, p + q, b + c) == Fold(h, Fold(h, cur, p, b), q, c)
    decreases |p|
  {
    if |p| == 0 {
      assert p + q == q && b + c == c;
    } else {
      assert (p + q)[1..] == p[1..] + q && (b + c)[1..] == b[1..] + c;
      FoldConcat(h, Up(h, cur, p[0], b[0]), p[1..], b[1..], q, c);
    }
  }

  /** The zip drops what one side has in excess. */
  lemma {:induction false} FoldTrim<D>(h: (D, D) -> D, cur: D, p: seq<D>, b: seq<bool>, n: nat)
    requires n == if |p| <= |b| then |p| else |b|
    ensures Fold(h, cur, p, b) == Fold(h, cur, p[..n], b[..n])
    decreases n
  {
    if n != 0 {
      assert p[..n][1..] == p[1..][..n - 1] && b[..n][1..] == b[1..][..n - 1];
      FoldTrim(h, Up(h, cur, p[0], b[0]), p[1..], b[1..], n - 1);
    }
  }

  /** A fold of at least one step ends in a hash of two digests. */
  lemma {:induction false} FoldIsPair<D>(h: (D, D) -> D, cur: D, p: seq<D>, b: seq<bool>) returns (l: D, r: D)
    requires |p| == |b| && |p| > 0
    ensures Fold(h, cur, p, b) == h(l, r)
    decreases |p|
  {
    if |p| == 1 {
      l, r := if b[0] then p[0] else cur, if b[0] then cur else p[0];
    } else {
      l, r := FoldIsPair(h, Up(h, cur, p[0], b[0]), p[1..], b[1..]);
    }
  }

  /** Leaf `i` of `t` folds along the lower part of its path in `s` to its ancestor in `t`. */
  lemma FoldLower<D>(h: (D, D) -> D, z: D, s: seq<D>, t: seq<D>, i: nat, k: nat)
    requires AgreeOff(z, s, t, i)
    ensures Fold(h, LeafAt(z, t, i), Path(h, z, s, 0, i, k), Bits(i, k)) == Node(h, z, t, k, Anc(i, k))
  {
    PathAgree(h, z, s, t, i, 0, k);
    FoldPath(h, z, t, 0, i, k);
  }

  /** Indices `i` and `j` part below level `k + 1`: their ancestors at level `k` are siblings. */
  predicate Part(i: nat, j: nat, k: nat) {
    Anc(i, k) != Anc(j, k) && Anc(i, k + 1) == Anc(j, k + 1)
  }

  lemma BranchOfTwo<D>(h: (D, D) -> D, z: D, s: seq<D>, t: seq<D>, u: D, i: nat, j: nat, k: nat)
    requires i < |s| && Part(i, j, k) && AgreeOff(z, s[i := u], t, j)
    ensures Fold(h, u, Path(h, z, s, 0, i, k), Bits(i, k)) == Node(h, z, t, k, Anc(i, k))
  {
    FoldLower(h, z, s, s[i := u], i, k);
    NodeAgree(h, z, s[i := u], t, j, k, Anc(i, k));
  }

  lemma UpperOfTwo<D>(h: (D, D) -> D, z: D, s: seq<D>, t: seq<D>, u: D, i: nat, j: nat, k: nat, depth: nat)
    requires i < |s| <= Pow2(depth) && k < depth && Part(i, j, k) && AgreeOff(z, s[i := u], t, j)
    ensures Fold(h, Node(h, z, t, k + 1, Anc(i, k + 1)), Path(h, z, s, k + 1, Anc(i, k + 1), depth),
                 Bits(Anc(i, k + 1), depth - k - 1)) == Node(h, z, t, depth, 0)
  {
    PathAgree(h, z, s, s[i := u], i, k + 1, depth);
    PathAgree(h, z, s[i := u], t, j, k + 1, depth);
    FoldPath(h, z, t, k + 1, Anc(i, k + 1), depth);
    AncAnc(i, k + 1, depth - k - 1);
    AncTop(i, depth);
  }

  /** Two leaves change at once: the branches of `i` and `j` are folded separately up to level `k`,
      where they are siblings, and the join is folded along the upper part of the old path of `i`. */
  lemma FoldTwoReplaced<D>(h: (D, D) -> D, z: D, s: seq<D>, u: D, v: D, i: nat, j: nat, k: nat, depth: nat)
    requires i < |s| <= Pow2(depth) && j < |s| && i != j && k < depth && Part(i, j, k)
    ensures var x := Fold(h, u, Path(h, z, s, 0, i, k), Bits(i, k));
            var y := Fold(h, v, Path(h, z, s, 0, j, k), Bits(j, k));
            var join := if Anc(i, k) % 2 == 1 then h(y, x) else h(x, y);
            Fold(h, join, Path(h, z, s, k + 1, Anc(i, k + 1), depth), Bits(Anc(i, k + 1), depth - k - 1))
            == Node(h, z, s[i := u][j := v], depth, 0)
  {
    var t := s[i := u][j := v];
    BranchOfTwo(h, z, s, t, u, i, j, k);
    BranchOfTwo(h, z, s, t, v, j, i, k);
    UpperOfTwo(h, z, s, t, u, i, j, k, depth);
  }

  lemma {:induction false} AncAnc(i: nat, m: nat, n: nat)
    ensures Anc(Anc(i, m), n) == Anc(i, m + n)
  {
    if n != 0 {
      AncAnc(i, m, n - 1);
    }
  }
}
