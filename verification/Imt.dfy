/** The indexed Merkle tree as a value: a linked list of leaves sorted by value, in insertion order.

    `Insert` is the specification of the in-place engine in `ImtStore`; what the protocol
    relies on (ordered set, bracketing low leaf, update proofs, binding root) is proved here. */
module Imt {
  import opened Merkle
  import opened Wrappers

  /** Tree depth, node hash and leaf hash. The leaf hash covers value, next index and next value. */
  datatype Params = Params(depth: nat, node: (Digest, Digest) -> Digest, leaf: (nat, nat, nat) -> Digest)

  datatype Leaf = Leaf(value: nat, nextIndex: nat, nextValue: nat)

  const ZERO: Leaf := Leaf(0, 0, 0)

  datatype Error = DuplicateInsertion | CapacityExhausted | NoLowLeaf

  // ----- operations on values -----

  predicate IsLow(l: Leaf, v: nat) {
    l.value < v && (l.nextValue > v || l.nextValue == 0)
  }

  predicate Has(leaves: seq<Leaf>, v: nat) {
    exists i :: 0 <= i < |leaves| && leaves[i].value == v
  }

  /** The last bracketing leaf, as a front-to-back scan that keeps overwriting its candidate finds it. */
  function LastLow(leaves: seq<Leaf>, v: nat): Option<nat> {
    if |leaves| == 0 then None
    else if IsLow(leaves[|leaves| - 1], v) then Some(|leaves| - 1)
    else LastLow(leaves[..|leaves| - 1], v)
  }

  function FindLow(leaves: seq<Leaf>, v: nat): Result<nat, Error> {
    if Has(leaves, v) then Err(DuplicateInsertion)
    else match LastLow(leaves, v)
      case None => Err(NoLowLeaf)
      case Some(i) => Ok(i)
  }

  lemma {:induction false} LastLowIsLow(leaves: seq<Leaf>, v: nat)
    ensures match LastLow(leaves, v)
            case Some(i) => i < |leaves| && IsLow(leaves[i], v) && forall k :: i < k < |leaves| ==> !IsLow(leaves[k], v)
            case None => forall k :: 0 <= k < |leaves| ==> !IsLow(leaves[k], v)
  {
    if |leaves| != 0 && !IsLow(leaves[|leaves| - 1], v) {
      LastLowIsLow(leaves[..|leaves| - 1], v);
      assert leaves[..|leaves| - 1] + [leaves[|leaves| - 1]] == leaves;
    }
  }

  function Linked(leaves: seq<Leaf>, low: nat, v: nat): seq<Leaf>
    requires low < |leaves|
  {
    leaves[low := leaves[low].(nextIndex := |leaves|, nextValue := v)]
  }

  function Spliced(leaves: seq<Leaf>, low: nat, v: nat): seq<Leaf>
    requires low < |leaves|
  {
    Linked(leaves, low, v) + [leaves[low].(value := v)]
  }

  function Insert(p: Params, leaves: seq<Leaf>, v: nat): Result<seq<Leaf>, Error> {
    if |leaves| >= Pow2(p.depth) then Err(CapacityExhausted)
    else match FindLow(leaves, v)
      case Err(e) => Err(e)
      case Ok(low) => LastLowIsLow(leaves, v); Ok(Spliced(leaves, low, v))
  }

  function InsertAll(p: Params, leaves: seq<Leaf>, vs: seq<nat>): Result<seq<Leaf>, Error>
    decreases |vs|
  {
    if |vs| == 0 then Ok(leaves)
    else match Insert(p, leaves, vs[0])
      case Err(e) => Err(e)
      case Ok(next) => InsertAll(p, next, vs[1..])
  }

  function HashOf(p: Params, l: Leaf): Digest {
    p.leaf(l.value, l.nextIndex, l.nextValue)
  }

  function Digests(p: Params, leaves: seq<Leaf>): (s: seq<Digest>)
    ensures |s| == |leaves|
  {
    seq(|leaves|, i requires 0 <= i < |leaves| => HashOf(p, leaves[i]))
  }

  function EmptyLeaf(p: Params): Digest {
    p.leaf(0, 0, 0)
  }

  function RootOf(p: Params, leaves: seq<Leaf>): Digest {
    Node(p.node, EmptyLeaf(p), Digests(p, leaves), p.depth, 0)
  }

  function PathOf(p: Params, leaves: seq<Leaf>, i: nat): seq<Digest> {
    Path(p.node, EmptyLeaf(p), Digests(p, leaves), 0, i, p.depth)
  }

  /** A leaf, claimed at index `i`, folds along `path` to `root`. */
  predicate Verifies(p: Params, l: Leaf, i: nat, path: seq<Digest>, root: Digest) {
    |path| == p.depth && i < Pow2(p.depth) && Fold(p.node, HashOf(p, l), path, Bits(i, p.depth)) == root
  }

  // ----- the sorted linked list -----

  /** `c` walks the list from index 0: values strictly ascend, every link is followed, every leaf is
      visited, and the last leaf carries the end marker. */
  ghost predicate Chain(leaves: seq<Leaf>, c: seq<nat>) {
    && |c| == |leaves| && |c| >= 1
    && c[0] == 0 && leaves[0].value == 0
    && (forall k :: 0 <= k < |c| ==> c[k] < |leaves|)
    && (forall i :: 0 <= i < |leaves| ==> i in c)
    && (forall j, k :: 0 <= j < k < |c| ==> leaves[c[j]].value < leaves[c[k]].value)
    && (forall k :: 0 <= k < |c| ==> Link(leaves, c, k))
  }

  ghost predicate Link(leaves: seq<Leaf>, c: seq<nat>, k: nat)
    requires k < |c| && forall k :: 0 <= k < |c| ==> c[k] < |leaves|
  {
    if k + 1 < |c| then
      leaves[c[k]].nextIndex == c[k + 1] && leaves[c[k]].nextValue == leaves[c[k + 1]].value
    else
      leaves[c[k]].nextIndex == 0 && leaves[c[k]].nextValue == 0
  }

  ghost predicate Sorted(leaves: seq<Leaf>) {
    exists c :: Chain(leaves, c)
  }

  lemma Position(leaves: seq<Leaf>, c: seq<nat>, i: nat) returns (k: nat)
    requires Chain(leaves, c) && i < |leaves|
    ensures k < |c| && c[k] == i
  {
    assert i in c;
    k :| 0 <= k < |c| && c[k] == i;
  }

  lemma EmptyIsSorted()
    ensures Sorted([ZERO])
  {
    assert Link([ZERO], [0], 0);
    assert Chain([ZERO], [0]);
  }

  /** Values occur once, and two positions of the list bracket a value only if they are the same one. */
  lemma {:induction false} DistinctValues(leaves: seq<Leaf>, i: nat, k: nat)
    requires Sorted(leaves) && i < |leaves| && k < |leaves|
    requires leaves[i].value == leaves[k].value
    ensures i == k
  {
    var c :| Chain(leaves, c);
    var a := Position(leaves, c, i);
    var b := Position(leaves, c, k);
  }

  lemma LowIsUnique(leaves: seq<Leaf>, v: nat, i: nat, k: nat)
    requires Sorted(leaves) && i < |leaves| && k < |leaves|
    requires IsLow(leaves[i], v) && IsLow(leaves[k], v)
    ensures i == k
  {
    var c :| Chain(leaves, c);
    var a := Position(leaves, c, i);
    var b := Position(leaves, c, k);
    assert Link(leaves, c, a) && Link(leaves, c, b);
  }

  lemma {:induction false} LowFrom(leaves: seq<Leaf>, c: seq<nat>, v: nat, a: nat) returns (b: nat)
    requires Chain(leaves, c) && !Has(leaves, v)
    requires a < |c| && leaves[c[a]].value < v
    ensures b < |leaves| && IsLow(leaves[b], v)
    decreases |c| - a
  {
    assert Link(leaves, c, a);
    if a + 1 < |c| && leaves[c[a + 1]].value <= v {
      b := LowFrom(leaves, c, v, a + 1);
    } else {
      b := c[a];
    }
  }

  /** A bracketing leaf excludes its value, and every absent value has one: so the scan never runs dry. */
  lemma LowIffAbsent(leaves: seq<Leaf>, v: nat)
    requires Sorted(leaves)
    ensures (exists i :: 0 <= i < |leaves| && IsLow(leaves[i], v)) <==> !Has(leaves, v)
  {
    var c :| Chain(leaves, c);
    if !Has(leaves, v) {
      assert leaves[0].value != v;
      var b := LowFrom(leaves, c, v, 0);
    } else {
      var m :| 0 <= m < |leaves| && leaves[m].value == v;
      forall i | 0 <= i < |leaves| ensures !IsLow(leaves[i], v) {
        var a := Position(leaves, c, i);
        var b := Position(leaves, c, m);
        assert Link(leaves, c, a);
      }
    }
  }

  /** What `Insert` answers, for every sorted list and every value. */
  lemma InsertOutcome(p: Params, leaves: seq<Leaf>, v: nat)
    requires Sorted(leaves)
    ensures Insert(p, leaves, v) == Err(CapacityExhausted) <==> |leaves| >= Pow2(p.depth)
    ensures Insert(p, leaves, v) == Err(DuplicateInsertion) <==> |leaves| < Pow2(p.depth) && Has(leaves, v)
    ensures Insert(p, leaves, v).Ok? <==> |leaves| < Pow2(p.depth) && !Has(leaves, v)
  {
    LowIffAbsent(leaves, v);
    LastLowIsLow(leaves, v);
  }

  ghost function Grown(c: seq<nat>, a: nat, n: nat): seq<nat>
    requires a < |c|
  {
    c[..a + 1] + [n] + c[a + 1..]
  }

  /** Where the grown walk goes, position by position. */
  lemma GrownAt(leaves: seq<Leaf>, c: seq<nat>, a: nat, v: nat, k: nat)
    requires Chain(leaves, c) && a < |c| && k <= |c|
    ensures var t, d := Spliced(leaves, c[a], v), Grown(c, a, |leaves|);
            && |d| == |t| == |c| + 1 && d[k] < |t|
            && (k < a ==> d[k] == c[k] && t[d[k]] == leaves[c[k]])
            && (k == a ==> d[k] == c[k] && t[d[k]] == Leaf(leaves[c[a]].value, |leaves|, v))
            && (k == a + 1 ==> d[k] == |leaves| && t[d[k]] == leaves[c[a]].(value := v))
            && (k > a + 1 ==> d[k] == c[k - 1] && t[d[k]] == leaves[c[k - 1]])
  {
    var k' := if k <= a then k else k - 1;
    if k' < a {
      assert leaves[c[k']].value < leaves[c[a]].value;
    } else if a < k' {
      assert leaves[c[a]].value < leaves[c[k']].value;
    }
  }

  lemma GrownAscends(leaves: seq<Leaf>, c: seq<nat>, a: nat, v: nat, j: nat, k: nat)
    requires Chain(leaves, c) && a < |c| && IsLow(leaves[c[a]], v) && j < k <= |c|
    ensures var t, d := Spliced(leaves, c[a], v), Grown(c, a, |leaves|);
            d[j] < |t| && d[k] < |t| && t[d[j]].value < t[d[k]].value
  {
    GrownAt(leaves, c, a, v, j);
    GrownAt(leaves, c, a, v, k);
    assert Link(leaves, c, a);
  }

  lemma GrownLinks(leaves: seq<Leaf>, c: seq<nat>, a: nat, v: nat, k: nat)
    requires Chain(leaves, c) && a < |c| && k <= |c|
    requires forall i :: 0 <= i <= |c| ==> Grown(c, a, |leaves|)[i] < |Spliced(leaves, c[a], v)|
    ensures Link(Spliced(leaves, c[a], v), Grown(c, a, |leaves|), k)
  {
    GrownAt(leaves, c, a, v, k);
    if k + 1 <= |c| {
      GrownAt(leaves, c, a, v, k + 1);
    }
    assert Link(leaves, c, if k <= a then k else k - 1);
  }

  lemma SpliceKeepsChain(leaves: seq<Leaf>, c: seq<nat>, a: nat, v: nat)
    requires Chain(leaves, c) && a < |c| && IsLow(leaves[c[a]], v)
    ensures Chain(Spliced(leaves, c[a], v), Grown(c, a, |leaves|))
  {
    var t, d := Spliced(leaves, c[a], v), Grown(c, a, |leaves|);
    forall k | 0 <= k < |d| ensures d[k] < |t| {
      GrownAt(leaves, c, a, v, k);
    }
    forall k | 0 <= k < |d| ensures Link(t, d, k) {
      GrownLinks(leaves, c, a, v, k);
    }
    forall j, k | 0 <= j < k < |d| ensures t[d[j]].value < t[d[k]].value {
      GrownAscends(leaves, c, a, v, j, k);
    }
    forall i | 0 <= i < |t| ensures i in d {
      if i == |leaves| {
        assert d[a + 1] == i;
      } else {
        var k := Position(leaves, c, i);
        assert d[if k <= a then k else k + 1] == i;
      }
    }
    GrownAt(leaves, c, a, v, 0);
  }

  function ValuesOf(leaves: seq<Leaf>): (r: seq<nat>)
    ensures |r| == |leaves|
  {
    seq(|leaves|, i requires 0 <= i < |leaves| => leaves[i].value)
  }

  /** Insertion keeps the list sorted and appends the value to what the leaves hold. */
  lemma InsertKeepsSorted(p: Params, leaves: seq<Leaf>, v: nat)
    requires Sorted(leaves) && Insert(p, leaves, v).Ok?
    ensures var t := Insert(p, leaves, v).value;
            Sorted(t) && ValuesOf(t) == ValuesOf(leaves) + [v] && |t| <= Pow2(p.depth)
  {
    LastLowIsLow(leaves, v);
    var low := LastLow(leaves, v).value;
    var c :| Chain(leaves, c);
    var a := Position(leaves, c, low);
    SpliceKeepsChain(leaves, c, a, v);
  }

  /** Values that are new to the tree, zero therefore not among them, and pairwise different. */
  ghost predicate Fresh(leaves: seq<Leaf>, vs: seq<nat>) {
    && (forall i :: 0 <= i < |vs| ==> !Has(leaves, vs[i]))
    && (forall i, j :: 0 <= i < j < |vs| ==> vs[i] != vs[j])
  }

  lemma FreshStep(leaves: seq<Leaf>, t: seq<Leaf>, vs: seq<nat>)
    requires |vs| != 0 && ValuesOf(t) == ValuesOf(leaves) + [vs[0]]
    ensures Fresh(leaves, vs) <==> !Has(leaves, vs[0]) && Fresh(t, vs[1..])
  {
    HasIffListed(leaves);
    HasIffListed(t);
    assert forall x :: Has(t, x) <==> Has(leaves, x) || x == vs[0];
    var ws := vs[1..];
    if !Has(leaves, vs[0]) && Fresh(t, ws) {
      forall i | 0 <= i < |vs| ensures !Has(leaves, vs[i]) && (i > 0 ==> vs[i] != vs[0]) {
        if i > 0 {
          assert vs[i] == ws[i - 1];
        }
      }
      forall i, j | 0 <= i < j < |vs| ensures vs[i] != vs[j] {
        if i > 0 {
          assert vs[i] == ws[i - 1] && vs[j] == ws[j - 1];
        }
      }
    }
  }

  lemma {:induction false} InsertAllOutcome(p: Params, leaves: seq<Leaf>, vs: seq<nat>)
    requires Sorted(leaves) && |leaves| <= Pow2(p.depth)
    ensures InsertAll(p, leaves, vs).Ok? <==> |leaves| + |vs| <= Pow2(p.depth) && Fresh(leaves, vs)
    ensures InsertAll(p, leaves, vs).Ok? ==>
            var t := InsertAll(p, leaves, vs).value;
            Sorted(t) && ValuesOf(t) == ValuesOf(leaves) + vs && |t| == |leaves| + |vs|
    decreases |vs|
  {
    if |vs| == 0 {
      assert ValuesOf(leaves) + vs == ValuesOf(leaves);
    } else {
      InsertOutcome(p, leaves, vs[0]);
      if Insert(p, leaves, vs[0]).Ok? {
        InsertKeepsSorted(p, leaves, vs[0]);
        var t := Insert(p, leaves, vs[0]).value;
        InsertAllOutcome(p, t, vs[1..]);
        FreshStep(leaves, t, vs);
        assert ValuesOf(leaves) + [vs[0]] + vs[1..] == ValuesOf(leaves) + vs;
        assert |ValuesOf(t)| == |leaves| + 1;
      }
    }
  }

  lemma HasIffListed(leaves: seq<Leaf>)
    ensures forall v :: Has(leaves, v) <==> v in ValuesOf(leaves)
  {
    forall v | Has(leaves, v) ensures v in ValuesOf(leaves) {
      var i :| 0 <= i < |leaves| && leaves[i].value == v;
      assert ValuesOf(leaves)[i] == v;
    }
    forall v | v in ValuesOf(leaves) ensures Has(leaves, v) {
      var i :| 0 <= i < |leaves| && ValuesOf(leaves)[i] == v;
      assert leaves[i].value == v;
    }
  }

  lemma {:induction false} InsertAllConcat(p: Params, leaves: seq<Leaf>, vs: seq<nat>, ws: seq<nat>)
    ensures InsertAll(p, leaves, vs + ws) ==
            match InsertAll(p, leaves, vs)
            case Err(e) => Err(e)
            case Ok(t) => InsertAll(p, t, ws)
    decreases |vs|
  {
    if |vs| == 0 {
      assert vs + ws == ws;
    } else {
      assert (vs + ws)[1..] == vs[1..] + ws;
      if Insert(p, leaves, vs[0]).Ok? {
        InsertAllConcat(p, Insert(p, leaves, vs[0]).value, vs[1..], ws);
      }
    }
  }

  // ----- digests and proofs -----

  lemma DigestAt(p: Params, leaves: seq<Leaf>, i: nat)
    ensures LeafAt(EmptyLeaf(p), Digests(p, leaves), i) == HashOf(p, if i < |leaves| then leaves[i] else ZERO)
  {
  }

  /** Completeness of membership: leaf `i` verifies along its own path. */
  lemma OwnPathVerifies(p: Params, leaves: seq<Leaf>, i: nat)
    requires i < Pow2(p.depth)
    ensures Verifies(p, if i < |leaves| then leaves[i] else ZERO, i, PathOf(p, leaves, i), RootOf(p, leaves))
  {
    FoldPath(p.node, EmptyLeaf(p), Digests(p, leaves), 0, i, p.depth);
    AncTop(i, p.depth);
  }

  ghost predicate CollisionFree(p: Params) {
    && Injective(p.node)
    && forall a, b, c, d, e, f {:trigger p.leaf(a, b, c), p.leaf(d, e, f)} ::
         p.leaf(a, b, c) == p.leaf(d, e, f) ==> a == d && b == e && c == f
  }

  /** Soundness of membership: only the stored leaf (the zero leaf past the end) verifies at an index. */
  lemma VerifiedIsStored(p: Params, leaves: seq<Leaf>, l: Leaf, i: nat, path: seq<Digest>)
    requires CollisionFree(p) && Verifies(p, l, i, path, RootOf(p, leaves))
    ensures l == (if i < |leaves| then leaves[i] else ZERO)
    ensures path == PathOf(p, leaves, i)
  {
    var bits := Bits(i, p.depth);
    AncTop(i, p.depth);
    DescendBits(i, p.depth);
    FoldSound(p.node, EmptyLeaf(p), Digests(p, leaves), 0, 0, HashOf(p, l), path, bits);
    DigestAt(p, leaves, i);
  }

  /** Soundness of non-membership: a verifying bracketing leaf at an occupied index excludes the value. */
  lemma NonMembershipSound(p: Params, leaves: seq<Leaf>, l: Leaf, i: nat, path: seq<Digest>, v: nat)
    requires CollisionFree(p) && Sorted(leaves)
    requires Verifies(p, l, i, path, RootOf(p, leaves)) && IsLow(l, v) && i < |leaves|
    ensures !Has(leaves, v)
  {
    VerifiedIsStored(p, leaves, l, i, path);
    LowIffAbsent(leaves, v);
  }

  /** An inserted value `v` can be bracketed by a verifying leaf at index `i` exactly when the slot is
      unoccupied: an empty slot hashes like the leaf (0, 0, 0), which brackets every positive value. */
  lemma BracketedIffUnoccupied(p: Params, leaves: seq<Leaf>, i: nat, v: nat)
    requires CollisionFree(p) && Sorted(leaves) && Has(leaves, v) && v > 0 && i < Pow2(p.depth)
    ensures (exists l, path :: Verifies(p, l, i, path, RootOf(p, leaves)) && IsLow(l, v)) <==> i >= |leaves|
  {
    if i >= |leaves| {
      OwnPathVerifies(p, leaves, i);
      assert IsLow(ZERO, v);
    } else {
      forall l, path | Verifies(p, l, i, path, RootOf(p, leaves)) ensures !IsLow(l, v) {
        if IsLow(l, v) {
          NonMembershipSound(p, leaves, l, i, path, v);
        }
      }
    }
  }

  /** The root binds the whole list, its length included. */
  lemma RootBinds(p: Params, a: seq<Leaf>, b: seq<Leaf>)
    requires CollisionFree(p) && Sorted(a) && Sorted(b)
    requires |a| <= Pow2(p.depth) && |b| <= Pow2(p.depth)
    requires RootOf(p, a) == RootOf(p, b)
    ensures a == b
  {
    forall i: nat | i < Pow2(p.depth)
      ensures (if i < |a| then a[i] else ZERO) == (if i < |b| then b[i] else ZERO)
    {
      AncTop(i, p.depth);
      NodeBinding(p.node, EmptyLeaf(p), Digests(p, a), Digests(p, b), p.depth, 0, i);
      DigestAt(p, a, i);
      DigestAt(p, b, i);
    }
    if |a| < |b| {
      OnlyHeadIsZero(b, |a|);
    } else if |b| < |a| {
      OnlyHeadIsZero(a, |b|);
    }
  }

  lemma OnlyHeadIsZero(leaves: seq<Leaf>, i: nat)
    requires Sorted(leaves) && 0 < i < |leaves|
    ensures leaves[i].value != 0
  {
    if leaves[i].value == 0 {
      DistinctValues(leaves, 0, i);
    }
  }

  // ----- update proofs -----

  datatype InsertWitness = InsertWitness(
    lowBefore: Leaf, lowAfter: Leaf, lowIndex: nat, lowPath: seq<Digest>,
    newLeaf: Leaf, newIndex: nat, newPath: seq<Digest>, newRoot: Digest)

  /** The two-step update proof for inserting `v`: the low path takes the old low leaf to the old root
      and the relinked one to an intermediate root; the new leaf's path takes the empty leaf to that
      same intermediate root and the new leaf to the new root. */
  ghost predicate UpdateProof(p: Params, oldRoot: Digest, v: nat, w: InsertWitness) {
    && IsLow(w.lowBefore, v)
    && w.lowAfter == Leaf(w.lowBefore.value, w.newIndex, v)
    && w.newLeaf == Leaf(v, w.lowBefore.nextIndex, w.lowBefore.nextValue)
    && Verifies(p, w.lowBefore, w.lowIndex, w.lowPath, oldRoot)
    && Verifies(p, ZERO, w.newIndex, w.newPath,
                Fold(p.node, HashOf(p, w.lowAfter), w.lowPath, Bits(w.lowIndex, p.depth)))
    && Verifies(p, w.newLeaf, w.newIndex, w.newPath, w.newRoot)
  }

  lemma LinkedDigests(p: Params, leaves: seq<Leaf>, low: nat, v: nat)
    requires low < |leaves|
    ensures AgreeOff(EmptyLeaf(p), Digests(p, leaves), Digests(p, Linked(leaves, low, v)), low)
    ensures AgreeOff(EmptyLeaf(p), Digests(p, Linked(leaves, low, v)), Digests(p, Spliced(leaves, low, v)), |leaves|)
  {
  }

  function WitnessOf(p: Params, leaves: seq<Leaf>, low: nat, v: nat): InsertWitness
    requires low < |leaves|
  {
    var mid, t := Linked(leaves, low, v), Spliced(leaves, low, v);
    InsertWitness(leaves[low], mid[low], low, PathOf(p, leaves, low),
                  t[|leaves|], |leaves|, PathOf(p, t, |leaves|), RootOf(p, t))
  }

  /** What a successful insertion of `v` hands out. */
  function WitnessFor(p: Params, leaves: seq<Leaf>, v: nat): InsertWitness
    requires Insert(p, leaves, v).Ok?
  {
    LastLowIsLow(leaves, v);
    WitnessOf(p, leaves, LastLow(leaves, v).value, v)
  }

  lemma WitnessForProves(p: Params, leaves: seq<Leaf>, v: nat)
    requires Insert(p, leaves, v).Ok?
    ensures UpdateProof(p, RootOf(p, leaves), v, WitnessFor(p, leaves, v))
    ensures WitnessFor(p, leaves, v).newRoot == RootOf(p, Insert(p, leaves, v).value)
  {
    LastLowIsLow(leaves, v);
    WitnessIsUpdateProof(p, leaves, LastLow(leaves, v).value, v);
  }

  /** Completeness: the witness of an insertion is an update proof from the old to the new root. */
  lemma WitnessIsUpdateProof(p: Params, leaves: seq<Leaf>, low: nat, v: nat)
    requires low < |leaves| < Pow2(p.depth) && IsLow(leaves[low], v)
    ensures UpdateProof(p, RootOf(p, leaves), v, WitnessOf(p, leaves, low, v))
  {
    var z := EmptyLeaf(p);
    var mid, t := Linked(leaves, low, v), Spliced(leaves, low, v);
    LinkedDigests(p, leaves, low, v);
    OwnPathVerifies(p, leaves, low);
    FoldReplaced(p.node, z, Digests(p, leaves), Digests(p, mid), low, p.depth);
    FoldReplaced(p.node, z, Digests(p, mid), Digests(p, t), |leaves|, p.depth);
    OwnPathVerifies(p, mid, |leaves|);
    OwnPathVerifies(p, t, |leaves|);
    DigestAt(p, mid, low);
  }

  /** Soundness: under collision-free hashes, any update proof against the root of a sorted tree whose
      low index is occupied and whose new index is the next free one does what `Insert` does. */
  lemma UpdateProofSound(p: Params, leaves: seq<Leaf>, v: nat, w: InsertWitness)
    requires CollisionFree(p) && Sorted(leaves)
    requires UpdateProof(p, RootOf(p, leaves), v, w)
    requires w.lowIndex < |leaves| && w.newIndex == |leaves|
    ensures Insert(p, leaves, v).Ok? && w.newRoot == RootOf(p, Insert(p, leaves, v).value)
  {
    VerifiedIsStored(p, leaves, w.lowBefore, w.lowIndex, w.lowPath);
    InsertOutcome(p, leaves, v);
    LowIffAbsent(leaves, v);
    LastLowIsLow(leaves, v);
    LowIsUnique(leaves, v, w.lowIndex, LastLow(leaves, v).value);
    var z := EmptyLeaf(p);
    var mid, t := Linked(leaves, w.lowIndex, v), Spliced(leaves, w.lowIndex, v);
    LinkedDigests(p, leaves, w.lowIndex, v);
    FoldReplaced(p.node, z, Digests(p, leaves), Digests(p, mid), w.lowIndex, p.depth);
    DigestAt(p, mid, w.lowIndex);
    VerifiedIsStored(p, mid, ZERO, w.newIndex, w.newPath);
    FoldReplaced(p.node, z, Digests(p, mid), Digests(p, t), |leaves|, p.depth);
  }
}
