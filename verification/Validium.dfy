/** The validium's account tree and its state transitions: a flat-heap Merkle tree, inclusion
    proofs, the dual-leaf root recomputation of a transfer, and what acceptance guarantees. */
module Validium {
  import opened Merkle
  import opened Field
  import opened Wrappers

  /** SHA-256 in its three uses: a public key from a secret key, a parent from two children, and an
      account commitment. */
  datatype Sha = Sha(pub: Digest -> Digest, pair: (Digest, Digest) -> Digest, account: (Digest, nat, Digest) -> Digest)

  datatype Account = Account(pubkey: Digest, balance: u64, salt: Digest)

  /** The all-zero leaf that pads the tree. */
  const PADDING: Digest := 0

  function Commit(h: Sha, a: Account): Digest {
    h.account(a.pubkey, a.balance, a.salt)
  }

  function Commitments(h: Sha, ledger: seq<Account>): (s: seq<Digest>)
    ensures |s| == |ledger|
  {
    seq(|ledger|, i requires 0 <= i < |ledger| => Commit(h, ledger[i]))
  }

  function LedgerRoot(h: Sha, ledger: seq<Account>, depth: nat): Digest {
    Node(h.pair, PADDING, Commitments(h, ledger), depth, 0)
  }

  function Total(ledger: seq<Account>): nat {
    if |ledger| == 0 then 0 else ledger[0].balance + Total(ledger[1..])
  }

  // ----- the flat-heap tree -----

  ghost predicate Heap(h: (Digest, Digest) -> Digest, nodes: seq<Digest>, leaves: seq<Digest>, depth: nat) {
    && |nodes| == 2 * Pow2(depth)
    && (forall k :: Pow2(depth) <= k < |nodes| ==> nodes[k] == LeafAt(PADDING, leaves, k - Pow2(depth)))
    && (forall k :: 1 <= k < Pow2(depth) ==> nodes[k] == h(nodes[2 * k], nodes[2 * k + 1]))
  }

  /** Heap slot 2^(depth - level) + i holds node i of that level of the padded tree. */
  lemma {:induction false} HeapIsTree(h: (Digest, Digest) -> Digest, nodes: seq<Digest>, leaves: seq<Digest>,
                                      depth: nat, level: nat, i: nat)
    requires Heap(h, nodes, leaves, depth) && level <= depth && i < Pow2(depth - level)
    ensures Pow2(depth - level) + i < |nodes|
    ensures nodes[Pow2(depth - level) + i] == Node(h, PADDING, leaves, level, i)
    decreases level
  {
    PowMono(depth - level, depth);
    if level != 0 {
      PowMono(depth - level + 1, depth);
      HeapIsTree(h, nodes, leaves, depth, level - 1, 2 * i);
      HeapIsTree(h, nodes, leaves, depth, level - 1, 2 * i + 1);
      assert 2 * (Pow2(depth - level) + i) == Pow2(depth - level + 1) + 2 * i;
    }
  }

  /** One step of a walk up the heap. */
  lemma HeapStep(h: (Digest, Digest) -> Digest, nodes: seq<Digest>, leaves: seq<Digest>, depth: nat, level: nat, i: nat)
    requires Heap(h, nodes, leaves, depth) && level < depth && i < Pow2(depth - level)
    ensures var k := Pow2(depth - level) + i;
            && k % 2 == i % 2 && k / 2 == Pow2(depth - level - 1) + i / 2 && i / 2 < Pow2(depth - level - 1)
            && 1 <= k < |nodes| - (if i % 2 == 1 then 0 else 1)
            && nodes[if k % 2 == 1 then k - 1 else k + 1] == Node(h, PADDING, leaves, level, Sib(i))
  {
    assert Pow2(depth - level) == 2 * Pow2(depth - level - 1);
    HeapIsTree(h, nodes, leaves, depth, level, Sib(i));
  }

  lemma {:induction false} PowMono(a: nat, b: nat)
    requires a <= b
    ensures Pow2(a) <= Pow2(b)
    decreases b
  {
    if a < b {
      PowMono(a, b - 1);
    }
  }

  class MerkleTree {
    const h: Sha
    const depth: nat
    const nodes: array<Digest>
    ghost const leaves: seq<Digest>

    ghost predicate Valid()
      reads this, nodes
    {
      |leaves| <= Pow2(depth) && Heap(h.pair, nodes[..], leaves, depth)
    }

    constructor (h: Sha, leaves: seq<Digest>, depth: nat)
      requires |leaves| <= Pow2(depth)
      ensures Valid() && this.h == h && this.leaves == leaves && this.depth == depth
    {
      var n := Pow2(depth);
      var a := new Digest[2 * n](_ => PADDING);
      for i := 0 to |leaves|
        invariant forall k :: n <= k < n + i ==> a[k] == leaves[k - n]
        invariant forall k :: n + i <= k < 2 * n ==> a[k] == PADDING
      {
        a[n + i] := leaves[i];
      }
      var i := n;
      while i > 1
        invariant 1 <= i <= n
        invariant forall k :: n <= k < 2 * n ==> a[k] == LeafAt(PADDING, leaves, k - n)
        invariant forall k :: i <= k < n ==> a[k] == h.pair(a[2 * k], a[2 * k + 1])
      {
        i := i - 1;
        a[i] := h.pair(a[2 * i], a[2 * i + 1]);
      }
      this.h, this.leaves, this.depth, nodes := h, leaves, depth, a;
    }

    method Root() returns (r: Digest)
      requires Valid()
      ensures r == Node(h.pair, PADDING, leaves, depth, 0)
    {
      HeapIsTree(h.pair, nodes[..], leaves, depth, depth, 0);
      r := nodes[1];
    }

    /** The proof handed out for `index` is its path in the padded tree. */
    method Prove(index: nat) returns (path: seq<Digest>, indices: seq<bool>)
      requires Valid() && index < Pow2(depth)
      ensures path == Path(h.pair, PADDING, leaves, 0, index, depth) && indices == Bits(index, depth)
    {
      path, indices := [], [];
      var k := Pow2(depth) + index;
      ghost var i: nat := index;
      for l := 0 to depth
        invariant k == Pow2(depth - l) + i && i == Anc(index, l) && i < Pow2(depth - l) && |path| == l
        invariant Collected(h.pair, PADDING, leaves, index, path, indices)
      {
        HeapStep(h.pair, nodes[..], leaves, depth, l, i);
        var right := k % 2 == 1;
        var sib := nodes[if right then k - 1 else k + 1];
        CollectedNext(h.pair, PADDING, leaves, index, path, indices, sib);
        path, indices := path + [sib], indices + [right];
        k := k / 2;
        i := i / 2;
      }
      CollectedIsPath(h.pair, PADDING, leaves, index, path, indices);
    }
  }

  // ----- root recomputation -----

  /** Membership verification and the single-leaf update run the same loop. */
  method ComputeSingleLeafRoot(h: Sha, leaf: Digest, path: seq<Digest>, indices: seq<bool>) returns (r: Digest)
    ensures r == Fold(h.pair, leaf, path, indices)
  {
    r := leaf;
    var i := 0;
    while i < |path| && i < |indices|
      invariant i <= |path| && i <= |indices|
      invariant Fold(h.pair, r, path[i..], indices[i..]) == Fold(h.pair, leaf, path, indices)
    {
      r := Up(h.pair, r, path[i], indices[i]);
      i := i + 1;
    }
  }

  /** Highest position below `n` at which the index vectors differ; `None` is the panic for equal
      vectors or for a recipient vector that is too short. */
  function Divergence(a: seq<bool>, b: seq<bool>, n: nat): Option<nat>
    requires n <= |a|
  {
    if n == 0 || n > |b| then None
    else if a[n - 1] != b[n - 1] then Some(n - 1)
    else Divergence(a, b, n - 1)
  }

  datatype Branch = Branch(leaf: Digest, indices: seq<bool>, path: seq<Digest>)

  /** The dual-leaf root; `None` where the code panics on a missing divergence or a short vector. */
  function NewRoot(h: Sha, s: Branch, r: Branch): Option<Digest> {
    match Divergence(s.indices, r.indices, |s.indices|)
    case None => None
    case Some(d) =>
      DivergenceDiffers(s.indices, r.indices, |s.indices|);
      if |s.path| < d || |r.path| < d || (d + 1 < |s.indices| && |s.path| < |s.indices|) then None
      else
        var x := Fold(h.pair, s.leaf, s.path[..d], s.indices[..d]);
        var y := Fold(h.pair, r.leaf, r.path[..d], r.indices[..d]);
        var join := if s.indices[d] then h.pair(y, x) else h.pair(x, y);
        if d + 1 < |s.indices| then Some(Fold(h.pair, join, s.path[d + 1..], s.indices[d + 1..])) else Some(join)
  }

  lemma {:induction false} DivergenceDiffers(a: seq<bool>, b: seq<bool>, n: nat)
    requires n <= |a|
    ensures match Divergence(a, b, n)
            case Some(d) => d < n <= |b| && a[d] != b[d] && forall k :: d < k < n ==> a[k] == b[k]
            case None => n > |b| || forall k :: 0 <= k < n ==> a[k] == b[k]
    decreases n
  {
    if 0 < n <= |b| && a[n - 1] == b[n - 1] {
      DivergenceDiffers(a, b, n - 1);
    }
  }

  method ComputeNewRoot(h: Sha, s: Branch, r: Branch) returns (root: Option<Digest>)
    ensures root == NewRoot(h, s, r)
  {
    var n := |s.indices|;
    DivergenceDiffers(s.indices, r.indices, n);
    var d := n;
    while d > 0 && d <= |r.indices| && s.indices[d - 1] == r.indices[d - 1]
      invariant 0 <= d <= n
      invariant Divergence(s.indices, r.indices, d) == Divergence(s.indices, r.indices, n)
    {
      d := d - 1;
    }
    if d == 0 || d > |r.indices| {
      return None;
    }
    d := d - 1;
    if |s.path| < d || |r.path| < d || (d + 1 < n && |s.path| < n) {
      return None;
    }
    var x := ComputeSingleLeafRoot(h, s.leaf, s.path[..d], s.indices[..d]);
    var y := ComputeSingleLeafRoot(h, r.leaf, r.path[..d], r.indices[..d]);
    var current := if s.indices[d] then h.pair(y, x) else h.pair(x, y);
    if d + 1 < n {
      current := ComputeSingleLeafRoot(h, current, s.path[d + 1..], s.indices[d + 1..]);
    }
    return Some(current);
  }

  // ----- transitions -----

  datatype Transfer = Transfer(
    sk: Digest, senderBalance: u64, senderSalt: Digest, senderPath: seq<Digest>, senderIndices: seq<bool>,
    amount: u64,
    recipient: Digest, recipientBalance: u64, recipientSalt: Digest, recipientPath: seq<Digest>,
    recipientIndices: seq<bool>,
    newSenderSalt: Digest, newRecipientSalt: Digest)

  function OldSender(h: Sha, t: Transfer): Account {
    Account(h.pub(t.sk), t.senderBalance, t.senderSalt)
  }

  function OldRecipient(t: Transfer): Account {
    Account(t.recipient, t.recipientBalance, t.recipientSalt)
  }

  predicate Fits(t: Transfer) {
    0 < t.amount <= t.senderBalance && t.recipientBalance + t.amount < TWO_64
  }

  function NewSender(h: Sha, t: Transfer): Account
    requires Fits(t)
  {
    Account(h.pub(t.sk), t.senderBalance - t.amount, t.newSenderSalt)
  }

  function NewRecipient(t: Transfer): Account
    requires Fits(t)
  {
    Account(t.recipient, t.recipientBalance + t.amount, t.newRecipientSalt)
  }

  /** Two different accounts, both in the tree under `oldRoot`. */
  ghost predicate KnownAccounts(h: Sha, t: Transfer, oldRoot: Digest) {
    && h.pub(t.sk) != t.recipient
    && Fold(h.pair, Commit(h, OldSender(h, t)), t.senderPath, t.senderIndices) == oldRoot
    && Fold(h.pair, Commit(h, OldRecipient(t)), t.recipientPath, t.recipientIndices) == oldRoot
  }

  /** What `VerifyTransfer` accepts. */
  ghost predicate Accepts(h: Sha, t: Transfer, oldRoot: Digest, newRoot: Digest) {
    && KnownAccounts(h, t, oldRoot)
    && Fits(t)
    && NewRoot(h, Branch(Commit(h, NewSender(h, t)), t.senderIndices, t.senderPath),
                  Branch(Commit(h, NewRecipient(t)), t.recipientIndices, t.recipientPath)) == Some(newRoot)
  }

  method VerifyAccounts(h: Sha, t: Transfer, oldRoot: Digest) returns (ok: bool)
    ensures ok == KnownAccounts(h, t, oldRoot)
  {
    var pubkey := h.pub(t.sk);
    if pubkey == t.recipient {
      return false;
    }
    var sender := ComputeSingleLeafRoot(h, h.account(pubkey, t.senderBalance, t.senderSalt), t.senderPath,
                                        t.senderIndices);
    if sender != oldRoot {
      return false;
    }
    var recipient := ComputeSingleLeafRoot(h, h.account(t.recipient, t.recipientBalance, t.recipientSalt),
                                           t.recipientPath, t.recipientIndices);
    return recipient == oldRoot;
  }

  method VerifyTransfer(h: Sha, t: Transfer, oldRoot: Digest, newRoot: Digest) returns (ok: bool)
    ensures ok == Accepts(h, t, oldRoot, newRoot)
  {
    var known := VerifyAccounts(h, t, oldRoot);
    if !known || t.amount == 0 || t.senderBalance < t.amount || t.recipientBalance > TWO_64 - 1 - t.amount {
      return false;
    }
    var senderLeaf := h.account(h.pub(t.sk), t.senderBalance - t.amount, t.newSenderSalt);
    var recipientLeaf := h.account(t.recipient, t.recipientBalance + t.amount, t.newRecipientSalt);
    var computed := ComputeNewRoot(h, Branch(senderLeaf, t.senderIndices, t.senderPath),
                                      Branch(recipientLeaf, t.recipientIndices, t.recipientPath));
    return computed == Some(newRoot);
  }

  datatype Withdrawal = Withdrawal(
    sk: Digest, balance: u64, salt: Digest, path: seq<Digest>, indices: seq<bool>, amount: u64, newSalt: Digest)

  ghost predicate AcceptsWithdrawal(h: Sha, w: Withdrawal, oldRoot: Digest, newRoot: Digest) {
    && Fold(h.pair, h.account(h.pub(w.sk), w.balance, w.salt), w.path, w.indices) == oldRoot
    && 0 < w.amount <= w.balance
    && Fold(h.pair, h.account(h.pub(w.sk), w.balance - w.amount, w.newSalt), w.path, w.indices) == newRoot
  }

  method VerifyWithdrawal(h: Sha, w: Withdrawal, oldRoot: Digest, newRoot: Digest) returns (ok: bool)
    ensures ok == AcceptsWithdrawal(h, w, oldRoot, newRoot)
  {
    var pubkey := h.pub(w.sk);
    var before := ComputeSingleLeafRoot(h, h.account(pubkey, w.balance, w.salt), w.path, w.indices);
    if before != oldRoot || w.amount == 0 || w.balance < w.amount {
      return false;
    }
    var computed := ComputeSingleLeafRoot(h, h.account(pubkey, w.balance - w.amount, w.newSalt), w.path, w.indices);
    return computed == newRoot;
  }
}
