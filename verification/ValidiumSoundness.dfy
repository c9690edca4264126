/** What an accepted transfer or withdrawal means for the committed ledger. */
module ValidiumSoundness {
  import opened Merkle
  import opened Field
  import opened Wrappers
  import opened Validium

  /** SHA-256 without collisions: commitments and parents hash inputs of different lengths, so they are
      apart, and the all-zero padding leaf is neither. */
  ghost predicate CollisionFree(h: Sha) {
    && Injective(h.pair)
    && (forall a, b, c, d, e, f {:trigger h.account(a, b, c), h.account(d, e, f)} ::
          h.account(a, b, c) == h.account(d, e, f) ==> a == d && b == e && c == f)
    && (forall a, b, c, d, e {:trigger h.account(a, b, c), h.pair(d, e)} :: h.account(a, b, c) != h.pair(d, e))
    && (forall a, b, c {:trigger h.account(a, b, c)} :: h.account(a, b, c) != PADDING)
    && (forall a, b {:trigger h.pair(a, b)} :: h.pair(a, b) != PADDING)
  }

  // ----- inclusion proofs of any length -----

  lemma LeafIsNoPair(h: Sha, ledger: seq<Account>, i: nat, l: Digest, r: Digest)
    requires CollisionFree(h)
    ensures LeafAt(PADDING, Commitments(h, ledger), i) != h.pair(l, r)
  {
  }

  lemma AccountIsNoPair(h: Sha, a: Account, l: Digest, r: Digest)
    requires CollisionFree(h)
    ensures Commit(h, a) != h.pair(l, r)
  {
    assert h.account(a.pubkey, a.balance, a.salt) != h.pair(l, r);
  }

  lemma NotTooShort(h: Sha, ledger: seq<Account>, depth: nat, a: Account, path: seq<Digest>, bits: seq<bool>)
    requires CollisionFree(h) && |path| == |bits| < depth
    ensures Fold(h.pair, Commit(h, a), path, bits) != LedgerRoot(h, ledger, depth)
  {
    var s, level := Commitments(h, ledger), depth - |bits|;
    var i := Descend(0, bits);
    AccountIsNoPair(h, a, Node(h.pair, PADDING, s, level - 1, 2 * i), Node(h.pair, PADDING, s, level - 1, 2 * i + 1));
    if Fold(h.pair, Commit(h, a), path, bits) == LedgerRoot(h, ledger, depth) {
      FoldSound(h.pair, PADDING, s, level, 0, Commit(h, a), path, bits);
    }
  }

  lemma NotTooLong(h: Sha, ledger: seq<Account>, depth: nat, cur: Digest, path: seq<Digest>, bits: seq<bool>)
    requires CollisionFree(h) && |path| == |bits| > depth
    ensures Fold(h.pair, cur, path, bits) != LedgerRoot(h, ledger, depth)
  {
    var k := |bits| - depth;
    var l, r := FoldIsPair(h.pair, cur, path[..k], bits[..k]);
    assert path == path[..k] + path[k..] && bits == bits[..k] + bits[k..];
    FoldConcat(h.pair, cur, path[..k], bits[..k], path[k..], bits[k..]);
    if Fold(h.pair, cur, path, bits) == LedgerRoot(h, ledger, depth) {
      FoldSound(h.pair, PADDING, Commitments(h, ledger), 0, 0, h.pair(l, r), path[k..], bits[k..]);
      LeafIsNoPair(h, ledger, Descend(0, bits[k..]), l, r);
    }
  }

  /** Membership soundness: the proof names a slot of the ledger that holds the account. */
  lemma MemberSound(h: Sha, ledger: seq<Account>, depth: nat, a: Account, path: seq<Digest>, bits: seq<bool>)
    returns (i: nat)
    requires CollisionFree(h) && |ledger| <= Pow2(depth)
    requires Fold(h.pair, Commit(h, a), path, bits) == LedgerRoot(h, ledger, depth)
    ensures |path| >= depth && |bits| >= depth && (|path| == depth || |bits| == depth)
    ensures i < |ledger| && ledger[i] == a
    ensures path[..depth] == Path(h.pair, PADDING, Commitments(h, ledger), 0, i, depth)
    ensures bits[..depth] == Bits(i, depth)
  {
    var n := if |path| <= |bits| then |path| else |bits|;
    FoldTrim(h.pair, Commit(h, a), path, bits, n);
    if n < depth {
      NotTooShort(h, ledger, depth, a, path[..n], bits[..n]);
    } else if depth < n {
      NotTooLong(h, ledger, depth, Commit(h, a), path[..n], bits[..n]);
    }
    FoldSound(h.pair, PADDING, Commitments(h, ledger), 0, 0, Commit(h, a), path[..n], bits[..n]);
    i := Descend(0, bits[..n]);
    BitsDescend(0, bits[..n]);
  }

  // ----- sums -----

  lemma {:induction false} TotalUpdate(ledger: seq<Account>, i: nat, a: Account)
    requires i < |ledger|
    ensures Total(ledger[i := a]) == Total(ledger) - ledger[i].balance + a.balance
  {
    if i == 0 {
      assert ledger[i := a][1..] == ledger[1..];
    } else {
      assert ledger[i := a][1..] == ledger[1..][i - 1 := a];
      TotalUpdate(ledger[1..], i - 1, a);
    }
  }

  // ----- withdrawal -----

  /** An accepted withdrawal, with vectors of any length, replaces exactly one leaf of the committed
      ledger and lowers the total by exactly the amount. */
  lemma WithdrawalSound(h: Sha, ledger: seq<Account>, depth: nat, w: Withdrawal, newRoot: Digest) returns (i: nat)
    requires CollisionFree(h) && |ledger| <= Pow2(depth)
    requires AcceptsWithdrawal(h, w, LedgerRoot(h, ledger, depth), newRoot)
    ensures i < |ledger| && ledger[i] == Account(h.pub(w.sk), w.balance, w.salt) && 0 < w.amount <= ledger[i].balance
    ensures var next := ledger[i := Account(h.pub(w.sk), w.balance - w.amount, w.newSalt)];
            newRoot == LedgerRoot(h, next, depth) && Total(next) == Total(ledger) - w.amount
  {
    i := MemberSound(h, ledger, depth, Account(h.pub(w.sk), w.balance, w.salt), w.path, w.indices);
    var a := Account(h.pub(w.sk), w.balance - w.amount, w.newSalt);
    var s, t := Commitments(h, ledger), Commitments(h, ledger[i := a]);
    FoldTrim(h.pair, Commit(h, a), w.path, w.indices, depth);
    assert AgreeOff(PADDING, s, t, i);
    FoldReplaced(h.pair, PADDING, s, t, i, depth);
    TotalUpdate(ledger, i, a);
  }

  // ----- transfer -----

  /** The ledger a transfer is meant to lead to. */
  ghost function After(h: Sha, ledger: seq<Account>, t: Transfer, i: nat, j: nat): seq<Account>
    requires Fits(t) && i < |ledger| && j < |ledger|
  {
    ledger[i := NewSender(h, t)][j := NewRecipient(t)]
  }

  /** Positions that first differ at bit `d` (from the top) part at level `d`. */
  lemma DivergencePart(i: nat, j: nat, depth: nat, d: nat)
    requires i < Pow2(depth) && j < Pow2(depth) && d < depth
    requires Bits(i, depth)[d] != Bits(j, depth)[d] && Bits(i, depth)[d + 1..] == Bits(j, depth)[d + 1..]
    ensures Part(i, j, d)
  {
    BitsTail(i, depth, d);
    BitsTail(j, depth, d);
    BitsTail(i, depth, d + 1);
    BitsTail(j, depth, d + 1);
  }

  lemma BitsTail(i: nat, depth: nat, d: nat)
    requires i < Pow2(depth) && d <= depth
    ensures d < depth ==> Bits(i, depth)[d] == (Anc(i, d) % 2 == 1)
    ensures Bits(i, depth)[..d] == Bits(i, d)
    ensures Bits(i, depth)[d..] == Bits(Anc(i, d), depth - d)
    ensures Anc(i, d) == Descend(0, Bits(i, depth)[d..])
  {
    PathSplit((a: int, b) => 0, 0, [], 0, i, depth, d);
    DescendBits(Anc(i, d), depth - d);
    AncAnc(i, d, depth - d);
    AncTop(i, depth);
  }

  /** A branch of the tree over `s`: the slot's directions and genuine siblings, and a new leaf for it. */
  ghost predicate BranchOf(h: Sha, s: seq<Digest>, depth: nat, i: nat, b: Branch) {
    && i < |s| <= Pow2(depth) && |b.indices| >= depth && |b.path| >= depth
    && b.indices[..depth] == Bits(i, depth) && b.path[..depth] == Path(h.pair, PADDING, s, 0, i, depth)
  }

  lemma BranchLower(h: Sha, s: seq<Digest>, depth: nat, i: nat, b: Branch, d: nat)
    requires BranchOf(h, s, depth, i, b) && d < depth
    ensures b.indices[..d] == Bits(i, d) && b.indices[d] == (Anc(i, d) % 2 == 1)
    ensures b.path[..d] == Path(h.pair, PADDING, s, 0, i, d)
  {
    BitsTail(i, depth, d);
    PathSplit(h.pair, PADDING, s, 0, i, depth, d);
    assert b.indices[..d] == b.indices[..depth][..d] && b.indices[d] == b.indices[..depth][d];
    assert b.path[..d] == b.path[..depth][..d];
  }

  lemma BranchUpper(h: Sha, s: seq<Digest>, depth: nat, i: nat, b: Branch, d: nat, cur: Digest)
    requires BranchOf(h, s, depth, i, b) && d <= depth && |b.indices| == depth
    ensures Fold(h.pair, cur, b.path[d..], b.indices[d..])
         == Fold(h.pair, cur, Path(h.pair, PADDING, s, d, Anc(i, d), depth), Bits(Anc(i, d), depth - d))
  {
    BitsTail(i, depth, d);
    PathSplit(h.pair, PADDING, s, 0, i, depth, d);
    FoldTrim(h.pair, cur, b.path[d..], b.indices[d..], depth - d);
    assert b.path[d..][..depth - d] == b.path[..depth][d..];
    assert b.indices[d..][..depth - d] == b.indices[..depth][d..];
  }

  lemma BitsInjective(i: nat, j: nat, depth: nat)
    requires i < Pow2(depth) && j < Pow2(depth) && Bits(i, depth) == Bits(j, depth)
    ensures i == j
  {
    BitsTail(i, depth, 0);
    BitsTail(j, depth, 0);
  }

  /** Directions that agree from the top down to `lo`. */
  lemma SameFrom(a: seq<bool>, b: seq<bool>, lo: nat, n: nat)
    requires lo <= n <= |a| && n <= |b| && forall k :: lo <= k < n ==> a[k] == b[k]
    ensures a[..n][lo..] == b[..n][lo..]
  {
  }

  lemma BranchesDiverge(h: Sha, s: seq<Digest>, depth: nat, i: nat, j: nat, b: Branch, c: Branch) returns (d: nat)
    requires BranchOf(h, s, depth, i, b) && BranchOf(h, s, depth, j, c) && |b.indices| == depth && i != j
    ensures Divergence(b.indices, c.indices, depth) == Some(d) && d < depth && Part(i, j, d)
  {
    DivergenceDiffers(b.indices, c.indices, depth);
    if Divergence(b.indices, c.indices, depth).None? {
      SameFrom(b.indices, c.indices, 0, depth);
      BitsInjective(i, j, depth);
    }
    d := Divergence(b.indices, c.indices, depth).value;
    SameFrom(b.indices, c.indices, d + 1, depth);
    DivergencePart(i, j, depth, d);
  }

  /** The dual-leaf recomputation over genuine branches of two different slots is the root with both
      leaves replaced. */
  lemma NewRootOfTwo(h: Sha, s: seq<Digest>, depth: nat, i: nat, j: nat, b: Branch, c: Branch)
    requires BranchOf(h, s, depth, i, b) && BranchOf(h, s, depth, j, c) && |b.indices| == depth && i != j
    ensures NewRoot(h, b, c) == Some(Node(h.pair, PADDING, s[i := b.leaf][j := c.leaf], depth, 0))
  {
    var d := BranchesDiverge(h, s, depth, i, j, b, c);
    BranchLower(h, s, depth, i, b, d);
    BranchLower(h, s, depth, j, c, d);
    FoldTwoReplaced(h.pair, PADDING, s, b.leaf, c.leaf, i, j, d, depth);
    var x := Fold(h.pair, b.leaf, b.path[..d], b.indices[..d]);
    var y := Fold(h.pair, c.leaf, c.path[..d], c.indices[..d]);
    BranchUpper(h, s, depth, i, b, d + 1, if b.indices[d] then h.pair(y, x) else h.pair(x, y));
  }

  /** A root one level too high is never the root of a ledger. */
  lemma {:induction false} DepthMismatch(h: Sha, a: seq<Account>, b: seq<Account>, level: nat, i: nat, j: nat)
    requires CollisionFree(h)
    ensures Node(h.pair, PADDING, Commitments(h, a), level + 1, i) != Node(h.pair, PADDING, Commitments(h, b), level, j)
    decreases level
  {
    if level == 0 {
      LeafIsNoPair(h, b, j, Node(h.pair, PADDING, Commitments(h, a), 0, 2 * i),
                   Node(h.pair, PADDING, Commitments(h, a), 0, 2 * i + 1));
    } else {
      DepthMismatch(h, a, b, level - 1, 2 * i, 2 * j);
    }
  }

  /** With one direction too many, the recomputation joins the two one-leaf roots one level too high, the sender's
      on the side of its extra direction. */
  lemma OverlongRoot(h: Sha, ledger: seq<Account>, depth: nat, i: nat, j: nat, b: Branch, c: Branch, a: Account,
                     e: Account)
    requires BranchOf(h, Commitments(h, ledger), depth, i, b) && BranchOf(h, Commitments(h, ledger), depth, j, c)
    requires b.leaf == Commit(h, a) && c.leaf == Commit(h, e)
    requires |b.indices| > |b.path| == depth && NewRoot(h, b, c).Some?
    ensures |b.indices| == depth + 1
    ensures var x, y := LedgerRoot(h, ledger[i := a], depth), LedgerRoot(h, ledger[j := e], depth);
            NewRoot(h, b, c) == Some(if b.indices[depth] then h.pair(y, x) else h.pair(x, y))
  {
    var s := Commitments(h, ledger);
    var d := Divergence(b.indices, c.indices, |b.indices|).value;
    DivergenceDiffers(b.indices, c.indices, |b.indices|);
    assert d == depth;
    FoldReplaced(h.pair, PADDING, s, Commitments(h, ledger[i := a]), i, depth);
    FoldReplaced(h.pair, PADDING, s, Commitments(h, ledger[j := e]), j, depth);
  }

  lemma OverlongRootIsWrong(h: Sha, a: seq<Account>, next: seq<Account>, depth: nat, y: Digest)
    requires CollisionFree(h)
    ensures h.pair(LedgerRoot(h, a, depth), y) != LedgerRoot(h, next, depth)
  {
    if depth == 0 {
      LeafIsNoPair(h, next, 0, LedgerRoot(h, a, depth), y);
    } else {
      DepthMismatch(h, a, next, depth - 1, 0, 0);
    }
  }

  /** The new root of an accepted transfer between slots `i` and `j`: the root of the updated ledger if
      and only if the sender's index vector is no longer than the sender's path. */
  lemma TransferRoot(h: Sha, ledger: seq<Account>, depth: nat, t: Transfer, i: nat, j: nat, b: Branch, c: Branch)
    requires CollisionFree(h) && Fits(t) && i != j
    requires b == Branch(Commit(h, NewSender(h, t)), t.senderIndices, t.senderPath)
    requires c == Branch(Commit(h, NewRecipient(t)), t.recipientIndices, t.recipientPath)
    requires BranchOf(h, Commitments(h, ledger), depth, i, b) && BranchOf(h, Commitments(h, ledger), depth, j, c)
    requires (|b.path| == depth || |b.indices| == depth) && NewRoot(h, b, c).Some?
    ensures |b.indices| <= |b.path| ==> NewRoot(h, b, c) == Some(LedgerRoot(h, After(h, ledger, t, i, j), depth))
    ensures |b.indices| > |b.path| ==> OfNoLedger(h, NewRoot(h, b, c).value, depth)
  {
    if |b.indices| <= |b.path| {
      NewRootOfTwo(h, Commitments(h, ledger), depth, i, j, b, c);
      assert Commitments(h, ledger)[i := b.leaf][j := c.leaf] == Commitments(h, After(h, ledger, t, i, j));
    } else {
      var sender, recipient := ledger[i := NewSender(h, t)], ledger[j := NewRecipient(t)];
      OverlongRoot(h, ledger, depth, i, j, b, c, NewSender(h, t), NewRecipient(t));
      forall next {:trigger LedgerRoot(h, next, depth)} ensures NewRoot(h, b, c).value != LedgerRoot(h, next, depth) {
        OverlongRootIsWrong(h, sender, next, depth, LedgerRoot(h, recipient, depth));
        OverlongRootIsWrong(h, recipient, next, depth, LedgerRoot(h, sender, depth));
      }
    }
  }

  /** No ledger of this depth has the root. */
  ghost predicate OfNoLedger(h: Sha, root: Digest, depth: nat) {
    forall next {:trigger LedgerRoot(h, next, depth)} :: root != LedgerRoot(h, next, depth)
  }

  lemma TotalOfTransfer(h: Sha, ledger: seq<Account>, t: Transfer, i: nat, j: nat)
    requires Fits(t) && i < |ledger| && j < |ledger| && i != j
    requires ledger[i] == OldSender(h, t) && ledger[j] == OldRecipient(t)
    ensures Total(After(h, ledger, t, i, j)) == Total(ledger)
  {
    TotalUpdate(ledger, i, NewSender(h, t));
    TotalUpdate(ledger[i := NewSender(h, t)], j, NewRecipient(t));
  }

  /** Soundness of a transfer accepted against the root of a committed ledger, for vectors of any
      length. It names two different slots that hold the two accounts; the total of the ledger it
      describes is unchanged; and its new root is the root of that ledger, with exactly those two leaves
      replaced, if and only if the sender's index vector is no longer than the sender's path. With a longer
      one it is the root of no ledger of that depth at all. */
  lemma TransferSound(h: Sha, ledger: seq<Account>, depth: nat, t: Transfer, newRoot: Digest) returns (i: nat, j: nat)
    requires CollisionFree(h) && |ledger| <= Pow2(depth)
    requires Accepts(h, t, LedgerRoot(h, ledger, depth), newRoot)
    ensures i < |ledger| && j < |ledger| && i != j
    ensures ledger[i] == Account(h.pub(t.sk), t.senderBalance, t.senderSalt) && 0 < t.amount <= ledger[i].balance
    ensures ledger[j] == Account(t.recipient, t.recipientBalance, t.recipientSalt)
    ensures After(h, ledger, t, i, j)[i] == Account(h.pub(t.sk), t.senderBalance - t.amount, t.newSenderSalt)
    ensures After(h, ledger, t, i, j)[j] == Account(t.recipient, t.recipientBalance + t.amount, t.newRecipientSalt)
    ensures Total(After(h, ledger, t, i, j)) == Total(ledger)
    ensures newRoot == LedgerRoot(h, After(h, ledger, t, i, j), depth) <==> |t.senderIndices| <= |t.senderPath|
    ensures |t.senderIndices| > |t.senderPath| ==> OfNoLedger(h, newRoot, depth)
  {
    i := MemberSound(h, ledger, depth, OldSender(h, t), t.senderPath, t.senderIndices);
    j := MemberSound(h, ledger, depth, OldRecipient(t), t.recipientPath, t.recipientIndices);
    TotalOfTransfer(h, ledger, t, i, j);
    TransferRoot(h, ledger, depth, t, i, j,
                 Branch(Commit(h, NewSender(h, t)), t.senderIndices, t.senderPath),
                 Branch(Commit(h, NewRecipient(t)), t.recipientIndices, t.recipientPath));
  }

  /** The excluded family is inhabited: whatever the ledger, a transfer between two of its accounts whose
      index vectors carry one extra, differing direction is accepted. */
  lemma OverlongIndicesAccepted(h: Sha, ledger: seq<Account>, depth: nat, i: nat, j: nat, sk: Digest, amount: u64)
    returns (t: Transfer, newRoot: Digest)
    requires |ledger| <= Pow2(depth) && i < |ledger| && j < |ledger|
    requires ledger[i].pubkey == h.pub(sk) != ledger[j].pubkey
    requires 0 < amount <= ledger[i].balance && ledger[j].balance + amount < TWO_64
    ensures Accepts(h, t, LedgerRoot(h, ledger, depth), newRoot)
    ensures |t.senderIndices| == |t.senderPath| + 1
  {
    var s := Commitments(h, ledger);
    var p, q := Path(h.pair, PADDING, s, 0, i, depth), Path(h.pair, PADDING, s, 0, j, depth);
    t := Transfer(sk, ledger[i].balance, ledger[i].salt, p, Bits(i, depth) + [true], amount,
                  ledger[j].pubkey, ledger[j].balance, ledger[j].salt, q, Bits(j, depth) + [false], 0, 0);
    assert ledger[i] == OldSender(h, t) && ledger[j] == OldRecipient(t);
    OwnFold(h, ledger, depth, i, [true]);
    OwnFold(h, ledger, depth, j, [false]);
    var b := Branch(Commit(h, NewSender(h, t)), t.senderIndices, p);
    var c := Branch(Commit(h, NewRecipient(t)), t.recipientIndices, q);
    assert Divergence(b.indices, c.indices, depth + 1) == Some(depth);
    newRoot := NewRoot(h, b, c).value;
  }

  lemma OwnFold(h: Sha, ledger: seq<Account>, depth: nat, i: nat, extra: seq<bool>)
    requires |ledger| <= Pow2(depth) && i < |ledger|
    ensures Fold(h.pair, Commit(h, ledger[i]), Path(h.pair, PADDING, Commitments(h, ledger), 0, i, depth),
                 Bits(i, depth) + extra)
         == LedgerRoot(h, ledger, depth)
  {
    var p, b := Path(h.pair, PADDING, Commitments(h, ledger), 0, i, depth), Bits(i, depth) + extra;
    FoldTrim(h.pair, Commit(h, ledger[i]), p, b, depth);
    assert p[..depth] == p && b[..depth] == Bits(i, depth);
    FoldPath(h.pair, PADDING, Commitments(h, ledger), 0, i, depth);
    AncTop(i, depth);
  }

  ghost function GenuineBranch(h: Sha, ledger: seq<Account>, depth: nat, i: nat, a: Account): Branch {
    Branch(Commit(h, a), Bits(i, depth), Path(h.pair, PADDING, Commitments(h, ledger), 0, i, depth))
  }

  /** Writing two accounts along genuine branches gives the root of the ledger with both written. */
  lemma GenuineNewRoot(h: Sha, ledger: seq<Account>, depth: nat, i: nat, j: nat, a: Account, e: Account)
    requires |ledger| <= Pow2(depth) && i < |ledger| && j < |ledger| && i != j
    ensures NewRoot(h, GenuineBranch(h, ledger, depth, i, a), GenuineBranch(h, ledger, depth, j, e))
         == Some(LedgerRoot(h, ledger[i := a][j := e], depth))
  {
    var b, c, s := GenuineBranch(h, ledger, depth, i, a), GenuineBranch(h, ledger, depth, j, e), Commitments(h, ledger);
    assert b.indices[..depth] == b.indices && c.indices[..depth] == c.indices;
    assert b.path[..depth] == b.path && c.path[..depth] == c.path;
    NewRootOfTwo(h, s, depth, i, j, b, c);
    assert s[i := b.leaf][j := c.leaf] == Commitments(h, ledger[i := a][j := e]);
  }

  lemma GenuineFold(h: Sha, ledger: seq<Account>, depth: nat, i: nat)
    requires |ledger| <= Pow2(depth) && i < |ledger|
    ensures var b := GenuineBranch(h, ledger, depth, i, ledger[i]);
            Fold(h.pair, b.leaf, b.path, b.indices) == LedgerRoot(h, ledger, depth)
  {
    OwnFold(h, ledger, depth, i, []);
    assert Bits(i, depth) + [] == Bits(i, depth);
  }

  /** Completeness: every transfer a ledger can pay, with the two genuine paths, is accepted and leads to
      the root of the updated ledger. */
  lemma TransferComplete(h: Sha, ledger: seq<Account>, depth: nat, t: Transfer, i: nat, j: nat)
    requires |ledger| <= Pow2(depth) && i < |ledger| && j < |ledger| && Fits(t)
    requires ledger[i] == OldSender(h, t) && ledger[j] == OldRecipient(t) && h.pub(t.sk) != t.recipient
    requires t.senderPath == Path(h.pair, PADDING, Commitments(h, ledger), 0, i, depth)
    requires t.senderIndices == Bits(i, depth)
    requires t.recipientPath == Path(h.pair, PADDING, Commitments(h, ledger), 0, j, depth)
    requires t.recipientIndices == Bits(j, depth)
    ensures Accepts(h, t, LedgerRoot(h, ledger, depth), LedgerRoot(h, After(h, ledger, t, i, j), depth))
  {
    GenuineFold(h, ledger, depth, i);
    GenuineFold(h, ledger, depth, j);
    GenuineNewRoot(h, ledger, depth, i, j, NewSender(h, t), NewRecipient(t));
  }

  /** Completeness: every withdrawal an account covers, with its genuine path, is accepted and leads to the root of
      the ledger with that account lowered. */
  lemma WithdrawalComplete(h: Sha, ledger: seq<Account>, depth: nat, w: Withdrawal, i: nat)
    requires |ledger| <= Pow2(depth) && i < |ledger| && 0 < w.amount <= w.balance
    requires ledger[i] == Account(h.pub(w.sk), w.balance, w.salt)
    requires w.path == Path(h.pair, PADDING, Commitments(h, ledger), 0, i, depth) && w.indices == Bits(i, depth)
    ensures var next := ledger[i := Account(h.pub(w.sk), w.balance - w.amount, w.newSalt)];
            AcceptsWithdrawal(h, w, LedgerRoot(h, ledger, depth), LedgerRoot(h, next, depth))
  {
    var next := ledger[i := Account(h.pub(w.sk), w.balance - w.amount, w.newSalt)];
    GenuineFold(h, ledger, depth, i);
    assert AgreeOff(PADDING, Commitments(h, ledger), Commitments(h, next), i);
    FoldReplaced(h.pair, PADDING, Commitments(h, ledger), Commitments(h, next), i, depth);
  }

  // ----- whole runs -----

  /** A state transition the bridge accepted, with the root it moved to. */
  datatype Step = Transferred(transfer: Transfer, root: Digest) | Withdrawn(withdrawal: Withdrawal, root: Digest)

  /** Every step passes the checks of the code. */
  ghost predicate AcceptedRun(h: Sha, root: Digest, steps: seq<Step>)
    decreases |steps|
  {
    |steps| == 0 || (
    && (match steps[0]
        case Transferred(t, next) => Accepts(h, t, root, next)
        case Withdrawn(w, next) => AcceptsWithdrawal(h, w, root, next))
    && AcceptedRun(h, steps[0].root, steps[1..]))
  }

  /** The guard the code lacks: no sender's index vector is longer than its path. */
  ghost predicate LengthsFit(steps: seq<Step>) {
    forall k :: 0 <= k < |steps| && steps[k].Transferred? ==>
      |steps[k].transfer.senderIndices| <= |steps[k].transfer.senderPath|
  }

  function Paid(steps: seq<Step>): nat {
    if |steps| == 0 then 0
    else (if steps[0].Withdrawn? then steps[0].withdrawal.amount else 0) + Paid(steps[1..])
  }

  /** Conservation over every accepted run without over-long index vectors: the last root commits to a ledger of the
      same accounts whose total is the first total less what was withdrawn; so in such a run withdrawals never exceed
      what was deposited. */
  lemma {:induction false} RunConserves(h: Sha, ledger: seq<Account>, depth: nat, steps: seq<Step>)
    returns (last: seq<Account>)
    requires CollisionFree(h) && |ledger| <= Pow2(depth)
    requires AcceptedRun(h, LedgerRoot(h, ledger, depth), steps) && LengthsFit(steps)
    ensures |last| == |ledger| && forall k :: 0 <= k < |ledger| ==> last[k].pubkey == ledger[k].pubkey
    ensures LedgerRoot(h, last, depth) == if |steps| == 0 then LedgerRoot(h, ledger, depth) else steps[|steps| - 1].root
    ensures Total(last) + Paid(steps) == Total(ledger)
    decreases |steps|
  {
    if |steps| == 0 {
      last := ledger;
    } else {
      var next := ledger;
      match steps[0] {
        case Transferred(t, root) =>
          var i, j := TransferSound(h, ledger, depth, t, root);
          next := After(h, ledger, t, i, j);
        case Withdrawn(w, root) =>
          var i := WithdrawalSound(h, ledger, depth, w, root);
          next := ledger[i := Account(h.pub(w.sk), w.balance - w.amount, w.newSalt)];
      }
      last := RunConserves(h, next, depth, steps[1..]);
    }
  }
}
