/** What a transfer with over-long index vectors commits to: a tree one level higher that holds the ledger twice. */
module ValidiumOverlong {
  import opened Merkle
  import opened Field
  import opened Validium
  import opened ValidiumSoundness

  // ----- nodes of concatenated leaves -----

  lemma {:induction false} NodeOfLeft<D>(h: (D, D) -> D, z: D, s: seq<D>, t: seq<D>, depth: nat, level: nat, i: nat)
    requires |s| == Pow2(depth) && level <= depth && i < Pow2(depth - level)
    ensures Node(h, z, s + t, level, i) == Node(h, z, s, level, i)
    decreases level
  {
    if level != 0 {
      NodeOfLeft(h, z, s, t, depth, level - 1, 2 * i);
      NodeOfLeft(h, z, s, t, depth, level - 1, 2 * i + 1);
    }
  }

  lemma {:induction false} NodeOfRight<D>(h: (D, D) -> D, z: D, s: seq<D>, t: seq<D>, depth: nat, level: nat, i: nat)
    requires |s| == Pow2(depth) && level <= depth
    ensures Node(h, z, s + t, level, Pow2(depth - level) + i) == Node(h, z, t, level, i)
    decreases level
  {
    if level != 0 {
      assert 2 * (Pow2(depth - level) + i) == Pow2(depth - level + 1) + 2 * i;
      NodeOfRight(h, z, s, t, depth, level - 1, 2 * i);
      NodeOfRight(h, z, s, t, depth, level - 1, 2 * i + 1);
    }
  }

  /** Two full trees side by side. */
  lemma RootOfBoth<D>(h: (D, D) -> D, z: D, s: seq<D>, t: seq<D>, depth: nat)
    requires |s| == Pow2(depth)
    ensures Node(h, z, s + t, depth + 1, 0) == h(Node(h, z, s, depth, 0), Node(h, z, t, depth, 0))
  {
    NodeOfLeft(h, z, s, t, depth, depth, 0);
    NodeOfRight(h, z, s, t, depth, depth, 0);
    assert Pow2(0) == 1;
  }

  /** The leaves with the padding written out. */
  function Padded(s: seq<Digest>, n: nat): (r: seq<Digest>)
    requires |s| <= n
    ensures |r| == n
  {
    seq(n, i requires 0 <= i < n => LeafAt(PADDING, s, i))
  }

  lemma {:induction false} NodeOfPadded(h: (Digest, Digest) -> Digest, s: seq<Digest>, n: nat, level: nat, i: nat)
    requires |s| <= n
    ensures Node(h, PADDING, Padded(s, n), level, i) == Node(h, PADDING, s, level, i)
    decreases level
  {
    if level != 0 {
      NodeOfPadded(h, s, n, level - 1, 2 * i);
      NodeOfPadded(h, s, n, level - 1, 2 * i + 1);
    }
  }

  // ----- the root of an over-long transfer -----

  /** The two halves the new root commits to: one holds the recipient's new account, the other the sender's. */
  ghost function Halves(h: Sha, ledger: seq<Account>, t: Transfer, i: nat, j: nat, right: bool)
    : (seq<Account>, seq<Account>)
    requires Fits(t) && i < |ledger| && j < |ledger|
  {
    var sender, recipient := ledger[i := NewSender(h, t)], ledger[j := NewRecipient(t)];
    if right then (recipient, sender) else (sender, recipient)
  }

  lemma HalvesTotal(h: Sha, ledger: seq<Account>, t: Transfer, i: nat, j: nat, right: bool)
    requires Fits(t) && i < |ledger| && j < |ledger|
    requires ledger[i] == OldSender(h, t) && ledger[j] == OldRecipient(t)
    ensures var (a, b) := Halves(h, ledger, t, i, j, right); Total(a) + Total(b) == 2 * Total(ledger)
  {
    TotalUpdate(ledger, i, NewSender(h, t));
    TotalUpdate(ledger, j, NewRecipient(t));
  }

  /** An accepted transfer with over-long indices has exactly one direction too many, and its new root is that of
      the two halves side by side, one level higher. */
  lemma OverlongCommits(h: Sha, ledger: seq<Account>, depth: nat, t: Transfer, newRoot: Digest) returns (i: nat, j: nat)
    requires CollisionFree(h) && |ledger| <= Pow2(depth)
    requires Accepts(h, t, LedgerRoot(h, ledger, depth), newRoot) && |t.senderIndices| > |t.senderPath|
    ensures i < |ledger| && j < |ledger| && i != j && |t.senderIndices| == depth + 1
    ensures ledger[i] == OldSender(h, t) && ledger[j] == OldRecipient(t)
    ensures var (a, b) := Halves(h, ledger, t, i, j, t.senderIndices[depth]);
            && Total(a) + Total(b) == 2 * Total(ledger)
            && newRoot == Node(h.pair, PADDING,
                               Padded(Commitments(h, a), Pow2(depth)) + Commitments(h, b), depth + 1, 0)
  {
    i := MemberSound(h, ledger, depth, OldSender(h, t), t.senderPath, t.senderIndices);
    j := MemberSound(h, ledger, depth, OldRecipient(t), t.recipientPath, t.recipientIndices);
    OverlongRoot(h, ledger, depth, i, j,
                 Branch(Commit(h, NewSender(h, t)), t.senderIndices, t.senderPath),
                 Branch(Commit(h, NewRecipient(t)), t.recipientIndices, t.recipientPath),
                 NewSender(h, t), NewRecipient(t));
    var halves := Halves(h, ledger, t, i, j, t.senderIndices[depth]);
    HalvesTotal(h, ledger, t, i, j, t.senderIndices[depth]);
    NodeOfPadded(h.pair, Commitments(h, halves.0), Pow2(depth), depth, 0);
    RootOfBoth(h.pair, PADDING, Padded(Commitments(h, halves.0), Pow2(depth)), Commitments(h, halves.1), depth);
  }

  lemma {:induction false} TotalOfBoth(a: seq<Account>, b: seq<Account>)
    ensures Total(a + b) == Total(a) + Total(b)
  {
    if |a| == 0 {
      assert a + b == b;
    } else {
      assert (a + b)[1..] == a[1..] + b;
      TotalOfBoth(a[1..], b);
    }
  }

  /** On a full ledger this is the root of a ledger of the next depth that holds twice the money. */
  lemma OverlongDoubles(h: Sha, ledger: seq<Account>, depth: nat, t: Transfer, newRoot: Digest)
    returns (doubled: seq<Account>)
    requires CollisionFree(h) && |ledger| == Pow2(depth)
    requires Accepts(h, t, LedgerRoot(h, ledger, depth), newRoot) && |t.senderIndices| > |t.senderPath|
    ensures |doubled| == Pow2(depth + 1) && newRoot == LedgerRoot(h, doubled, depth + 1)
    ensures Total(doubled) == 2 * Total(ledger)
    ensures forall k :: 0 <= k < |ledger| ==>
      doubled[k].pubkey == ledger[k].pubkey == doubled[|ledger| + k].pubkey
  {
    var i, j := OverlongCommits(h, ledger, depth, t, newRoot);
    var halves := Halves(h, ledger, t, i, j, t.senderIndices[depth]);
    doubled := halves.0 + halves.1;
    TotalOfBoth(halves.0, halves.1);
    CommitmentsOfBoth(h, halves.0, halves.1, Pow2(depth));
  }

  lemma CommitmentsOfBoth(h: Sha, a: seq<Account>, b: seq<Account>, n: nat)
    requires |a| == n
    ensures Commitments(h, a + b) == Padded(Commitments(h, a), n) + Commitments(h, b)
  {
    assert Padded(Commitments(h, a), n) == Commitments(h, a);
  }

  // ----- runs that pay out more than was deposited -----

  /** `key` gives a secret key for every account of the ledger. */
  ghost predicate Keyed(h: Sha, key: Digest -> Digest, ledger: seq<Account>) {
    forall k :: 0 <= k < |ledger| ==> h.pub(key(ledger[k].pubkey)) == ledger[k].pubkey
  }

  /** The withdrawal of all that account `k` holds. */
  ghost function FullWithdrawal(h: Sha, key: Digest -> Digest, ledger: seq<Account>, depth: nat, k: nat): Withdrawal
    requires k < |ledger|
  {
    var a := ledger[k];
    Withdrawal(key(a.pubkey), a.balance, a.salt, Path(h.pair, PADDING, Commitments(h, ledger), 0, k, depth),
               Bits(k, depth), a.balance, 0)
  }

  /** The accounts from `k` on can be emptied one after the other. */
  lemma {:induction false} Emptied(h: Sha, key: Digest -> Digest, ledger: seq<Account>, depth: nat, k: nat)
    returns (steps: seq<Step>)
    requires |ledger| <= Pow2(depth) && Keyed(h, key, ledger) && k <= |ledger|
    ensures AcceptedRun(h, LedgerRoot(h, ledger, depth), steps) && Paid(steps) == Total(ledger[k..])
    decreases |ledger| - k
  {
    if k == |ledger| {
      steps := [];
    } else {
      assert ledger[k..][1..] == ledger[k + 1..];
      if ledger[k].balance == 0 {
        steps := Emptied(h, key, ledger, depth, k + 1);
      } else {
        var w := FullWithdrawal(h, key, ledger, depth, k);
        var next := ledger[k := Account(ledger[k].pubkey, 0, 0)];
        WithdrawalComplete(h, ledger, depth, w, k);
        var rest := Emptied(h, key, next, depth, k + 1);
        assert next[k + 1..] == ledger[k + 1..];
        steps := [Withdrawn(w, LedgerRoot(h, next, depth))] + rest;
        assert steps[1..] == rest;
      }
    }
  }

  /** Without the guard conservation fails: from every full ledger whose holders can sign, with a transfer to make
      between two different keys, the code accepts a run that pays out twice what was deposited. */
  lemma UnguardedRunPaysDouble(h: Sha, key: Digest -> Digest, ledger: seq<Account>, depth: nat, i: nat, j: nat,
                               amount: u64)
    returns (steps: seq<Step>)
    requires CollisionFree(h) && |ledger| == Pow2(depth) && Keyed(h, key, ledger) && i < |ledger| && j < |ledger|
    requires ledger[i].pubkey != ledger[j].pubkey
    requires 0 < amount <= ledger[i].balance && ledger[j].balance + amount < TWO_64
    ensures AcceptedRun(h, LedgerRoot(h, ledger, depth), steps) && Paid(steps) == 2 * Total(ledger) > Total(ledger)
  {
    var t, root := OverlongIndicesAccepted(h, ledger, depth, i, j, key(ledger[i].pubkey), amount);
    var doubled := OverlongDoubles(h, ledger, depth, t, root);
    DoubledKeyed(h, key, ledger, doubled);
    var rest := Emptied(h, key, doubled, depth + 1, 0);
    assert doubled[0..] == doubled;
    steps := [Transferred(t, root)] + rest;
    assert steps[1..] == rest;
    TotalAtLeast(ledger, i);
  }

  lemma DoubledKeyed(h: Sha, key: Digest -> Digest, ledger: seq<Account>, doubled: seq<Account>)
    requires Keyed(h, key, ledger) && |doubled| == 2 * |ledger|
    requires forall k :: 0 <= k < |ledger| ==> doubled[k].pubkey == ledger[k].pubkey == doubled[|ledger| + k].pubkey
    ensures Keyed(h, key, doubled)
  {
    forall k | 0 <= k < |doubled| ensures h.pub(key(doubled[k].pubkey)) == doubled[k].pubkey {
      var m := if k < |ledger| then k else k - |ledger|;
      assert doubled[m].pubkey == ledger[m].pubkey == doubled[|ledger| + m].pubkey;
    }
  }

  lemma {:induction false} TotalAtLeast(ledger: seq<Account>, i: nat)
    requires i < |ledger|
    ensures ledger[i].balance <= Total(ledger)
  {
    if i != 0 {
      TotalAtLeast(ledger[1..], i - 1);
    }
  }
}
