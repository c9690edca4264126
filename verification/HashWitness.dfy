/** Hashes without collisions exist: the hypotheses of the soundness lemmas can be met. */
module HashWitness {
  import opened Merkle
  import opened Field
  import opened Wrappers
  import Imt
  import opened Validium
  import ValidiumSoundness
  import opened Blob
  import opened Petition
  import opened PetitionInvariant
  import opened Relayer
  import opened RelayerFailures

  /** 2^x * (2 * y + 1): one positive number for every pair of naturals. */
  function Weave(x: nat, y: nat): (r: nat)
    ensures r >= 1
  {
    if x == 0 then 2 * y + 1 else 2 * Weave(x - 1, y)
  }

  lemma {:induction false} WeaveInjective(x: nat, y: nat, u: nat, v: nat)
    requires Weave(x, y) == Weave(u, v)
    ensures x == u && y == v
  {
    if x != 0 && u != 0 {
      WeaveInjective(x - 1, y, u - 1, v);
    }
  }

  function Spread(a: int): nat {
    if a >= 0 then 2 * a else -2 * a - 1
  }

  function PairHash(a: Digest, b: Digest): Digest {
    Weave(Spread(a), Spread(b))
  }

  function LeafHash(a: nat, b: nat, c: nat): Digest {
    Weave(a, Weave(b, c))
  }

  function AccountHash(a: Digest, balance: nat, salt: Digest): Digest {
    0 - Weave(Spread(a), Weave(balance, Spread(salt)))
  }

  lemma PairInjective()
    ensures Injective(PairHash)
  {
    forall a, b, c, d | PairHash(a, b) == PairHash(c, d) ensures a == c && b == d {
      WeaveInjective(Spread(a), Spread(b), Spread(c), Spread(d));
    }
  }

  /** Tree hashes without collisions, for any depth. */
  lemma TreeHashExists(depth: nat)
    ensures Imt.CollisionFree(Imt.Params(depth, PairHash, LeafHash))
  {
    var p := Imt.Params(depth, PairHash, LeafHash);
    PairInjective();
    forall a, b, c, d, e, f {:trigger p.leaf(a, b, c), p.leaf(d, e, f)} | p.leaf(a, b, c) == p.leaf(d, e, f)
      ensures a == d && b == e && c == f
    {
      WeaveInjective(a, Weave(b, c), d, Weave(e, f));
      WeaveInjective(b, c, e, f);
    }
  }

  /** Account hashes without collisions that are apart from parents and padding. */
  lemma AccountHashExists(pub: Digest -> Digest)
    ensures ValidiumSoundness.CollisionFree(Sha(pub, PairHash, AccountHash))
  {
    var h := Sha(pub, PairHash, AccountHash);
    PairInjective();
    forall a, b, c, d, e, f {:trigger h.account(a, b, c), h.account(d, e, f)} | h.account(a, b, c) == h.account(d, e, f)
      ensures a == d && b == e && c == f
    {
      WeaveInjective(Spread(a), Weave(b, Spread(c)), Spread(d), Weave(e, Spread(f)));
      WeaveInjective(b, Spread(c), e, Spread(f));
    }
  }

  // ----- a failing build -----

  function Sample(depth: nat): Deployment {
    Deployment(
      Imt.Params(depth, PairHash, LeafHash), BlobHash((fes: seq<Fe>) => 0, (a: nat, b: nat, fe: Fe) => 0),
      (n: nat, c: nat) => n, (scalars: seq<Fr>, a: Fr, b: Fr) => 0, (a: nat, b: nat, c: nat, e: nat) => 0,
      (proof: Proof, p: BatchPublic) => true, (proof: Proof, p: ResolutionPublic) => true)
  }

  /** Accepts every signer and finds every proof. */
  function Willing(): Backend {
    Backend((s: SignerSubmission) => true, (p: BatchPublic, subs: seq<SignerSubmission>) => Some([]))
  }

  function FreshView(root: Digest): PetitionView {
    PetitionView(0, 0, 0, 0, [1], 0, root, root, 0)
  }

  const FIRST := SignerSubmission(0, 1, 1, 1, [])
  const SECOND := SignerSubmission(0, 2, 1 + P, 1, [])

  /** With collision-free hashes and a backend that never fails, a relayer that starts from empty replicas fails on
      the identity tags 1 and 1 + P and then refuses every batch for the unchanged petition. */
  lemma SampleBuildFails(depth: nat, later: seq<SignerSubmission>)
    requires depth >= 2 && 1 <= |later| <= BATCH_SIZE_MAX
    ensures var d := Sample(depth);
            var view := FreshView(Imt.RootOf(d.imt, [Imt.ZERO]));
            var o := Build(d, Willing(), view, EMPTY_REPLICA, [FIRST, SECOND]);
            && o.result == Err(ImtRefused(Imt.DuplicateInsertion))
            && Build(d, Willing(), view, o.replica, later).result == Err(StateDiverged)
  {
    var d := Sample(depth);
    TreeHashExists(depth);
    FreshIsSound(d);
    PowMono(2, depth);
    assert Pow2(2) == 4;
    assert LeafOfSub(d, FIRST) == 1 && LeafOfSub(d, SECOND) == 2;
    TagsModuloFieldDiverge(d, Willing(), FreshView(Imt.RootOf(d.imt, [Imt.ZERO])), EMPTY_REPLICA, FIRST, SECOND, later);
  }
}
