/** What a failed build leaves behind: replicas that ran ahead of the registry. */
module RelayerFailures {
  import opened Merkle
  import opened Field
  import opened Wrappers
  import opened Imt
  import opened Blob
  import opened Petition
  import opened Relayer

  lemma {:induction false} RefusedGrows(d: Deployment, t: Trees, rs: seq<Record>)
    requires Sorted(t.running) && Sorted(t.idTag) && |t.running| <= Pow2(d.imt.depth) && |t.idTag| <= Pow2(d.imt.depth)
    ensures var u := InsertUntilRefused(d, t, rs).0;
            && Sorted(u.running) && |t.running| <= |u.running| <= Pow2(d.imt.depth)
            && (u.running == t.running ==> u == t)
    decreases |rs|
  {
    if |rs| != 0 && Insert(d.imt, t.running, LeafOf(d, rs[0])).Ok? {
      InsertKeepsSorted(d.imt, t.running, LeafOf(d, rs[0]));
      var running := Insert(d.imt, t.running, LeafOf(d, rs[0])).value;
      assert |ValuesOf(running)| == |t.running| + 1;
      if Insert(d.imt, t.idTag, FromBe(rs[0].identityTag)).Ok? {
        InsertKeepsSorted(d.imt, t.idTag, FromBe(rs[0].identityTag));
        RefusedGrows(d, Trees(running, Insert(d.imt, t.idTag, FromBe(rs[0].identityTag)).value), rs[1..]);
      }
    }
  }

  /** The build gets past its checks, and the leaf that comes first in order can be inserted. */
  predicate FirstLeafTaken(d: Deployment, b: Backend, view: PetitionView, rep: Replica, subs: seq<SignerSubmission>) {
    && Refusal(d, b, view, rep, subs).None? && |rep.trees.running| < Pow2(d.imt.depth)
    && (SortByLeafSorts(d, subs); !Has(rep.trees.running, LeafOfSub(d, SortByLeaf(d, subs)[0])))
  }

  /** Which builds touch the replicas, in terms of what goes in. */
  lemma BuildTouchesReplicas(d: Deployment, b: Backend, view: PetitionView, rep: Replica, subs: seq<SignerSubmission>)
    requires ReplicaSound(d, rep)
    ensures Build(d, b, view, rep, subs).replica.trees != rep.trees <==> FirstLeafTaken(d, b, view, rep, subs)
  {
    if Refusal(d, b, view, rep, subs).None? {
      SortByLeafSorts(d, subs);
      var records := RecordsOf(SortByLeaf(d, subs));
      FirstInsertDecides(d, rep.trees, records);
      InsertOutcome(d.imt, rep.trees.running, LeafOf(d, records[0]));
    }
  }

  lemma FirstInsertDecides(d: Deployment, t: Trees, rs: seq<Record>)
    requires |rs| > 0 && Sorted(t.running) && Sorted(t.idTag)
    requires |t.running| <= Pow2(d.imt.depth) && |t.idTag| <= Pow2(d.imt.depth)
    ensures InsertUntilRefused(d, t, rs).0 != t <==> Insert(d.imt, t.running, LeafOf(d, rs[0])).Ok?
  {
    if Insert(d.imt, t.running, LeafOf(d, rs[0])).Ok? {
      InsertKeepsSorted(d.imt, t.running, LeafOf(d, rs[0]));
      var running := Insert(d.imt, t.running, LeafOf(d, rs[0])).value;
      assert |ValuesOf(running)| == |t.running| + 1;
      if Insert(d.imt, t.idTag, FromBe(rs[0].identityTag)).Ok? {
        InsertKeepsSorted(d.imt, t.idTag, FromBe(rs[0].identityTag));
        RefusedGrows(d, Trees(running, Insert(d.imt, t.idTag, FromBe(rs[0].identityTag)).value), rs[1..]);
      }
    }
  }

  /** A failed build does not roll its replicas back: from replicas in step with the petition, every later build
      against the unchanged petition reports divergence exactly when the failed one got past its checks and the
      leaf first in order was new and had room. */
  lemma FailedBuildDiverges(d: Deployment, b: Backend, view: PetitionView, rep: Replica, subs: seq<SignerSubmission>,
                            later: seq<SignerSubmission>)
    requires CollisionFree(d.imt) && ReplicaSound(d, rep)
    requires RootOf(d.imt, rep.trees.running) == view.runningRoot && RootOf(d.imt, rep.trees.idTag) == view.idTagRoot
    requires Build(d, b, view, rep, subs).result.Err? && 1 <= |later| <= BATCH_SIZE_MAX
    ensures Build(d, b, view, Build(d, b, view, rep, subs).replica, later).result == Err(StateDiverged)
       <==> FirstLeafTaken(d, b, view, rep, subs)
  {
    var records, after := RecordsOf(SortByLeaf(d, subs)), Build(d, b, view, rep, subs).replica;
    RefusedGrows(d, rep.trees, records);
    BuildTouchesReplicas(d, b, view, rep, subs);
    DivergenceMeansRoots(d, b, view, after, later);
    if after.trees != rep.trees && RootOf(d.imt, after.trees.running) == RootOf(d.imt, rep.trees.running) {
      assert after.trees == InsertUntilRefused(d, rep.trees, records).0;
      RootBinds(d.imt, after.trees.running, rep.trees.running);
    }
  }

  // ----- a build that fails that way -----

  lemma SecondTagRefused(d: Deployment, t: Trees, r: Record, s: Record)
    requires Sorted(t.running) && Sorted(t.idTag)
    requires |t.running| + 2 <= Pow2(d.imt.depth) && |t.idTag| + 2 <= Pow2(d.imt.depth)
    requires !Has(t.running, LeafOf(d, r)) && !Has(t.running, LeafOf(d, s)) && LeafOf(d, r) != LeafOf(d, s)
    requires !Has(t.idTag, FromBe(r.identityTag)) && FromBe(s.identityTag) == FromBe(r.identityTag)
    ensures InsertUntilRefused(d, t, [r, s]).1 == Some(DuplicateInsertion)
  {
    InsertOutcome(d.imt, t.running, LeafOf(d, r));
    InsertKeepsSorted(d.imt, t.running, LeafOf(d, r));
    InsertOutcome(d.imt, t.idTag, FromBe(r.identityTag));
    InsertKeepsSorted(d.imt, t.idTag, FromBe(r.identityTag));
    var u := Trees(Insert(d.imt, t.running, LeafOf(d, r)).value, Insert(d.imt, t.idTag, FromBe(r.identityTag)).value);
    HasIffListed(t.running);
    HasIffListed(u.running);
    HasIffListed(u.idTag);
    assert |ValuesOf(u.running)| == |t.running| + 1 && |ValuesOf(u.idTag)| == |t.idTag| + 1;
    assert ValuesOf(u.idTag)[|t.idTag|] == FromBe(r.identityTag);
    InsertOutcome(d.imt, u.running, LeafOf(d, s));
    InsertOutcome(d.imt, u.idTag, FromBe(s.identityTag));
    assert [r, s][1..] == [s];
  }

  /** Two signers whose identity tags differ by the field modulus pass the byte-wise duplicate check and meet in
      the identity-tag tree: the build fails, and the relayer reports divergence from then on, for as long as the
      petition does not change. */
  lemma TagsModuloFieldDiverge(d: Deployment, b: Backend, view: PetitionView, rep: Replica, r: SignerSubmission,
                               s: SignerSubmission, later: seq<SignerSubmission>)
    requires CollisionFree(d.imt) && ReplicaSound(d, rep) && rep.leafCount + 3 <= Pow2(d.imt.depth)
    requires RootOf(d.imt, rep.trees.running) == view.runningRoot && RootOf(d.imt, rep.trees.idTag) == view.idTagRoot
    requires SubmissionError(b, view, r, 0).None? && SubmissionError(b, view, s, 1).None?
    requires r.nullifier != s.nullifier && s.identityTag == r.identityTag + P
    requires LeafOfSub(d, r) != LeafOfSub(d, s) && !Has(rep.trees.running, LeafOfSub(d, r))
    requires !Has(rep.trees.running, LeafOfSub(d, s))
    requires !Has(rep.trees.idTag, FromBe(r.identityTag)) && 1 <= |later| <= BATCH_SIZE_MAX
    ensures var o := Build(d, b, view, rep, [r, s]);
            && o.result == Err(ImtRefused(DuplicateInsertion))
            && Build(d, b, view, o.replica, later).result == Err(StateDiverged)
  {
    PairPassesChecks(b, view, r, s);
    PairIsRefused(d, rep.trees, r, s);
    SortByLeafSorts(d, [r, s]);
    SortOfTwo(d, r, s);
    FailedBuildDiverges(d, b, view, rep, [r, s], later);
  }

  /** One submission replayed with its nullifier and identity tag raised by the field modulus: the same field elements,
      other bytes. */
  function Raised(r: SignerSubmission): SignerSubmission
    requires r.nullifier + P < TWO_256 && r.identityTag + P < TWO_256
  {
    r.(nullifier := r.nullifier + P, identityTag := r.identityTag + P)
  }

  lemma RaisedRefused(d: Deployment, t: Trees, r: Record, s: Record)
    requires Sorted(t.running) && Sorted(t.idTag) && |t.running| + 2 <= Pow2(d.imt.depth)
    requires |t.idTag| + 2 <= Pow2(d.imt.depth)
    requires !Has(t.running, LeafOf(d, r)) && LeafOf(d, s) == LeafOf(d, r)
    ensures InsertUntilRefused(d, t, [r, s]).1 == Some(DuplicateInsertion)
  {
    InsertOutcome(d.imt, t.running, LeafOf(d, r));
    InsertKeepsSorted(d.imt, t.running, LeafOf(d, r));
    InsertOutcome(d.imt, t.idTag, FromBe(r.identityTag));
    var running := Insert(d.imt, t.running, LeafOf(d, r)).value;
    HasIffListed(running);
    assert |ValuesOf(running)| == |t.running| + 1 && ValuesOf(running)[|t.running|] == LeafOf(d, r);
    InsertOutcome(d.imt, running, LeafOf(d, s));
    assert [r, s][1..] == [s];
  }

  /** A single signer is enough: a submission and its raised copy, whose proof is checked against the same field
      elements, pass the duplicate check, fail the build and leave the relayer diverged. */
  lemma ReplayedSignerDiverges(d: Deployment, b: Backend, view: PetitionView, rep: Replica, r: SignerSubmission,
                               later: seq<SignerSubmission>)
    requires CollisionFree(d.imt) && ReplicaSound(d, rep) && rep.leafCount + 3 <= Pow2(d.imt.depth)
    requires RootOf(d.imt, rep.trees.running) == view.runningRoot && RootOf(d.imt, rep.trees.idTag) == view.idTagRoot
    requires r.nullifier + P < TWO_256 && r.identityTag + P < TWO_256 && !Has(rep.trees.running, LeafOfSub(d, r))
    requires SubmissionError(b, view, r, 0).None? && b.verifySigner(Raised(r)) && 1 <= |later| <= BATCH_SIZE_MAX
    ensures var o := Build(d, b, view, rep, [r, Raised(r)]);
            && o.result == Err(ImtRefused(DuplicateInsertion))
            && Build(d, b, view, o.replica, later).result == Err(StateDiverged)
  {
    var s := Raised(r);
    PairPassesChecks(b, view, r, s);
    SortOfTwo(d, r, s);
    assert RecordsOf([r, s]) == [RecordOf(r), RecordOf(s)];
    RaisedRefused(d, rep.trees, RecordOf(r), RecordOf(s));
    SortByLeafSorts(d, [r, s]);
    FailedBuildDiverges(d, b, view, rep, [r, s], later);
  }

  lemma PairIsRefused(d: Deployment, t: Trees, r: SignerSubmission, s: SignerSubmission)
    requires Sorted(t.running) && Sorted(t.idTag)
    requires |t.running| + 2 <= Pow2(d.imt.depth) && |t.idTag| + 2 <= Pow2(d.imt.depth)
    requires LeafOfSub(d, r) != LeafOfSub(d, s) && !Has(t.running, LeafOfSub(d, r)) && !Has(t.running, LeafOfSub(d, s))
    requires !Has(t.idTag, FromBe(r.identityTag)) && FromBe(s.identityTag) == FromBe(r.identityTag)
    ensures InsertUntilRefused(d, t, RecordsOf(SortByLeaf(d, [r, s]))).1 == Some(DuplicateInsertion)
  {
    SortOfTwo(d, r, s);
    var x, y := RecordOf(SortByLeaf(d, [r, s])[0]), RecordOf(SortByLeaf(d, [r, s])[1]);
    assert RecordsOf(SortByLeaf(d, [r, s])) == [x, y];
    SecondTagRefused(d, t, x, y);
  }

  lemma PairPassesChecks(b: Backend, view: PetitionView, r: SignerSubmission, s: SignerSubmission)
    requires SubmissionError(b, view, r, 0).None? && SubmissionError(b, view, s, 1).None?
    requires r.nullifier != s.nullifier && r.identityTag != s.identityTag
    ensures FirstRefused(b, view, [r, s], 0).None? && FirstDuplicate([r, s], 0).None?
  {
    var subs := [r, s];
    assert FirstRefused(b, view, subs, 2).None? && FirstRefused(b, view, subs, 1).None?;
    assert NullifiersOf(subs)[..1] == [r.nullifier] && TagBytesOf(subs)[..1] == [r.identityTag];
    assert NullifiersOf(subs)[..0] == [] && TagBytesOf(subs)[..0] == [];
    PositionOfOne(r.nullifier, s.nullifier);
    PositionOfOne(r.identityTag, s.identityTag);
    assert FirstDuplicate(subs, 2).None? && FirstDuplicate(subs, 1).None?;
  }

  lemma PositionOfOne(x: Bytes32, y: Bytes32)
    ensures PositionOf([x], y) == if x == y then Some(0) else None
  {
    assert [x][..0] == [];
  }

  lemma SortOfOne(d: Deployment, r: SignerSubmission)
    ensures SortByLeaf(d, [r]) == [r]
  {
    assert [r][..0] == [] && SortByLeaf(d, []) == [] && Place(d, [], r) == [r];
  }

  lemma PlaceNextToOne(d: Deployment, r: SignerSubmission, s: SignerSubmission)
    ensures Place(d, [r], s) == if LeafOfSub(d, r) <= LeafOfSub(d, s) then [r, s] else [s, r]
  {
    assert [r][..0] == [] && Place(d, [], s) == [s];
  }

  lemma SortOfTwo(d: Deployment, r: SignerSubmission, s: SignerSubmission)
    ensures SortByLeaf(d, [r, s]) == if LeafOfSub(d, r) <= LeafOfSub(d, s) then [r, s] else [s, r]
  {
    var two := [r, s];
    assert two[..|two| - 1] == [r];
    SortOfOne(d, r);
    PlaceNextToOne(d, r, s);
    assert SortByLeaf(d, two) == Place(d, SortByLeaf(d, two[..|two| - 1]), two[|two| - 1]);
  }

  /** Divergence is reported exactly for different roots. */
  lemma DivergenceMeansRoots(d: Deployment, b: Backend, view: PetitionView, rep: Replica, subs: seq<SignerSubmission>)
    requires 1 <= |subs| <= BATCH_SIZE_MAX
    ensures Build(d, b, view, rep, subs).result == Err(StateDiverged)
       <==> RootOf(d.imt, rep.trees.running) != view.runningRoot || RootOf(d.imt, rep.trees.idTag) != view.idTagRoot
  {
    RefusedKinds(b, view, subs, 0);
    DuplicateKinds(subs, 0);
  }

  lemma {:induction false} RefusedKinds(b: Backend, view: PetitionView, subs: seq<SignerSubmission>, i: nat)
    requires i <= |subs|
    ensures FirstRefused(b, view, subs, i) != Some(StateDiverged)
    decreases |subs| - i
  {
    if i < |subs| {
      RefusedKinds(b, view, subs, i + 1);
    }
  }

  lemma {:induction false} DuplicateKinds(subs: seq<SignerSubmission>, i: nat)
    requires i <= |subs|
    ensures FirstDuplicate(subs, i) != Some(StateDiverged)
    decreases |subs| - i
  {
    if i < |subs| {
      DuplicateKinds(subs, i + 1);
    }
  }
}
