/** Which submissions the relayer takes, what it reports otherwise, and what the batch it builds holds. */
module RelayerOutcome {
  import opened Merkle
  import opened Field
  import opened Wrappers
  import opened Imt
  import opened Blob
  import opened Petition
  import opened PetitionInvariant
  import opened Relayer

  /** A submission of this petition, by a class of its set, whose signer proof verifies. */
  predicate Acceptable(b: Backend, view: PetitionView, s: SignerSubmission) {
    s.petitionId == view.petitionId && s.classTag in view.classSet && b.verifySigner(s)
  }

  predicate AllAcceptable(b: Backend, view: PetitionView, subs: seq<SignerSubmission>) {
    forall k {:trigger subs[k]} :: 0 <= k < |subs| ==> Acceptable(b, view, subs[k])
  }

  predicate Different<T(==)>(s: seq<T>) {
    forall i, j {:trigger s[i], s[j]} :: 0 <= i < j < |s| ==> s[i] != s[j]
  }

  // ----- what the two scans report -----

  /** The scan reports the first submission that is not acceptable, by the first of its three faults. */
  lemma {:induction false} RefusedIs(b: Backend, view: PetitionView, subs: seq<SignerSubmission>, i: nat)
    requires i <= |subs|
    ensures FirstRefused(b, view, subs, i).None? <==>
            forall k {:trigger subs[k]} :: i <= k < |subs| ==> Acceptable(b, view, subs[k])
    ensures FirstRefused(b, view, subs, i).Some? ==>
            var e := FirstRefused(b, view, subs, i).value;
            && (e.PetitionIdMismatch? || e.ClassTagOutOfSet? || e.SignerProofInvalid?) && i <= e.at < |subs|
            && (forall k {:trigger subs[k]} :: i <= k < e.at ==> Acceptable(b, view, subs[k]))
            && (e.PetitionIdMismatch? <==> subs[e.at].petitionId != view.petitionId)
            && (e.ClassTagOutOfSet? ==> subs[e.at].classTag !in view.classSet)
            && (e.SignerProofInvalid? ==> subs[e.at].classTag in view.classSet && !b.verifySigner(subs[e.at]))
    decreases |subs| - i
  {
    if i < |subs| && SubmissionError(b, view, subs[i], i).None? {
      RefusedIs(b, view, subs, i + 1);
    }
  }

  /** The first place of a value in a list. */
  lemma {:induction false} PositionIs(s: seq<Bytes32>, x: Bytes32)
    ensures PositionOf(s, x).None? <==> x !in s
    ensures PositionOf(s, x).Some? ==> var j := PositionOf(s, x).value; j < |s| && s[j] == x && x !in s[..j]
  {
    if |s| != 0 {
      var front := s[..|s| - 1];
      PositionIs(front, x);
      assert s == front + [s[|s| - 1]];
      if PositionOf(front, x).Some? {
        assert s[..PositionOf(front, x).value] == front[..PositionOf(front, x).value];
      }
    }
  }

  /** The place `k` repeats neither a nullifier nor an identity tag of an earlier one. */
  predicate NewAt(subs: seq<SignerSubmission>, k: nat)
    requires k < |subs|
  {
    forall j {:trigger subs[j]} :: 0 <= j < k ==>
      subs[j].nullifier != subs[k].nullifier && subs[j].identityTag != subs[k].identityTag
  }

  lemma NewAtListed(subs: seq<SignerSubmission>, k: nat)
    requires k < |subs|
    ensures NewAt(subs, k) <==>
            subs[k].nullifier !in NullifiersOf(subs)[..k] && subs[k].identityTag !in TagBytesOf(subs)[..k]
  {
    var ns, ts := NullifiersOf(subs)[..k], TagBytesOf(subs)[..k];
    if NewAt(subs, k) {
      forall j | 0 <= j < k ensures ns[j] != subs[k].nullifier && ts[j] != subs[k].identityTag {
        assert ns[j] == subs[j].nullifier && ts[j] == subs[j].identityTag;
      }
    } else {
      var j :| 0 <= j < k && !(subs[j].nullifier != subs[k].nullifier && subs[j].identityTag != subs[k].identityTag);
      assert ns[j] == subs[j].nullifier && ts[j] == subs[j].identityTag;
    }
  }

  /** The first repetition is reported, with the first place of what it repeats, and nullifiers go first. */
  ghost predicate RepeatAt(subs: seq<SignerSubmission>, e: RelayerError) {
    && (e.DuplicateNullifier? || e.DuplicateIdentityTag?) && e.first < e.second < |subs|
    && (forall k :: 0 <= k < e.second ==> NewAt(subs, k))
    && (e.DuplicateNullifier? ==> subs[e.first].nullifier == subs[e.second].nullifier)
    && (e.DuplicateIdentityTag? ==>
      && subs[e.first].identityTag == subs[e.second].identityTag
      && forall j {:trigger subs[j]} :: 0 <= j < e.second ==> subs[j].nullifier != subs[e.second].nullifier)
  }

  lemma RepeatFound(subs: seq<SignerSubmission>, i: nat)
    requires i < |subs| && !NewAt(subs, i) && forall k :: 0 <= k < i ==> NewAt(subs, k)
    ensures FirstDuplicate(subs, i).Some? && RepeatAt(subs, FirstDuplicate(subs, i).value)
  {
    var ns, ts, s := NullifiersOf(subs)[..i], TagBytesOf(subs)[..i], subs[i];
    NewAtListed(subs, i);
    PositionIs(ns, s.nullifier);
    PositionIs(ts, s.identityTag);
    if s.nullifier !in ns {
      forall j | 0 <= j < i ensures subs[j].nullifier != s.nullifier {
        assert ns[j] == subs[j].nullifier;
      }
    }
  }

  lemma {:induction false} DuplicateIs(subs: seq<SignerSubmission>, i: nat)
    requires i <= |subs| && forall k :: 0 <= k < i ==> NewAt(subs, k)
    ensures FirstDuplicate(subs, i).None? <==> forall k :: 0 <= k < |subs| ==> NewAt(subs, k)
    ensures FirstDuplicate(subs, i).Some? ==> RepeatAt(subs, FirstDuplicate(subs, i).value)
    decreases |subs| - i
  {
    if i < |subs| {
      if NewAt(subs, i) {
        NewAtListed(subs, i);
        PositionIs(NullifiersOf(subs)[..i], subs[i].nullifier);
        PositionIs(TagBytesOf(subs)[..i], subs[i].identityTag);
        DuplicateIs(subs, i + 1);
      } else {
        RepeatFound(subs, i);
      }
    }
  }

  lemma AllNewIff(subs: seq<SignerSubmission>)
    ensures (forall k :: 0 <= k < |subs| ==> NewAt(subs, k)) <==>
            Different(NullifiersOf(subs)) && Different(TagBytesOf(subs))
  {
    var ns, ts := NullifiersOf(subs), TagBytesOf(subs);
    if forall k :: 0 <= k < |subs| ==> NewAt(subs, k) {
      forall i, j | 0 <= i < j < |subs| ensures ns[i] != ns[j] && ts[i] != ts[j] {
        assert NewAt(subs, j);
        assert subs[i].nullifier == ns[i];
      }
    }
    if Different(ns) && Different(ts) {
      forall k | 0 <= k < |subs| ensures NewAt(subs, k) {
        forall j | 0 <= j < k
          ensures subs[j].nullifier != subs[k].nullifier && subs[j].identityTag != subs[k].identityTag
        {
          assert ns[j] != ns[k] && ts[j] != ts[k];
        }
      }
    }
  }

  /** The checks in front of the replicas pass exactly for one to `BATCH_SIZE_MAX` acceptable submissions without
      a repeated nullifier or identity tag, from replicas with the petition's roots. */
  lemma CheckedIff(d: Deployment, b: Backend, view: PetitionView, rep: Replica, subs: seq<SignerSubmission>)
    ensures Refusal(d, b, view, rep, subs).None? <==>
            && 1 <= |subs| <= BATCH_SIZE_MAX
            && RootOf(d.imt, rep.trees.running) == view.runningRoot && RootOf(d.imt, rep.trees.idTag) == view.idTagRoot
            && AllAcceptable(b, view, subs) && Different(NullifiersOf(subs)) && Different(TagBytesOf(subs))
  {
    RefusedIs(b, view, subs, 0);
    DuplicateIs(subs, 0);
    AllNewIff(subs);
  }

  // ----- what sorting keeps -----

  /** A property of every submission, in their order. */
  function Each<T>(f: SignerSubmission -> T, subs: seq<SignerSubmission>): (r: seq<T>)
    ensures |r| == |subs| && forall i :: 0 <= i < |subs| ==> r[i] == f(subs[i])
  {
    seq(|subs|, i requires 0 <= i < |subs| => f(subs[i]))
  }

  lemma EachSnoc<T>(f: SignerSubmission -> T, subs: seq<SignerSubmission>, s: SignerSubmission)
    ensures Each(f, subs + [s]) == Each(f, subs) + [f(s)]
  {
  }

  lemma {:induction false} EachPlaced<T>(d: Deployment, f: SignerSubmission -> T, sorted: seq<SignerSubmission>,
                                         s: SignerSubmission)
    ensures multiset(Each(f, Place(d, sorted, s))) == multiset(Each(f, sorted)) + multiset{f(s)}
    decreases |sorted|
  {
    if |sorted| == 0 || LeafOfSub(d, sorted[|sorted| - 1]) <= LeafOfSub(d, s) {
      EachSnoc(f, sorted, s);
    } else {
      var front, last := sorted[..|sorted| - 1], sorted[|sorted| - 1];
      EachPlaced(d, f, front, s);
      EachSnoc(f, Place(d, front, s), last);
      EachSnoc(f, front, last);
      assert sorted == front + [last];
    }
  }

  /** Sorting permutes whatever is read off the submissions. */
  lemma {:induction false} EachSorted<T>(d: Deployment, f: SignerSubmission -> T, subs: seq<SignerSubmission>)
    ensures multiset(Each(f, SortByLeaf(d, subs))) == multiset(Each(f, subs))
  {
    if |subs| != 0 {
      var front, last := subs[..|subs| - 1], subs[|subs| - 1];
      EachSorted(d, f, front);
      EachPlaced(d, f, SortByLeaf(d, front), last);
      EachSnoc(f, front, last);
      assert subs == front + [last];
    }
  }

  lemma {:induction false} CountedOnce(s: seq<nat>, x: nat)
    requires Different(s)
    ensures multiset(s)[x] <= 1
  {
    if |s| != 0 {
      var front, last := s[..|s| - 1], s[|s| - 1];
      assert s == front + [last];
      assert forall i, j :: 0 <= i < j < |front| ==> front[i] == s[i] && front[j] == s[j];
      CountedOnce(front, x);
      forall i | 0 <= i < |front| ensures front[i] != last {
        assert s[i] != s[|s| - 1];
      }
    }
  }

  lemma CountedTwice(s: seq<nat>, i: nat, j: nat)
    requires i < j < |s| && s[i] == s[j]
    ensures multiset(s)[s[i]] >= 2
  {
    assert s == s[..i] + [s[i]] + s[i + 1..j] + [s[j]] + s[j + 1..];
  }

  lemma DifferentPermutes(s: seq<nat>, t: seq<nat>)
    requires multiset(s) == multiset(t) && Different(s)
    ensures Different(t)
  {
    forall i, j | 0 <= i < j < |t| ensures t[i] != t[j] {
      CountedOnce(s, t[i]);
      if t[i] == t[j] {
        CountedTwice(t, i, j);
      }
    }
  }

  /** Being new to a tree and pairwise different does not depend on the order. */
  lemma FreshPermutes(leaves: seq<Leaf>, s: seq<nat>, t: seq<nat>)
    requires multiset(s) == multiset(t) && Fresh(leaves, s)
    ensures Fresh(leaves, t)
  {
    assert Different(s);
    DifferentPermutes(s, t);
    forall i | 0 <= i < |t| ensures !Has(leaves, t[i]) {
      assert t[i] in multiset(t);
      assert t[i] in s;
    }
  }

  // ----- the build -----

  /** Nobody signed before: leaves and identity tags are new to the replicas and different from each other as
      field elements, and all fit. */
  ghost predicate FirstSigned(d: Deployment, rep: Replica, subs: seq<SignerSubmission>) {
    && rep.leafCount + 1 + |subs| <= Pow2(d.imt.depth)
    && Fresh(rep.trees.running, Each((s: SignerSubmission) => LeafOfSub(d, s) as nat, subs))
    && Fresh(rep.trees.idTag, Each((s: SignerSubmission) => FromBe(s.identityTag) as nat, subs))
  }

  lemma FirstSignedSorted(d: Deployment, rep: Replica, subs: seq<SignerSubmission>)
    ensures FirstSigned(d, rep, SortByLeaf(d, subs)) <==> FirstSigned(d, rep, subs)
  {
    var leaf, tag := (s: SignerSubmission) => LeafOfSub(d, s) as nat, (s: SignerSubmission) =>
      FromBe(s.identityTag) as nat;
    var sorted := SortByLeaf(d, subs);
    SortByLeafSorts(d, subs);
    EachSorted(d, leaf, subs);
    EachSorted(d, tag, subs);
    if FirstSigned(d, rep, sorted) {
      FreshPermutes(rep.trees.running, Each(leaf, sorted), Each(leaf, subs));
      FreshPermutes(rep.trees.idTag, Each(tag, sorted), Each(tag, subs));
    }
    if FirstSigned(d, rep, subs) {
      FreshPermutes(rep.trees.running, Each(leaf, subs), Each(leaf, sorted));
      FreshPermutes(rep.trees.idTag, Each(tag, subs), Each(tag, sorted));
    }
  }

  lemma InsertsIff(d: Deployment, rep: Replica, subs: seq<SignerSubmission>)
    requires ReplicaSound(d, rep)
    ensures InsertUntilRefused(d, rep.trees, RecordsOf(subs)).1.None? <==> FirstSigned(d, rep, subs)
  {
    var rs := RecordsOf(subs);
    InsertedIsReplay(d, rep.trees, rs);
    ReplayIsInsertAll(d, rep.trees, rs);
    InsertAllOutcome(d.imt, rep.trees.running, LeavesOf(d, rs));
    InsertAllOutcome(d.imt, rep.trees.idTag, TagsOf(rs));
    assert LeavesOf(d, rs) == Each((s: SignerSubmission) => LeafOfSub(d, s) as nat, subs);
    assert TagsOf(rs) == Each((s: SignerSubmission) => FromBe(s.identityTag) as nat, subs);
  }

  /** The batch proof asked for: the public inputs of the insertions, for the submissions in leaf order. */
  function Asked(d: Deployment, b: Backend, view: PetitionView, rep: Replica,
                 subs: seq<SignerSubmission>): Option<Proof>
  {
    var sorted := SortByLeaf(d, subs);
    b.proveBatch(PublicInputs(d, view, rep, Advanced(d, rep, sorted).0, RecordsOf(sorted)), sorted)
  }

  /** Which builds succeed, in terms of the submissions as they came in. */
  lemma BuildsIff(d: Deployment, b: Backend, view: PetitionView, rep: Replica, subs: seq<SignerSubmission>)
    requires ReplicaSound(d, rep)
    ensures Build(d, b, view, rep, subs).result.Ok? <==>
            && 1 <= |subs| <= BATCH_SIZE_MAX
            && RootOf(d.imt, rep.trees.running) == view.runningRoot && RootOf(d.imt, rep.trees.idTag) == view.idTagRoot
            && AllAcceptable(b, view, subs) && Different(NullifiersOf(subs)) && Different(TagBytesOf(subs))
            && FirstSigned(d, rep, subs) && Asked(d, b, view, rep, subs).Some?
  {
    CheckedIff(d, b, view, rep, subs);
    InsertsIff(d, rep, SortByLeaf(d, subs));
    FirstSignedSorted(d, rep, subs);
  }

  /** The record is that of an acceptable submission among `subs`. */
  ghost predicate Signed(b: Backend, view: PetitionView, subs: seq<SignerSubmission>, r: Record) {
    exists s {:trigger RecordOf(s)} :: s in subs && Acceptable(b, view, s) && r == RecordOf(s)
  }

  /** What a built batch holds: a permutation of the records of its submissions, all of them acceptable, with the
      proof made for them. */
  lemma BatchHolds(d: Deployment, b: Backend, view: PetitionView, rep: Replica, subs: seq<SignerSubmission>)
    requires Build(d, b, view, rep, subs).result.Ok?
    ensures AllAcceptable(b, view, subs)
    ensures var sub := Build(d, b, view, rep, subs).result.value;
            && multiset(sub.records) == multiset(RecordsOf(subs)) && |sub.records| == |subs|
            && Asked(d, b, view, rep, subs) == Some(sub.proof)
            && forall i {:trigger sub.records[i]} :: 0 <= i < |sub.records| ==> Signed(b, view, subs, sub.records[i])
  {
    CheckedIff(d, b, view, rep, subs);
    var sorted := SortByLeaf(d, subs);
    SortByLeafSorts(d, subs);
    EachSorted(d, RecordOf, subs);
    assert RecordsOf(sorted) == Each(RecordOf, sorted) && RecordsOf(subs) == Each(RecordOf, subs);
    forall i | 0 <= i < |sorted| ensures Signed(b, view, subs, RecordsOf(sorted)[i]) {
      assert sorted[i] in sorted;
      assert sorted[i] in subs;
      var k :| 0 <= k < |subs| && subs[k] == sorted[i];
      assert Acceptable(b, view, subs[k]) && RecordsOf(sorted)[i] == RecordOf(sorted[i]);
    }
  }
}
