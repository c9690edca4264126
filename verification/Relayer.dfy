/** The relayer: it checks signer submissions, orders them by leaf, runs them through its own replicas
    of the petition's trees and builds the batch the registry is asked to accept. */
module Relayer {
  import opened Merkle
  import opened Field
  import opened Wrappers
  import opened Imt
  import opened Predicate
  import opened Blob
  import opened Petition
  import opened PetitionInvariant

  datatype PetitionView = PetitionView(
    petitionId: Bytes32, rRoot: Bytes32, predicateHash: Fr, classIndex: u8, classSet: seq<ClassTag>, slot: nat,
    runningRoot: Digest, idTagRoot: Digest, leafCount: nat)

  function ViewOf(r: PetitionRecord): PetitionView {
    PetitionView(r.petitionId, r.rRoot, r.predicateHash, r.classIndex, r.classSet, r.slot, r.runningRoot, r.idTagRoot,
                 r.leafCount)
  }

  datatype SignerSubmission = SignerSubmission(petitionId: Bytes32, nullifier: Bytes32, identityTag: Bytes32,
                                               classTag: ClassTag, proof: Proof)

  /** Signer verification and batch proving. */
  datatype Backend = Backend(verifySigner: SignerSubmission -> bool,
                             proveBatch: (BatchPublic, seq<SignerSubmission>) -> Option<Proof>)

  /** A generated batch proof verifies. */
  ghost predicate Complete(d: Deployment, b: Backend) {
    forall public, subs {:trigger b.proveBatch(public, subs)} ::
      b.proveBatch(public, subs).Some? ==> d.verifyBatch(b.proveBatch(public, subs).value, public)
  }

  datatype RelayerError =
    | EmptyBatch | BatchSizeExceeded | StateDiverged
    | PetitionIdMismatch(at: nat) | ClassTagOutOfSet(at: nat) | SignerProofInvalid(at: nat)
    | DuplicateNullifier(first: nat, second: nat) | DuplicateIdentityTag(first: nat, second: nat)
    | ImtRefused(imt: Error) | ProofFailure

  datatype Replica = Replica(trees: Trees, leafCount: nat)

  const EMPTY_REPLICA := Replica(FRESH, 0)

  function RecordOf(s: SignerSubmission): Record {
    Record(s.nullifier, s.identityTag, s.classTag)
  }

  function RecordsOf(subs: seq<SignerSubmission>): (r: seq<Record>)
    ensures |r| == |subs|
  {
    seq(|subs|, i requires 0 <= i < |subs| => RecordOf(subs[i]))
  }

  function SubmissionError(b: Backend, view: PetitionView, s: SignerSubmission, i: nat): Option<RelayerError> {
    if s.petitionId != view.petitionId then Some(PetitionIdMismatch(i))
    else if s.classTag !in view.classSet then Some(RelayerError.ClassTagOutOfSet(i))
    else if !b.verifySigner(s) then Some(SignerProofInvalid(i))
    else None
  }

  /** First refused submission from position `i` on. */
  function FirstRefused(b: Backend, view: PetitionView, subs: seq<SignerSubmission>, i: nat): Option<RelayerError>
    requires i <= |subs|
    decreases |subs| - i
  {
    if i == |subs| then None
    else if SubmissionError(b, view, subs[i], i).Some? then SubmissionError(b, view, subs[i], i)
    else FirstRefused(b, view, subs, i + 1)
  }

  /** First position from `i` on whose nullifier or identity tag occurred before, with that first place. */
  function FirstDuplicate(subs: seq<SignerSubmission>, i: nat): Option<RelayerError>
    requires i <= |subs|
    decreases |subs| - i
  {
    if i == |subs| then None
    else
      var n, t := PositionOf(NullifiersOf(subs)[..i], subs[i].nullifier),
        PositionOf(TagBytesOf(subs)[..i], subs[i].identityTag);
      if n.Some? then Some(DuplicateNullifier(n.value, i))
      else if t.Some? then Some(DuplicateIdentityTag(t.value, i))
      else FirstDuplicate(subs, i + 1)
  }

  function NullifiersOf(subs: seq<SignerSubmission>): (r: seq<Bytes32>)
    ensures |r| == |subs|
  {
    seq(|subs|, i requires 0 <= i < |subs| => subs[i].nullifier)
  }

  function TagBytesOf(subs: seq<SignerSubmission>): (r: seq<Bytes32>)
    ensures |r| == |subs|
  {
    seq(|subs|, i requires 0 <= i < |subs| => subs[i].identityTag)
  }

  function PositionOf(s: seq<Bytes32>, x: Bytes32): Option<nat> {
    if |s| == 0 then None
    else match PositionOf(s[..|s| - 1], x)
      case Some(i) => Some(i)
      case None => if s[|s| - 1] == x then Some(|s| - 1) else None
  }

  // ----- ordering -----

  function LeafOfSub(d: Deployment, s: SignerSubmission): Fr {
    LeafOf(d, RecordOf(s))
  }

  ghost predicate OrderedByLeaf(d: Deployment, subs: seq<SignerSubmission>) {
    forall i, j :: 0 <= i < j < |subs| ==> LeafOfSub(d, subs[i]) <= LeafOfSub(d, subs[j])
  }

  /** Places a submission behind all with a leaf no larger than its own. */
  function Place(d: Deployment, sorted: seq<SignerSubmission>, s: SignerSubmission): seq<SignerSubmission> {
    if |sorted| == 0 || LeafOfSub(d, sorted[|sorted| - 1]) <= LeafOfSub(d, s) then sorted + [s]
    else Place(d, sorted[..|sorted| - 1], s) + [sorted[|sorted| - 1]]
  }

  /** The stable sort by leaf. */
  function SortByLeaf(d: Deployment, subs: seq<SignerSubmission>): seq<SignerSubmission> {
    if |subs| == 0 then [] else Place(d, SortByLeaf(d, subs[..|subs| - 1]), subs[|subs| - 1])
  }

  lemma {:induction false} PlacePermutes(d: Deployment, sorted: seq<SignerSubmission>, s: SignerSubmission)
    ensures multiset(Place(d, sorted, s)) == multiset(sorted) + multiset{s}
    decreases |sorted|
  {
    if |sorted| != 0 {
      assert sorted == sorted[..|sorted| - 1] + [sorted[|sorted| - 1]];
      PlacePermutes(d, sorted[..|sorted| - 1], s);
    }
  }

  lemma {:induction false} PlaceHolds(d: Deployment, sorted: seq<SignerSubmission>, s: SignerSubmission)
    ensures |Place(d, sorted, s)| == |sorted| + 1
    ensures forall x :: x in Place(d, sorted, s) ==> x == s || x in sorted
    decreases |sorted|
  {
    if |sorted| != 0 {
      PlaceHolds(d, sorted[..|sorted| - 1], s);
    }
  }

  lemma {:induction false} PlaceSorts(d: Deployment, sorted: seq<SignerSubmission>, s: SignerSubmission)
    requires OrderedByLeaf(d, sorted)
    ensures OrderedByLeaf(d, Place(d, sorted, s))
    decreases |sorted|
  {
    if |sorted| != 0 {
      var front, last := sorted[..|sorted| - 1], sorted[|sorted| - 1];
      if LeafOfSub(d, last) > LeafOfSub(d, s) {
        PlaceSorts(d, front, s);
        PlaceHolds(d, front, s);
        var r := Place(d, front, s);
        forall i, j | 0 <= i < j < |r + [last]| ensures LeafOfSub(d, (r + [last])[i]) <= LeafOfSub(d, (r + [last])[j]) {
          if j == |r| {
            assert r[i] in r;
          }
        }
      }
    }
  }

  lemma {:induction false} SortByLeafPermutes(d: Deployment, subs: seq<SignerSubmission>)
    ensures multiset(SortByLeaf(d, subs)) == multiset(subs)
  {
    if |subs| != 0 {
      var front, last := subs[..|subs| - 1], subs[|subs| - 1];
      SortByLeafPermutes(d, front);
      PlacePermutes(d, SortByLeaf(d, front), last);
      assert subs == front + [last];
    }
  }

  /** Ordered by leaf, and the same submissions. */
  lemma {:induction false} SortByLeafSorts(d: Deployment, subs: seq<SignerSubmission>)
    ensures OrderedByLeaf(d, SortByLeaf(d, subs)) && |SortByLeaf(d, subs)| == |subs|
    ensures forall x :: x in SortByLeaf(d, subs) ==> x in subs
  {
    if |subs| != 0 {
      var front, last := subs[..|subs| - 1], subs[|subs| - 1];
      SortByLeafSorts(d, front);
      PlaceSorts(d, SortByLeaf(d, front), last);
      PlaceHolds(d, SortByLeaf(d, front), last);
    }
  }

  // ----- building a batch -----

  /** Inserts records one by one; on a refusal the trees keep what was inserted before it. */
  function InsertUntilRefused(d: Deployment, t: Trees, rs: seq<Record>): (Trees, Option<Error>)
    decreases |rs|
  {
    if |rs| == 0 then (t, None)
    else match Insert(d.imt, t.running, LeafOf(d, rs[0]))
      case Err(e) => (t, Some(e))
      case Ok(running) =>
        match Insert(d.imt, t.idTag, FromBe(rs[0].identityTag))
        case Err(e) => (t.(running := running), Some(e))
        case Ok(idTag) => InsertUntilRefused(d, Trees(running, idTag), rs[1..])
  }

  /** A position of a batch: the submission and the witnesses of its two insertions. */
  datatype Position = Position(submission: SignerSubmission, leafInsert: InsertWitness, idInsert: InsertWitness)

  /** The position's witnesses are update proofs from the trees `t` to the trees `u`. */
  ghost predicate PositionProves(d: Deployment, t: Trees, u: Trees, x: Position) {
    && UpdateProof(d.imt, RootOf(d.imt, t.running), LeafOfSub(d, x.submission), x.leafInsert)
    && UpdateProof(d.imt, RootOf(d.imt, t.idTag), FromBe(x.submission.identityTag), x.idInsert)
    && x.leafInsert.newRoot == RootOf(d.imt, u.running) && x.idInsert.newRoot == RootOf(d.imt, u.idTag)
  }

  /** Position `i` proves the step from the trees after `i` submissions to those after `i + 1`. */
  ghost predicate PositionHolds(d: Deployment, t: Trees, subs: seq<SignerSubmission>, i: nat, x: Position)
    requires i < |subs|
  {
    && x.submission == subs[i]
    && PositionProves(d, TreesAt(d, t, subs, i), TreesAt(d, t, subs, i + 1), x)
  }

  /** The trees after the first `i` submissions. */
  function TreesAt(d: Deployment, t: Trees, subs: seq<SignerSubmission>, i: nat): Trees
    requires i <= |subs|
  {
    InsertUntilRefused(d, t, RecordsOf(subs[..i])).0
  }

  /** One position per submission, each with a proof of its step. */
  ghost predicate AllPositionsHold(d: Deployment, t: Trees, subs: seq<SignerSubmission>, positions: seq<Position>) {
    && |positions| == |subs|
    && forall i {:trigger positions[i]} :: 0 <= i < |subs| ==> PositionHolds(d, t, subs, i, positions[i])
  }

  lemma {:induction false} TreesAtNext(d: Deployment, t: Trees, subs: seq<SignerSubmission>, i: nat, u: Trees)
    requires i < |subs| && InsertUntilRefused(d, t, RecordsOf(subs[..i])).1.None?
    requires InsertRecord(d, TreesAt(d, t, subs, i), RecordOf(subs[i])) == Ok(u)
    ensures InsertUntilRefused(d, t, RecordsOf(subs[..i + 1])) == (u, None)
    decreases i
  {
    var rs, more := RecordsOf(subs[..i]), RecordsOf(subs[..i + 1]);
    if i == 0 {
      assert more == [RecordOf(subs[0])] && more[1..] == [];
    } else {
      var next := InsertRecord(d, t, RecordOf(subs[0])).value;
      assert rs[0] == more[0] == RecordOf(subs[0]);
      assert rs[1..] == RecordsOf(subs[1..][..i - 1]) && more[1..] == RecordsOf(subs[1..][..i]);
      TreesAtNext(d, next, subs[1..], i - 1, u);
    }
  }

  function PublicInputs(d: Deployment, view: PetitionView, before: Replica, after: Replica,
                        records: seq<Record>): BatchPublic
  {
    BatchPublic(FromBe(view.petitionId), FromBe(view.rRoot), view.predicateHash, view.classIndex % P, view.slot % P,
                |records| % P,
                RootOf(d.imt, before.trees.running), RootOf(d.imt, after.trees.running),
                RootOf(d.imt, before.trees.idTag), RootOf(d.imt, after.trees.idTag),
                before.leafCount % P, after.leafCount % P, FromBe(VersionedHash(d.blob, EncodedBlob(records))))
  }

  /** Refusals before any replica is touched. */
  function Refusal(d: Deployment, b: Backend, view: PetitionView, rep: Replica,
                   subs: seq<SignerSubmission>): Option<RelayerError>
  {
    if |subs| == 0 then Some(EmptyBatch)
    else if |subs| > BATCH_SIZE_MAX then Some(BatchSizeExceeded)
    else if RootOf(d.imt, rep.trees.running) != view.runningRoot
      || RootOf(d.imt, rep.trees.idTag) != view.idTagRoot then Some(StateDiverged)
    else match FirstRefused(b, view, subs, 0)
      case Some(e) => Some(e)
      case None => FirstDuplicate(subs, 0)
  }

  datatype Built = Built(replica: Replica, result: Result<BatchSubmission, RelayerError>)

  /** The end of a build: the new replica, and the batch if a proof is found. */
  function Finish(d: Deployment, b: Backend, view: PetitionView, before: Replica, after: Replica,
                  sorted: seq<SignerSubmission>): Built
  {
    var records := RecordsOf(sorted);
    var public := PublicInputs(d, view, before, after, records);
    match b.proveBatch(public, sorted)
    case None => Built(after, Err(ProofFailure))
    case Some(proof) => Built(after, Ok(BatchSubmission(public, records, proof)))
  }

  lemma FinishSubmits(d: Deployment, b: Backend, view: PetitionView, before: Replica, after: Replica,
                      sorted: seq<SignerSubmission>)
    ensures var o := Finish(d, b, view, before, after, sorted);
            o.replica == after && (o.result.Ok? ==> o.result.value.records == RecordsOf(sorted))
  {
  }

  /** The replica after the insertions, which counts the leaves only if all were taken. */
  function Advanced(d: Deployment, rep: Replica, sorted: seq<SignerSubmission>): (Replica, Option<Error>) {
    var (trees, refused) := InsertUntilRefused(d, rep.trees, RecordsOf(sorted));
    (Replica(trees, if refused.Some? then rep.leafCount else rep.leafCount + |sorted|), refused)
  }

  /** The build past its checks, for submissions in leaf order. */
  function BuildSorted(d: Deployment, b: Backend, view: PetitionView, rep: Replica,
                       sorted: seq<SignerSubmission>): Built
  {
    var (after, refused) := Advanced(d, rep, sorted);
    match refused
    case Some(e) => Built(after, Err(ImtRefused(e)))
    case None => Finish(d, b, view, rep, after, sorted)
  }

  function Build(d: Deployment, b: Backend, view: PetitionView, rep: Replica, subs: seq<SignerSubmission>): Built {
    match Refusal(d, b, view, rep, subs)
    case Some(e) => Built(rep, Err(e))
    case None => BuildSorted(d, b, view, rep, SortByLeaf(d, subs))
  }

  // ----- the object -----

  method CheckSubmissions(b: Backend, view: PetitionView, subs: seq<SignerSubmission>) returns (r: Option<RelayerError>)
    ensures r == FirstRefused(b, view, subs, 0)
  {
    for i := 0 to |subs|
      invariant FirstRefused(b, view, subs, i) == FirstRefused(b, view, subs, 0)
    {
      r := SubmissionError(b, view, subs[i], i);
      if r.Some? {
        return;
      }
    }
    return None;
  }

  /** First-seen maps, kept next to the scan. */
  method CheckDuplicates(subs: seq<SignerSubmission>) returns (r: Option<RelayerError>)
    ensures r == FirstDuplicate(subs, 0)
  {
    var seenNullifiers: map<Bytes32, nat> := map[];
    var seenIds: map<Bytes32, nat> := map[];
    for i := 0 to |subs|
      invariant FirstDuplicate(subs, i) == FirstDuplicate(subs, 0)
      invariant SeenAt(NullifiersOf(subs)[..i], seenNullifiers) && SeenAt(TagBytesOf(subs)[..i], seenIds)
    {
      var s := subs[i];
      SeenStep(NullifiersOf(subs), i, seenNullifiers);
      SeenStep(TagBytesOf(subs), i, seenIds);
      if s.nullifier in seenNullifiers {
        return Some(DuplicateNullifier(seenNullifiers[s.nullifier], i));
      }
      if s.identityTag in seenIds {
        return Some(DuplicateIdentityTag(seenIds[s.identityTag], i));
      }
      seenNullifiers := seenNullifiers[s.nullifier := i];
      seenIds := seenIds[s.identityTag := i];
    }
    return None;
  }

  /** A first-seen map over a list without repetition. */
  ghost predicate SeenAt(s: seq<Bytes32>, seen: map<Bytes32, nat>) {
    forall x: Bytes32 :: PositionOf(s, x) == if x in seen then Some(seen[x]) else None
  }

  lemma SeenStep(s: seq<Bytes32>, i: nat, seen: map<Bytes32, nat>)
    requires i < |s| && SeenAt(s[..i], seen)
    ensures s[i] !in seen ==> SeenAt(s[..i + 1], seen[s[i] := i])
    ensures PositionOf(s[..i], s[i]) == if s[i] in seen then Some(seen[s[i]]) else None
  {
    assert s[..i + 1][..i] == s[..i];
  }

  /** Inserts one submission into both trees, the leaf first. */
  function InsertSubmission(d: Deployment, t: Trees, s: SignerSubmission): (Trees, Option<Error>) {
    match Insert(d.imt, t.running, LeafOfSub(d, s))
    case Err(e) => (t, Some(e))
    case Ok(running) =>
      match Insert(d.imt, t.idTag, FromBe(s.identityTag))
      case Err(e) => (t.(running := running), Some(e))
      case Ok(idTag) => (Trees(running, idTag), None)
  }

  /** What inserting submission `i` does to the rest of the loop. */
  lemma InsertionStep(d: Deployment, t: Trees, subs: seq<SignerSubmission>, i: nat)
    requires i < |subs|
    ensures var rs, x := RecordsOf(subs), InsertSubmission(d, t, subs[i]);
            && (x.1.Some? ==> InsertUntilRefused(d, t, rs[i..]) == x)
            && (x.1.None? ==>
                 && InsertUntilRefused(d, t, rs[i..]) == InsertUntilRefused(d, x.0, rs[i + 1..])
                 && InsertRecord(d, t, RecordOf(subs[i])) == Ok(x.0))
  {
    var rs := RecordsOf(subs);
    assert rs[i..][1..] == rs[i + 1..] && rs[i..][0] == rs[i] == RecordOf(subs[i]);
  }

  const NO_WITNESS := InsertWitness(ZERO, ZERO, 0, [], ZERO, 0, [], 0)

  /** How far the insertions have come: the first `i` are done, and the rest decides the outcome. */
  ghost predicate Inserting(d: Deployment, start: Trees, subs: seq<SignerSubmission>, i: nat, t: Trees,
                            positions: seq<Position>)
    requires i <= |subs|
  {
    && InsertUntilRefused(d, start, RecordsOf(subs[..i])) == (t, None)
    && InsertUntilRefused(d, t, RecordsOf(subs)[i..]) == InsertUntilRefused(d, start, RecordsOf(subs))
    && |positions| == i
    && forall k {:trigger positions[k]} :: 0 <= k < i ==> PositionHolds(d, start, subs, k, positions[k])
  }

  lemma InsertingStart(d: Deployment, start: Trees, subs: seq<SignerSubmission>)
    ensures Inserting(d, start, subs, 0, start, [])
  {
    assert RecordsOf(subs)[0..] == RecordsOf(subs) && RecordsOf(subs[..0]) == [];
  }

  lemma InsertingNext(d: Deployment, start: Trees, subs: seq<SignerSubmission>, i: nat, t: Trees, u: Trees,
                      positions: seq<Position>, x: Position)
    requires i < |subs| && Inserting(d, start, subs, i, t, positions) && InsertSubmission(d, t, subs[i]) == (u, None)
    requires x.submission == subs[i] && PositionProves(d, t, u, x)
    ensures Inserting(d, start, subs, i + 1, u, positions + [x])
  {
    InsertionStep(d, t, subs, i);
    TreesAtNext(d, start, subs, i, u);
    assert PositionHolds(d, start, subs, i, x);
  }

  lemma InsertingStops(d: Deployment, start: Trees, subs: seq<SignerSubmission>, i: nat, t: Trees,
                       positions: seq<Position>)
    requires i < |subs| && Inserting(d, start, subs, i, t, positions) && InsertSubmission(d, t, subs[i]).1.Some?
    ensures InsertUntilRefused(d, start, RecordsOf(subs)) == InsertSubmission(d, t, subs[i])
  {
    InsertionStep(d, t, subs, i);
  }

  lemma InsertingDone(d: Deployment, start: Trees, subs: seq<SignerSubmission>, t: Trees, positions: seq<Position>)
    requires Inserting(d, start, subs, |subs|, t, positions)
    ensures InsertUntilRefused(d, start, RecordsOf(subs)) == (t, None) && AllPositionsHold(d, start, subs, positions)
  {
    assert RecordsOf(subs)[|subs|..] == [];
  }

  /** Publishes the records of a batch. */
  method Store(carrier: InMemoryBlobCarrier, records: seq<Record>)
    requires Faithful(carrier.h, carrier.blobs) && |records| <= RECORDS_PER_BLOB
    modifies carrier
    ensures Faithful(carrier.h, carrier.blobs) && Stored(carrier.h, carrier.blobs, records)
  {
    var _ := carrier.Publish(records);
  }

  class RelayerPetitionState {
    const d: Deployment
    var trees: Trees
    var leafCount: nat

    constructor (d: Deployment)
      ensures this.d == d && Replica(trees, leafCount) == EMPTY_REPLICA
    {
      this.d, trees, leafCount := d, FRESH, 0;
    }

    /** Inserts into the replicas in place, stopping at the first refusal; every position carries the update proofs
        of its two insertions. */
    method InsertRecords(subs: seq<SignerSubmission>) returns (r: Option<Error>, positions: seq<Position>)
      modifies this`trees
      ensures (trees, r) == InsertUntilRefused(d, old(trees), RecordsOf(subs))
      ensures r.None? ==> AllPositionsHold(d, old(trees), subs, positions)
    {
      positions := [];
      ghost var start := trees;
      InsertingStart(d, start, subs);
      for i := 0 to |subs|
        invariant Inserting(d, start, subs, i, trees, positions)
      {
        ghost var before := trees;
        var failed, x := InsertOne(subs[i]);
        if failed.Some? {
          InsertingStops(d, start, subs, i, before, positions);
          return failed, positions;
        }
        InsertingNext(d, start, subs, i, before, trees, positions, x);
        positions := positions + [x];
      }
      InsertingDone(d, start, subs, trees, positions);
      return None, positions;
    }

    method InsertOne(s: SignerSubmission) returns (failed: Option<Error>, x: Position)
      modifies this`trees
      ensures (trees, failed) == InsertSubmission(d, old(trees), s)
      ensures failed.None? ==> x.submission == s && PositionProves(d, old(trees), trees, x)
    {
      x := Position(s, NO_WITNESS, NO_WITNESS);
      match Insert(d.imt, trees.running, LeafOfSub(d, s)) {
        case Err(e) => return Some(e), x;
        case Ok(running) =>
          WitnessForProves(d.imt, trees.running, LeafOfSub(d, s));
          x := x.(leafInsert := WitnessFor(d.imt, trees.running, LeafOfSub(d, s)));
          match Insert(d.imt, trees.idTag, FromBe(s.identityTag)) {
            case Err(e) =>
              trees := trees.(running := running);
              return Some(e), x;
            case Ok(idTag) =>
              WitnessForProves(d.imt, trees.idTag, FromBe(s.identityTag));
              x := x.(idInsert := WitnessFor(d.imt, trees.idTag, FromBe(s.identityTag)));
              trees := Trees(running, idTag);
              return None, x;
          }
      }
    }

    /** Everything that can refuse a batch before a replica is touched. */
    method CheckBatch(b: Backend, view: PetitionView, subs: seq<SignerSubmission>) returns (r: Option<RelayerError>)
      ensures r == Refusal(d, b, view, Replica(trees, leafCount), subs)
    {
      if |subs| == 0 {
        return Some(EmptyBatch);
      }
      if |subs| > BATCH_SIZE_MAX {
        return Some(BatchSizeExceeded);
      }
      if RootOf(d.imt, trees.running) != view.runningRoot || RootOf(d.imt, trees.idTag) != view.idTagRoot {
        return Some(StateDiverged);
      }
      r := CheckSubmissions(b, view, subs);
      if r.None? {
        r := CheckDuplicates(subs);
      }
    }

    /** Inserts, publishes and proves submissions in leaf order. */
    method BuildChecked(b: Backend, view: PetitionView, sorted: seq<SignerSubmission>, carrier: InMemoryBlobCarrier)
      returns (r: Result<BatchSubmission, RelayerError>, positions: seq<Position>)
      requires Faithful(carrier.h, carrier.blobs) && |sorted| <= BATCH_SIZE_MAX
      modifies this, carrier
      ensures Built(Replica(trees, leafCount), r) == BuildSorted(d, b, view, old(Replica(trees, leafCount)), sorted)
      ensures Faithful(carrier.h, carrier.blobs) && (r.Ok? ==> Stored(carrier.h, carrier.blobs, r.value.records))
      ensures r.Ok? ==> AllPositionsHold(d, old(trees), sorted, positions)
    {
      var before := Replica(trees, leafCount);
      var failed, inserted := Advance(sorted);
      if failed.Some? {
        return Err(ImtRefused(failed.value)), [];
      }
      Store(carrier, RecordsOf(sorted));
      var built := Finish(d, b, view, before, Replica(trees, leafCount), sorted);
      FinishSubmits(d, b, view, before, built.replica, sorted);
      return built.result, inserted;
    }

    /** Inserts and counts. */
    method Advance(sorted: seq<SignerSubmission>) returns (failed: Option<Error>, inserted: seq<Position>)
      modifies this
      ensures (Replica(trees, leafCount), failed) == Advanced(d, old(Replica(trees, leafCount)), sorted)
      ensures failed.None? ==> AllPositionsHold(d, old(trees), sorted, inserted)
    {
      failed, inserted := InsertRecords(sorted);
      if failed.None? {
        leafCount := leafCount + |sorted|;
      }
    }

    /** Builds a batch, advances the replicas and publishes the blob. */
    method BuildBatch(b: Backend, view: PetitionView, subs: seq<SignerSubmission>, carrier: InMemoryBlobCarrier)
      returns (r: Result<BatchSubmission, RelayerError>, positions: seq<Position>)
      requires Faithful(carrier.h, carrier.blobs)
      modifies this, carrier
      ensures Built(Replica(trees, leafCount), r) == Build(d, b, view, old(Replica(trees, leafCount)), subs)
      ensures Faithful(carrier.h, carrier.blobs) && (r.Ok? ==> Stored(carrier.h, carrier.blobs, r.value.records))
      ensures r.Ok? ==> AllPositionsHold(d, old(trees), SortByLeaf(d, subs), positions)
    {
      var refused := CheckBatch(b, view, subs);
      if refused.Some? {
        return Err(refused.value), [];
      }
      SortByLeafSorts(d, subs);
      r, positions := BuildChecked(b, view, SortByLeaf(d, subs), carrier);
    }
  }

  // ----- agreement with the registry -----

  lemma {:induction false} InsertedIsReplay(d: Deployment, t: Trees, rs: seq<Record>)
    ensures InsertUntilRefused(d, t, rs).1.None? <==> Replay(d, t, rs).Ok?
    ensures Replay(d, t, rs).Ok? ==> Replay(d, t, rs).value == InsertUntilRefused(d, t, rs).0
    decreases |rs|
  {
    if |rs| != 0 && InsertRecord(d, t, rs[0]).Ok? {
      InsertedIsReplay(d, InsertRecord(d, t, rs[0]).value, rs[1..]);
    }
  }

  lemma {:induction false} NoneRefused(b: Backend, view: PetitionView, subs: seq<SignerSubmission>, i: nat, k: nat)
    requires i <= k < |subs| && FirstRefused(b, view, subs, i).None?
    ensures subs[k].classTag in view.classSet
    decreases |subs| - i
  {
    if i < k {
      NoneRefused(b, view, subs, i + 1, k);
    }
  }

  /** A replica as the relayer keeps it between successful builds. */
  ghost predicate ReplicaSound(d: Deployment, rep: Replica) {
    Sound(d, rep.trees, rep.leafCount)
  }

  /** What a successful build has done: the records are those of the submissions, of the petition's classes,
      in strict leaf order, and replay on the replicas to the new ones. */
  lemma BuildSuccess(d: Deployment, b: Backend, view: PetitionView, rep: Replica, subs: seq<SignerSubmission>)
    requires ReplicaSound(d, rep) && Build(d, b, view, rep, subs).result.Ok?
    ensures var o := Build(d, b, view, rep, subs);
            var sub := o.result.value;
            && 1 <= |sub.records| <= BATCH_SIZE_MAX && |sub.records| == |subs|
            && sub.public == PublicInputs(d, view, rep, o.replica, sub.records)
            && (exists sorted :: b.proveBatch(sub.public, sorted) == Some(sub.proof))
            && RootOf(d.imt, rep.trees.running) == view.runningRoot && RootOf(d.imt, rep.trees.idTag) == view.idTagRoot
            && InClassSet(view.classSet, sub.records) && Ascending(d, sub.records)
            && Replay(d, rep.trees, sub.records) == Ok(o.replica.trees)
            && o.replica.leafCount == rep.leafCount + |sub.records| && ReplicaSound(d, o.replica)
  {
    var sorted := SortByLeaf(d, subs);
    var records := RecordsOf(sorted);
    SortByLeafSorts(d, subs);
    InsertedIsReplay(d, rep.trees, records);
    ReplayKeepsSound(d, rep.trees, rep.leafCount, records);
    forall i | 0 <= i < |records| ensures records[i].classTag in view.classSet {
      assert sorted[i] in sorted;
      var k :| 0 <= k < |subs| && subs[k] == sorted[i];
      NoneRefused(b, view, subs, 0, k);
    }
    forall i, j | 0 <= i < j < |records| ensures LeafOf(d, records[i]) < LeafOf(d, records[j]) {
      assert LeafOfSub(d, sorted[i]) <= LeafOfSub(d, sorted[j]);
      assert LeavesOf(d, records)[i] != LeavesOf(d, records)[j];
    }
  }

  /** The relayer's root comparison is enough: with collision-free hashes equal roots mean equal trees. */
  lemma RootsInSync(d: Deployment, a: Trees, n: nat, b: Trees, m: nat)
    requires CollisionFree(d.imt) && Sound(d, a, n) && Sound(d, b, m)
    requires RootOf(d.imt, a.running) == RootOf(d.imt, b.running) && RootOf(d.imt, a.idTag) == RootOf(d.imt, b.idTag)
    ensures a == b && n == m
  {
    RootBinds(d.imt, a.running, b.running);
    RootBinds(d.imt, a.idTag, b.idTag);
  }

  lemma BuiltPassesBinding(d: Deployment, b: Backend, r: PetitionRecord, rep: Replica, after: Replica,
                           sub: BatchSubmission, sorted: seq<SignerSubmission>)
    requires Complete(d, b) && b.proveBatch(sub.public, sorted) == Some(sub.proof) && |sub.records| <= BATCH_SIZE_MAX
    requires sub.public == PublicInputs(d, ViewOf(r), rep, after, sub.records)
    ensures BindingCheck(d, r, sub).None?
  {
    assert d.verifyBatch(sub.proof, sub.public);
  }

  lemma BuiltPassesState(d: Deployment, r: PetitionRecord, rep: Replica, after: Replica, sub: BatchSubmission)
    requires IndexableTree(d) && 1 <= |sub.records| <= BATCH_SIZE_MAX
    requires sub.public == PublicInputs(d, ViewOf(r), rep, after, sub.records)
    requires RootOf(d.imt, rep.trees.running) == r.runningRoot && RootOf(d.imt, rep.trees.idTag) == r.idTagRoot
    requires rep.leafCount == r.leafCount < Pow2(d.imt.depth) && after.leafCount == rep.leafCount + |sub.records|
    ensures StateCheck(r, sub.public, |sub.records|).None?
  {
    var p := sub.public;
    assert p.batchSize == |sub.records| && p.priorLeafCount == rep.leafCount && p.newLeafCount == after.leafCount;
  }

  /** A batch built from sound replicas against the registry's view of an open petition passes every check
      of the registry, and leaves both sides with the same trees, roots and counts. */
  lemma BuiltBatchIsAccepted(d: Deployment, b: Backend, en: PetitionEntry, hs: seq<seq<Record>>, rep: Replica,
                             subs: seq<SignerSubmission>, relayer: Address, last: nat, block: nat)
    requires CollisionFree(d.imt) && IndexableTree(d) && Complete(d, b)
    requires Inv(d, en, hs, last) && last <= block && Stepped(en, block).record.state == SigningOpen
    requires ReplicaSound(d, rep) && Build(d, b, ViewOf(en.record), rep, subs).result.Ok?
    ensures var o := Build(d, b, ViewOf(en.record), rep, subs);
            var p := Publish(d, en, relayer, o.result.value, block);
            && p.result.Ok? && p.entry.trees == o.replica.trees && p.entry.record.leafCount == o.replica.leafCount
            && p.entry.record.runningRoot == RootOf(d.imt, o.replica.trees.running)
            && p.entry.record.idTagRoot == RootOf(d.imt, o.replica.trees.idTag)
            && ReplicaSound(d, o.replica)
  {
    var k: nat :| Holds(d, en, hs, k, last);
    SteppedHolds(d, en, hs, k, last, block);
    SettleMonotone(en.record.state, en.record.closeAt, block);
    var s, o := Stepped(en, block), Build(d, b, ViewOf(en.record), rep, subs);
    var sub := o.result.value;
    BuildSuccess(d, b, ViewOf(en.record), rep, subs);
    assert hs[..k] == hs;
    TreesAfterSound(d, hs);
    RootsInSync(d, rep.trees, rep.leafCount, s.trees, RecordCount(hs));
    var sorted :| b.proveBatch(sub.public, sorted) == Some(sub.proof);
    BuiltPassesBinding(d, b, s.record, rep, o.replica, sub, sorted);
    BuiltPassesState(d, s.record, rep, o.replica, sub);
    ExecuteIsReplay(d, s.record.classSet, None, s.trees, sub.records);
    BatchIndexFits(d, s, hs, k, block);
  }
}
