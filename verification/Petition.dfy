/** Petitions as the registry keeps them, and what each registry operation does to one. */
module Petition {
  import opened Merkle
  import opened Field
  import opened Wrappers
  import opened Imt
  import opened Predicate
  import opened Blob

  const BATCH_SIZE_MAX := 6
  const FSRT_SLOT_COUNT := 0x100_0000
  const MAX_SIGNING_WINDOW_BLOCKS := 82800
  const COOLDOWN_BLOCKS := 600
  const RESOLUTION_DEADLINE_BLOCKS := 100800
  const MARK_UNRESOLVED_GRACE_BLOCKS := 300
  const MIN_R_AGE_BLOCKS := 216000
  const TOMBSTONE_MARKER: Digest := 1

  type Address = nat
  type Proof = seq<byte>

  datatype PetitionState = Registered | SigningOpen | SigningClosed | Cooldown | DisputeWindow | Resolved | Unresolved

  datatype BatchPublic = BatchPublic(
    petitionId: Fr, rRoot: Fr, predicateHash: Fr, classIndex: Fr, slot: Fr, batchSize: Fr,
    priorRunningRoot: Digest, newRunningRoot: Digest, priorIdTagRoot: Digest, newIdTagRoot: Digest,
    priorLeafCount: Fr, newLeafCount: Fr, versionedHash: Fr)

  datatype ResolutionPublic = ResolutionPublic(
    predicateHash: Fr, rRoot: Fr, runningRoot: Digest, leafCount: Fr,
    classSet: seq<Fr>, thresholds: seq<Fr>, b: Fr, bPerClass: seq<Fr>, classIndex: Fr)

  datatype BatchSubmission = BatchSubmission(public: BatchPublic, records: seq<Record>, proof: Proof)
  datatype ResolutionSubmission = ResolutionSubmission(public: ResolutionPublic, proof: Proof)

  /** What the registry is deployed with: tree and blob hashes, the record and predicate hashes, the
      petition id derivation and the proof verifiers. */
  datatype Deployment = Deployment(
    imt: Params, blob: BlobHash,
    leaf: (nat, nat) -> nat,
    predicateHash: (seq<Fr>, Fr, Fr) -> nat,
    petitionId: (nat, nat, nat, nat) -> nat,
    verifyBatch: (Proof, BatchPublic) -> bool,
    verifyResolution: (Proof, ResolutionPublic) -> bool)

  datatype BatchRecord = BatchRecord(
    versionedHash: Bytes32, priorRunningRoot: Digest, newRunningRoot: Digest,
    priorIdTagRoot: Digest, newIdTagRoot: Digest, priorLeafCount: nat, newLeafCount: nat,
    relayer: Address, submittedAt: nat, active: bool)

  datatype PetitionRecord = PetitionRecord(
    petitionId: Bytes32, slot: nat, rRoot: Bytes32, predicateDef: seq<byte>, predicateHash: Fr,
    classSet: seq<ClassTag>, thresholds: seq<nat>, classIndex: u8, closeAt: nat, bounty: nat, organizer: Address,
    runningRoot: Digest, idTagRoot: Digest, leafCount: nat, b: bool, bPerClass: seq<bool>, state: PetitionState)

  /** The two indexed trees of a petition: record leaves and identity tags. */
  datatype Trees = Trees(running: seq<Leaf>, idTag: seq<Leaf>)

  datatype PetitionEntry = PetitionEntry(record: PetitionRecord, batches: seq<BatchRecord>, trees: Trees)

  const FRESH := Trees([ZERO], [ZERO])

  datatype RegistryError =
    | DuplicatePetition | UnknownPetition | BadState(state: PetitionState) | RRootTooYoung | AlphaOutOfBounds
    | BountyBelowMinimum | SlotCounterExhausted | BadPredicate(cause: PredicateError)
    | BadBatchProof(reason: string) | BatchPriorMismatch | BatchSizeOutOfRange
    | BadResolutionProof | ResolutionStateMismatch | BadDisputeOpening | DisputePredicateNotMet
    | DisputeUnknownBatch | DisputeBatchAlreadyRepudiated | DisputeWindowClosed
    | ImtFailure(imt: Error) | BlobFailure(blob: BlobError) | BountyTooLarge

  // ----- lifecycle -----

  /** Block arithmetic wraps at 64 bits where the code adds without a check. */
  function CooldownEnd(closeAt: nat): nat {
    (closeAt + COOLDOWN_BLOCKS) % TWO_64
  }

  function NextState(s: PetitionState, closeAt: nat, block: nat): Option<PetitionState> {
    match s
    case Registered => Some(SigningOpen)
    case SigningOpen => if block >= closeAt then Some(SigningClosed) else None
    case SigningClosed => Some(Cooldown)
    case Cooldown => if block >= CooldownEnd(closeAt) then Some(DisputeWindow) else None
    case _ => None
  }

  function Rank(s: PetitionState): nat {
    match s
    case Registered => 0 case SigningOpen => 1 case SigningClosed => 2 case Cooldown => 3
    case DisputeWindow => 4 case Resolved => 5 case Unresolved => 5
  }

  function Settle(s: PetitionState, closeAt: nat, block: nat): PetitionState
    decreases 5 - Rank(s)
  {
    match NextState(s, closeAt, block)
    case None => s
    case Some(next) => Settle(next, closeAt, block)
  }

  function Stepped(en: PetitionEntry, block: nat): PetitionEntry {
    en.(record := en.record.(state := Settle(en.record.state, en.record.closeAt, block)))
  }

  // ----- records into trees -----

  function LeafOf(d: Deployment, r: Record): Fr {
    d.leaf(FromBe(r.nullifier), r.classTag) % P
  }

  function InsertRecord(d: Deployment, t: Trees, r: Record): Result<Trees, Error> {
    match Insert(d.imt, t.running, LeafOf(d, r))
    case Err(e) => Err(e)
    case Ok(running) =>
      match Insert(d.imt, t.idTag, FromBe(r.identityTag))
      case Err(e) => Err(e)
      case Ok(idTag) => Ok(Trees(running, idTag))
  }

  function Replay(d: Deployment, t: Trees, rs: seq<Record>): Result<Trees, Error>
    decreases |rs|
  {
    if |rs| == 0 then Ok(t)
    else match InsertRecord(d, t, rs[0])
      case Err(e) => Err(e)
      case Ok(next) => Replay(d, next, rs[1..])
  }

  // ----- publishing a batch -----

  /** The re-execution of a batch on the petition's trees, record by record. */
  function Execute(d: Deployment, classSet: seq<ClassTag>, prev: Option<Fr>, t: Trees, rs: seq<Record>)
    : Result<Trees, RegistryError>
    decreases |rs|
  {
    if |rs| == 0 then Ok(t)
    else
      var leaf := LeafOf(d, rs[0]);
      if rs[0].classTag !in classSet then Err(BadBatchProof("class_tag not in class_set"))
      else if prev.Some? && prev.value >= leaf then Err(BadBatchProof("leaf ordering violation"))
      else match InsertRecord(d, t, rs[0])
        case Err(_) => Err(BadBatchProof("imt insert"))
        case Ok(next) => Execute(d, classSet, Some(leaf), next, rs[1..])
  }

  /** A field element as a 64-bit number. */
  function ToU64(f: Fr): Option<nat> {
    if f < TWO_64 then Some(f) else None
  }

  /** The submission belongs to the petition: blob hash, proof, bindings and slot. */
  function BindingCheck(d: Deployment, r: PetitionRecord, sub: BatchSubmission): Option<RegistryError> {
    var p := sub.public;
    if |sub.records| > RECORDS_PER_BLOB then Some(BlobFailure(Capacity))
    else if VersionedHash(d.blob, EncodedBlob(sub.records)) != ToBe(p.versionedHash) then
      Some(BlobFailure(BlobError.Malformed))
    else if !d.verifyBatch(sub.proof, p) then Some(BadBatchProof("proof"))
    else if p.petitionId != FromBe(r.petitionId) || p.rRoot != FromBe(r.rRoot) || p.predicateHash != r.predicateHash
            || p.classIndex != r.classIndex % P then Some(BadBatchProof("petition bindings mismatch"))
    else if p.slot != r.slot % P then Some(BadBatchProof("slot mismatch"))
    else None
  }

  /** The submission continues the petition: batch size, prior state and new count. */
  function StateCheck(r: PetitionRecord, p: BatchPublic, records: nat): Option<RegistryError> {
    match ToU64(p.batchSize)
    case None => Some(BadBatchProof("u64 range"))
    case Some(size) =>
      if size == 0 || size > BATCH_SIZE_MAX || records != size then Some(BatchSizeOutOfRange)
      else match ToU64(p.priorLeafCount)
        case None => Some(BadBatchProof("u64 range"))
        case Some(prior) =>
          if p.priorRunningRoot != r.runningRoot || p.priorIdTagRoot != r.idTagRoot
            || prior != r.leafCount then Some(BatchPriorMismatch)
          else match ToU64(p.newLeafCount)
            case None => Some(BadBatchProof("u64 range"))
            case Some(next) =>
              if prior + size >= TWO_64 then Some(BadBatchProof("leaf count overflow"))
              else if next != prior + size then Some(BadBatchProof("new_leaf_count"))
              else None
  }

  /** The checks on a submission that need no tree. */
  function BatchCheck(d: Deployment, r: PetitionRecord, sub: BatchSubmission): Option<RegistryError> {
    match BindingCheck(d, r, sub)
    case Some(e) => Some(e)
    case None => StateCheck(r, sub.public, |sub.records|)
  }

  datatype Outcome<T> = Outcome(entry: PetitionEntry, result: Result<T, RegistryError>)

  /** `publish_batch` on one petition. A batch list that has run out of indices is noticed only after the
      trees were replaced. */
  function Publish(d: Deployment, en0: PetitionEntry, relayer: Address, sub: BatchSubmission,
                   block: nat): Outcome<BatchRecord>
  {
    var en := Stepped(en0, block);
    var p, r := sub.public, en.record;
    if r.state != SigningOpen then Outcome(en, Err(BadState(r.state)))
    else match BatchCheck(d, r, sub)
      case Some(e) => Outcome(en, Err(e))
      case None =>
        match Execute(d, r.classSet, None, en.trees, sub.records)
        case Err(e) => Outcome(en, Err(e))
        case Ok(trees) =>
          if p.newRunningRoot != RootOf(d.imt, trees.running) then Outcome(en, Err(BadBatchProof("new_running_root")))
          else if p.newIdTagRoot != RootOf(d.imt, trees.idTag) then
            Outcome(en, Err(BadBatchProof("new_identity_tag_set_root")))
          else if |en.batches| >= TWO_32 then Outcome(en.(trees := trees), Err(BadBatchProof("batch index overflow")))
          else
            var batch := BatchRecord(VersionedHash(d.blob, EncodedBlob(sub.records)),
                                     p.priorRunningRoot, p.newRunningRoot, p.priorIdTagRoot, p.newIdTagRoot,
                                     p.priorLeafCount, p.newLeafCount, relayer, block, true);
            Outcome(PetitionEntry(r.(runningRoot := p.newRunningRoot, idTagRoot := p.newIdTagRoot,
                                     leafCount := p.newLeafCount),
                                  en.batches + [batch], trees), Ok(batch))
  }

  // ----- disputes -----

  datatype ViolationType = ClassTagOutOfSet | IntraBatchDuplicateIdentityTag | LeafOrderingViolation

  datatype Dispute = Dispute(batchIndex: nat, violation: ViolationType, positionI: nat, positionJ: Option<nat>,
                             openings: seq<Opening>)

  /** Whether the evidence opened by a dispute shows the violation; `None` means it does. */
  function ViolationRefusal(d: Deployment, classSet: seq<ClassTag>, dispute: Dispute): Option<RegistryError> {
    match Evidence(dispute.openings, dispute.positionI)
    case None => Some(BadDisputeOpening)
    case Some(ev) =>
      match dispute.violation
      case ClassTagOutOfSet => if ev.classTag in classSet then Some(DisputePredicateNotMet) else None
      case IntraBatchDuplicateIdentityTag => (
        match dispute.positionJ
        case None => Some(BadDisputeOpening)
        case Some(j) =>
          if j == dispute.positionI then Some(DisputePredicateNotMet)
          else match Evidence(dispute.openings, j)
            case None => Some(BadDisputeOpening)
            case Some(other) => if ev.identityTag != other.identityTag then Some(DisputePredicateNotMet) else None)
      case LeafOrderingViolation => (
        match dispute.positionJ
        case None => Some(BadDisputeOpening)
        case Some(j) =>
          if j != dispute.positionI + 1 then Some(DisputePredicateNotMet)
          else match Evidence(dispute.openings, j)
            case None => Some(BadDisputeOpening)
            case Some(other) => if LeafOf(d, ev) < LeafOf(d, other) then Some(DisputePredicateNotMet) else None)
  }

  function OpeningsRefusal(d: Deployment, blobs: Blobs, vh: Bytes32, openings: seq<Opening>): Option<RegistryError> {
    if |openings| == 0 then None
    else if VerifyOpening(d.blob, blobs, vh, openings[0]).Some? then Some(BadDisputeOpening)
    else OpeningsRefusal(d, blobs, vh, openings[1..])
  }

  /** The records of the Active batches, fetched in order. */
  function FetchActive(blobs: Blobs, batches: seq<BatchRecord>): Result<seq<Record>, BlobError>
    decreases |batches|
  {
    if |batches| == 0 then Ok([])
    else match FetchActive(blobs, batches[..|batches| - 1])
      case Err(e) => Err(e)
      case Ok(rs) =>
        var last := batches[|batches| - 1];
        if !last.active then Ok(rs)
        else if last.versionedHash !in blobs then Err(NotFound)
        else Ok(rs + blobs[last.versionedHash].records)
  }

  /** Roots and leaf count left by the last Active batch, or those of the empty petition. */
  function RollBack(d: Deployment, batches: seq<BatchRecord>): (Digest, Digest, nat)
    decreases |batches|
  {
    if |batches| == 0 then (RootOf(d.imt, [ZERO]), RootOf(d.imt, [ZERO]), 0)
    else
      var last := batches[|batches| - 1];
      if last.active then (last.newRunningRoot, last.newIdTagRoot, last.newLeafCount)
      else RollBack(d, batches[..|batches| - 1])
  }

  function Repudiated(batches: seq<BatchRecord>, from: nat): (r: seq<BatchRecord>)
    ensures |r| == |batches|
  {
    seq(|batches|, i requires 0 <= i < |batches| => if i < from then batches[i] else batches[i].(active := false))
  }

  function DisputeBatch(d: Deployment, blobs: Blobs, en0: PetitionEntry, dispute: Dispute,
                        block: nat): Outcome<(Digest, Digest, nat)>
  {
    var en := Stepped(en0, block);
    var r, k := en.record, dispute.batchIndex;
    if r.state != DisputeWindow || r.closeAt + RESOLUTION_DEADLINE_BLOCKS >= TWO_64 then
      Outcome(en, Err(BadState(r.state)))
    else if block >= r.closeAt + RESOLUTION_DEADLINE_BLOCKS then Outcome(en, Err(DisputeWindowClosed))
    else if k >= |en.batches| then Outcome(en, Err(DisputeUnknownBatch))
    else if !en.batches[k].active then Outcome(en, Err(DisputeBatchAlreadyRepudiated))
    else match OpeningsRefusal(d, blobs, en.batches[k].versionedHash, dispute.openings)
      case Some(e) => Outcome(en, Err(e))
      case None =>
        match ViolationRefusal(d, r.classSet, dispute)
        case Some(e) => Outcome(en, Err(e))
        case None =>
          match FetchActive(blobs, en.batches[..k])
          case Err(e) => Outcome(en, Err(BlobFailure(e)))
          case Ok(records) =>
            match Replay(d, FRESH, records)
            case Err(e) => Outcome(en, Err(ImtFailure(e)))
            case Ok(trees) =>
              var (rr, idt, lc) := RollBack(d, en.batches[..k]);
              Outcome(PetitionEntry(r.(runningRoot := rr, idTagRoot := idt, leafCount := lc),
                                    Repudiated(en.batches, k), trees),
                      Ok((rr, idt, lc)))
  }

  // ----- closing a petition -----

  predicate ResolutionMatches(r: PetitionRecord, p: ResolutionPublic) {
    && ToBe(p.predicateHash) == r.predicateHash && ToBe(p.rRoot) == r.rRoot
    && p.runningRoot == r.runningRoot && ToU64(p.leafCount) == Some(r.leafCount)
    && |p.classSet| == |r.classSet| && |p.thresholds| == |r.thresholds| && |p.bPerClass| == |r.classSet|
    && |r.thresholds| == |r.classSet|
    && (forall i :: 0 <= i < |r.classSet| ==> p.classSet[i] == r.classSet[i] % P)
    && (forall i :: 0 <= i < |r.classSet| ==> p.thresholds[i] == r.thresholds[i] % P)
  }

  function NonZeroBits(fs: seq<Fr>): (bits: seq<bool>)
    ensures |bits| == |fs| && forall i :: 0 <= i < |fs| ==> bits[i] == (fs[i] != 0)
  {
    seq(|fs|, i requires 0 <= i < |fs| => fs[i] != 0)
  }

  /** Payment of a bounty: to whom and how much, and what goes to a caller as gas rebate. */
  datatype Payout = Payout(recipient: Address, amount: nat, caller: Address, rebate: nat)

  /** `resolve` on one petition. A bounty too large to pay is noticed only after the outcome is stored. */
  function ResolvePetition(d: Deployment, en0: PetitionEntry, resolver: Address, sub: ResolutionSubmission,
                           block: nat): Outcome<Payout>
  {
    var en := Stepped(en0, block);
    var r, p := en.record, sub.public;
    if r.state != DisputeWindow || r.closeAt + RESOLUTION_DEADLINE_BLOCKS >= TWO_64
      || block < r.closeAt + RESOLUTION_DEADLINE_BLOCKS
      then Outcome(en, Err(BadState(r.state)))
    else if !d.verifyResolution(sub.proof, p) then Outcome(en, Err(BadResolutionProof))
    else if ToU64(p.leafCount).None? then Outcome(en, Err(BadBatchProof("u64 range")))
    else if !ResolutionMatches(r, p) then Outcome(en, Err(ResolutionStateMismatch))
    else
      var done := en.(record := r.(b := p.b != 0, bPerClass := NonZeroBits(p.bPerClass), state := Resolved));
      if r.bounty >= TWO_128 then Outcome(done, Err(BountyTooLarge))
      else Outcome(done, Ok(Payout(resolver, r.bounty, resolver, 0)))
  }

  function MarkUnresolved(en0: PetitionEntry, caller: Address, gasRebate: nat, block: nat): Outcome<Payout> {
    var en := Stepped(en0, block);
    var r := en.record;
    var deadline := r.closeAt + RESOLUTION_DEADLINE_BLOCKS + MARK_UNRESOLVED_GRACE_BLOCKS;
    if deadline >= TWO_64 || block < deadline || r.state != DisputeWindow then Outcome(en, Err(BadState(r.state)))
    else if r.bounty >= TWO_128 then Outcome(en, Err(BountyTooLarge))
    else
      var cap := r.bounty / 100;
      var rebate := if gasRebate <= cap then gasRebate else cap;
      Outcome(en.(record := r.(runningRoot := TOMBSTONE_MARKER, state := Unresolved)),
              Ok(Payout(r.organizer, r.bounty - rebate, caller, rebate)))
  }
}
