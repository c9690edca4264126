/** The petition registry: the object that holds all petitions and the block clock. */
module Registry {
  import opened Merkle
  import opened Field
  import opened Wrappers
  import opened Imt
  import opened Predicate
  import PredicateCodec
  import CanonicalScalars
  import opened Blob
  import opened Petition

  datatype Global = Global(s: nat, alpha: nat, alphaMin: nat, alphaMax: nat, n: nat)

  datatype Draft = Draft(
    organizer: Address, rRoot: Bytes32, predicateDef: PredicateDef, salt: Bytes32, classSet: seq<ClassTag>,
    thresholds: seq<u64>, classIndex: u8, closeAt: u64, bounty: Bytes32)

  datatype World = World(global: Global, petitions: map<Bytes32, PetitionEntry>, block: nat)

  // ----- registration -----

  predicate StrictlyIncreasing(s: seq<ClassTag>) {
    forall i :: 0 <= i < |s| - 1 ==> s[i] < s[i + 1]
  }

  function Sum(s: seq<u64>): nat {
    if |s| == 0 then 0 else s[0] + Sum(s[1..])
  }

  /** Checks on the draft alone. */
  function DraftError(draft: Draft, n: nat): Option<PredicateError> {
    match Validate(draft.predicateDef)
    case Some(e) => Some(e)
    case None =>
      if |draft.classSet| == 0 || |draft.thresholds| != |draft.classSet| || 0 in draft.thresholds
         || !StrictlyIncreasing(draft.classSet) || draft.classIndex >= n then Some(PredicateError.Malformed)
      else match FindClassBindingOperand(draft.predicateDef, draft.classIndex)
        case Err(e) => Some(e)
        case Ok(operand) => if operand in draft.classSet then None else Some(MissingClassBinding)
  }

  /** Checks of the draft against the clock and the age of the credential root. */
  function TimingError(draft: Draft, firstSeen: Option<nat>, now: nat): Option<RegistryError> {
    match firstSeen
    case None => Some(BadPredicate(PredicateError.Malformed))
    case Some(seen) =>
      if now < seen || now - seen < MIN_R_AGE_BLOCKS then Some(RRootTooYoung)
      else if draft.closeAt <= now || draft.closeAt - now > MAX_SIGNING_WINDOW_BLOCKS then
        Some(BadPredicate(PredicateError.Malformed))
      else None
  }

  function MinimumBounty(draft: Draft, alpha: nat): nat {
    alpha * (Sum(draft.thresholds) * 10) * |draft.predicateDef.ops|
  }

  function PetitionIdOf(d: Deployment, draft: Draft, encoded: seq<byte>, s: nat): Bytes32 {
    var pre := d.predicateHash(CanonicalScalars.Scalars(encoded), 0, FromBe(draft.salt)) % P;
    d.petitionId(draft.organizer, s, pre, draft.closeAt) % TWO_248
  }

  /** The petition's identifier and encoded predicate, if a slot is left and the identifier is new. */
  function Identification(d: Deployment, w: World, draft: Draft): Result<(Bytes32, seq<byte>), RegistryError> {
    match PredicateCodec.Encoded(draft.predicateDef)
    case Err(e) => Err(BadPredicate(e))
    case Ok(encoded) =>
      if w.global.s >= FSRT_SLOT_COUNT then Err(SlotCounterExhausted)
      else
        var id := PetitionIdOf(d, draft, encoded, w.global.s);
        if id in w.petitions then Err(DuplicatePetition) else Ok((id, encoded))
  }

  function BountyError(draft: Draft, g: Global): Option<RegistryError> {
    if !(g.alphaMin <= g.alpha <= g.alphaMax) then Some(AlphaOutOfBounds)
    else if MinimumBounty(draft, g.alpha) >= TWO_128 || Sum(draft.thresholds) * 10 >= TWO_128 then
      Some(BadPredicate(PredicateError.Malformed))
    else if draft.bounty >= TWO_128 then Some(BountyTooLarge)
    else if draft.bounty < MinimumBounty(draft, g.alpha) then Some(BountyBelowMinimum)
    else None
  }

  function InitialRecord(d: Deployment, draft: Draft, encoded: seq<byte>, id: Bytes32, slot: nat): PetitionRecord {
    var hash := d.predicateHash(CanonicalScalars.Scalars(encoded), FromBe(id), FromBe(draft.salt)) % P;
    var empty := RootOf(d.imt, [ZERO]);
    PetitionRecord(id, slot, draft.rRoot, encoded, hash, draft.classSet, draft.thresholds, draft.classIndex,
                   draft.closeAt, draft.bounty, draft.organizer, empty, empty, 0, false, [], Registered)
  }

  /** `register`: the new petition, or why the draft is refused. */
  function Registration(d: Deployment, w: World, draft: Draft, firstSeen: Option<nat>)
    : Result<(Bytes32, PetitionEntry), RegistryError>
  {
    match DraftError(draft, w.global.n)
    case Some(e) => Err(BadPredicate(e))
    case None =>
      match TimingError(draft, firstSeen, w.block)
      case Some(e) => Err(e)
      case None =>
        match Identification(d, w, draft)
        case Err(e) => Err(e)
        case Ok((id, encoded)) =>
          match BountyError(draft, w.global)
          case Some(e) => Err(e)
          case None => Ok((id, Stepped(PetitionEntry(InitialRecord(d, draft, encoded, id, w.global.s), [], FRESH),
                                       w.block)))
  }

  /** The checks on the draft alone: the scan for zero thresholds, the scan of neighbouring classes, and the taint
      analysis for the binding operand. */
  method CheckDraft(draft: Draft, n: nat) returns (r: Option<PredicateError>)
    ensures r == DraftError(draft, n)
  {
    r := Validate(draft.predicateDef);
    if r.Some? {
      return;
    }
    var zero := AnyZero(draft.thresholds);
    var increasing := NeighboursIncrease(draft.classSet);
    if |draft.classSet| == 0 || |draft.thresholds| != |draft.classSet| || zero || !increasing || draft.classIndex >= n {
      return Some(PredicateError.Malformed);
    }
    match FindClassBindingOperand(draft.predicateDef, draft.classIndex) {
      case Err(e) => return Some(e);
      case Ok(operand) =>
        var member := Member(draft.classSet, operand);
        return if member then None else Some(MissingClassBinding);
    }
  }

  method AnyZero(thresholds: seq<u64>) returns (zero: bool)
    ensures zero <==> 0 in thresholds
  {
    for i := 0 to |thresholds|
      invariant 0 !in thresholds[..i]
    {
      if thresholds[i] == 0 {
        return true;
      }
    }
    return false;
  }

  method NeighboursIncrease(classSet: seq<ClassTag>) returns (ok: bool)
    ensures ok <==> StrictlyIncreasing(classSet)
  {
    var i := 1;
    while i < |classSet|
      invariant 1 <= i && forall k :: 0 <= k < i - 1 && k < |classSet| - 1 ==> classSet[k] < classSet[k + 1]
    {
      if classSet[i - 1] >= classSet[i] {
        return false;
      }
      i := i + 1;
    }
    return true;
  }

  method Member(classSet: seq<ClassTag>, tag: ClassTag) returns (found: bool)
    ensures found <==> tag in classSet
  {
    for i := 0 to |classSet|
      invariant tag !in classSet[..i]
    {
      if classSet[i] == tag {
        return true;
      }
    }
    return false;
  }

  /** Adds the thresholds up, stopping at the first sum past 128 bits: exactly when the whole sum is. */
  method CheckedSum(thresholds: seq<u64>) returns (r: Option<nat>)
    ensures r == if Sum(thresholds) < TWO_128 then Some(Sum(thresholds)) else None
  {
    var sum := 0;
    for i := 0 to |thresholds|
      invariant sum + Sum(thresholds[i..]) == Sum(thresholds) && sum < TWO_128
    {
      assert thresholds[i..][1..] == thresholds[i + 1..];
      sum := sum + thresholds[i];
      if sum >= TWO_128 {
        return None;
      }
    }
    return Some(sum);
  }

  // ----- transitions of the whole registry -----

  /** Operations on one petition. */
  datatype Operation =
    | PublishBatch(relayer: Address, sub: BatchSubmission)
    | Contest(dispute: Dispute, blobs: Blobs)
    | Resolve(resolver: Address, resolution: ResolutionSubmission)
    | Expire(caller: Address, gasRebate: nat)

  datatype Action =
    | Tick(block: nat)
    | UpdateAlpha(alpha: nat)
    | Register(draft: Draft, firstSeen: Option<nat>)
    | On(id: Bytes32, op: Operation)

  /** What an operation makes of the petition it names. */
  function Touched(d: Deployment, en: PetitionEntry, op: Operation, block: nat): PetitionEntry {
    match op
    case PublishBatch(relayer, sub) => Publish(d, en, relayer, sub, block).entry
    case Contest(dispute, blobs) => DisputeBatch(d, blobs, en, dispute, block).entry
    case Resolve(resolver, sub) => ResolvePetition(d, en, resolver, sub, block).entry
    case Expire(caller, gasRebate) => MarkUnresolved(en, caller, gasRebate, block).entry
  }

  function Apply(d: Deployment, w: World, a: Action): World {
    match a
    case Tick(block) => w.(block := block)
    case UpdateAlpha(alpha) =>
      if w.global.alphaMin <= alpha <= w.global.alphaMax then w.(global := w.global.(alpha := alpha)) else w
    case Register(draft, firstSeen) => (
      match Registration(d, w, draft, firstSeen)
      case Err(_) => w
      case Ok((id, en)) => w.(petitions := w.petitions[id := en], global := w.global.(s := w.global.s + 1)))
    case On(id, op) =>
      if id !in w.petitions then w
      else w.(petitions := w.petitions[id := Touched(d, w.petitions[id], op, w.block)])
  }

  // ----- loops -----

  /** Runs a batch through scratch copies of the two trees. */
  method ExecuteRecords(d: Deployment, classSet: seq<ClassTag>, trees: Trees, rs: seq<Record>)
    returns (r: Result<Trees, RegistryError>)
    ensures r == Execute(d, classSet, None, trees, rs)
  {
    var scratch := trees;
    var prev: Option<Fr> := None;
    for i := 0 to |rs|
      invariant Execute(d, classSet, prev, scratch, rs[i..]) == Execute(d, classSet, None, trees, rs)
    {
      var rec := rs[i];
      assert rs[i..][1..] == rs[i + 1..];
      if rec.classTag !in classSet {
        return Err(BadBatchProof("class_tag not in class_set"));
      }
      var leaf := LeafOf(d, rec);
      if prev.Some? && prev.value >= leaf {
        return Err(BadBatchProof("leaf ordering violation"));
      }
      prev := Some(leaf);
      match Insert(d.imt, scratch.running, leaf) {
        case Err(_) => return Err(BadBatchProof("imt insert"));
        case Ok(running) => scratch := scratch.(running := running);
      }
      match Insert(d.imt, scratch.idTag, FromBe(rec.identityTag)) {
        case Err(_) => return Err(BadBatchProof("imt insert"));
        case Ok(idTag) => scratch := scratch.(idTag := idTag);
      }
    }
    return Ok(scratch);
  }

  /** Rebuilds both trees from nothing. */
  method ReplayRecords(d: Deployment, rs: seq<Record>) returns (r: Result<Trees, Error>)
    ensures r == Replay(d, FRESH, rs)
  {
    var scratch := FRESH;
    for i := 0 to |rs|
      invariant Replay(d, scratch, rs[i..]) == Replay(d, FRESH, rs)
    {
      assert rs[i..][1..] == rs[i + 1..];
      match InsertRecord(d, scratch, rs[i]) {
        case Err(e) => return Err(e);
        case Ok(next) => scratch := next;
      }
    }
    return Ok(scratch);
  }

  method VerifyOpenings(d: Deployment, blobs: Blobs, vh: Bytes32, openings: seq<Opening>)
    returns (r: Option<RegistryError>)
    ensures r == OpeningsRefusal(d, blobs, vh, openings)
  {
    for i := 0 to |openings|
      invariant OpeningsRefusal(d, blobs, vh, openings[i..]) == OpeningsRefusal(d, blobs, vh, openings)
    {
      assert openings[i..][1..] == openings[i + 1..];
      if VerifyOpening(d.blob, blobs, vh, openings[i]).Some? {
        return Some(BadDisputeOpening);
      }
    }
    return None;
  }

  method FetchRecords(blobs: Blobs, batches: seq<BatchRecord>) returns (r: Result<seq<Record>, BlobError>)
    ensures r == FetchActive(blobs, batches)
  {
    var records := [];
    for i := 0 to |batches|
      invariant FetchActive(blobs, batches[..i]) == Ok(records)
    {
      assert batches[..i + 1][..i] == batches[..i];
      if batches[i].active {
        if batches[i].versionedHash !in blobs {
          FetchStops(blobs, batches, i + 1);
          return Err(NotFound);
        }
        records := records + blobs[batches[i].versionedHash].records;
      }
    }
    assert batches[..|batches|] == batches;
    return Ok(records);
  }

  lemma {:induction false} FetchStops(blobs: Blobs, batches: seq<BatchRecord>, i: nat)
    requires i <= |batches| && FetchActive(blobs, batches[..i]) == Err(NotFound)
    ensures FetchActive(blobs, batches) == Err(NotFound)
    decreases |batches| - i
  {
    if i == |batches| {
      assert batches[..i] == batches;
    } else {
      assert batches[..i + 1][..i] == batches[..i];
      FetchStops(blobs, batches, i + 1);
    }
  }

  method RollBackToPredecessor(d: Deployment, batches: seq<BatchRecord>) returns (r: (Digest, Digest, nat))
    ensures r == RollBack(d, batches)
  {
    var i := |batches|;
    assert batches[..i] == batches;
    while i > 0
      invariant 0 <= i <= |batches| && RollBack(d, batches[..i]) == RollBack(d, batches)
    {
      i := i - 1;
      assert batches[..i + 1][..i] == batches[..i];
      if batches[i].active {
        return (batches[i].newRunningRoot, batches[i].newIdTagRoot, batches[i].newLeafCount);
      }
    }
    return (RootOf(d.imt, [ZERO]), RootOf(d.imt, [ZERO]), 0);
  }

  /** Compares a resolution's public inputs with the stored petition, class by class. */
  method MatchesState(r: PetitionRecord, p: ResolutionPublic) returns (ok: bool)
    ensures ok == ResolutionMatches(r, p)
  {
    if ToBe(p.predicateHash) != r.predicateHash || ToBe(p.rRoot) != r.rRoot || p.runningRoot != r.runningRoot
       || ToU64(p.leafCount) != Some(r.leafCount) {
      return false;
    }
    if |p.classSet| != |r.classSet| || |p.thresholds| != |r.thresholds| || |p.bPerClass| != |r.classSet|
      || |r.thresholds| != |r.classSet| {
      return false;
    }
    for i := 0 to |r.classSet|
      invariant forall k :: 0 <= k < i ==> p.classSet[k] == r.classSet[k] % P && p.thresholds[k] == r.thresholds[k] % P
    {
      if p.classSet[i] != r.classSet[i] % P || p.thresholds[i] != r.thresholds[i] % P {
        return false;
      }
    }
    return true;
  }

  method NonZero(fs: seq<Fr>) returns (bits: seq<bool>)
    ensures bits == NonZeroBits(fs)
  {
    bits := [];
    for i := 0 to |fs|
      invariant |bits| == i && forall k :: 0 <= k < i ==> bits[k] == (fs[k] != 0)
    {
      bits := bits + [fs[i] != 0];
    }
  }

  // ----- the object -----

  class PetitionRegistry {
    const d: Deployment
    var global: Global
    var petitions: map<Bytes32, PetitionEntry>
    var block: nat

    ghost function State(): World
      reads this
    {
      World(global, petitions, block)
    }

    constructor (d: Deployment, global: Global, block: nat)
      ensures this.d == d && State() == World(global, map[], block)
    {
      this.d, this.global, this.block := d, global, block;
      petitions := map[];
    }

    /** Advances the lifecycle of a petition as far as the block number allows. */
    method StepState(id: Bytes32) returns (state: PetitionState)
      requires id in petitions
      modifies this`petitions
      ensures petitions == old(petitions)[id := Stepped(old(petitions)[id], block)]
      ensures state == petitions[id].record.state
    {
      var en := petitions[id];
      state := en.record.state;
      while NextState(state, en.record.closeAt, block).Some?
        invariant Settle(state, en.record.closeAt, block) == Settle(en.record.state, en.record.closeAt, block)
        decreases 5 - Rank(state)
      {
        state := NextState(state, en.record.closeAt, block).value;
      }
      petitions := petitions[id := en.(record := en.record.(state := state))];
    }

    /** Carries out the checks of a registration in order, then takes the next slot, stores the petition with empty
        trees and opens it for signing. */
    method RegisterPetition(draft: Draft, firstSeen: Option<nat>) returns (r: Result<Bytes32, RegistryError>)
      modifies this
      ensures State() == Apply(d, old(State()), Register(draft, firstSeen))
      ensures match Registration(d, old(State()), draft, firstSeen)
              case Err(e) => r == Err(e)
              case Ok((id, en)) => r == Ok(id) && petitions[id].record.slot == old(global.s)
    {
      var malformed := CheckDraft(draft, global.n);
      if malformed.Some? {
        return Err(BadPredicate(malformed.value));
      }
      var untimely := TimingError(draft, firstSeen, block);
      if untimely.Some? {
        return Err(untimely.value);
      }
      var identified := Identify(draft);
      if identified.Err? {
        return Err(identified.error);
      }
      var (id, encoded) := identified.value;
      var unpaid := CheckBounty(draft);
      if unpaid.Some? {
        return Err(unpaid.value);
      }
      var slot := global.s;
      global := global.(s := global.s + 1);
      petitions := petitions[id := PetitionEntry(InitialRecord(d, draft, encoded, id, slot), [], FRESH)];
      var _ := StepState(id);
      return Ok(id);
    }

    /** Encodes the predicate and derives the identifier. */
    method Identify(draft: Draft) returns (r: Result<(Bytes32, seq<byte>), RegistryError>)
      ensures r == Identification(d, State(), draft)
    {
      var encoded := PredicateCodec.Encode(draft.predicateDef);
      if encoded.Err? {
        return Err(BadPredicate(encoded.error));
      }
      if global.s >= FSRT_SLOT_COUNT {
        return Err(SlotCounterExhausted);
      }
      var id := PetitionIdOf(d, draft, encoded.value, global.s);
      if id in petitions {
        return Err(DuplicatePetition);
      }
      return Ok((id, encoded.value));
    }

    /** Compares the bounty with the floor, in 128-bit arithmetic that reports overflow. */
    method CheckBounty(draft: Draft) returns (r: Option<RegistryError>)
      ensures r == BountyError(draft, global)
    {
      var g := global;
      if !(g.alphaMin <= g.alpha <= g.alphaMax) {
        return Some(AlphaOutOfBounds);
      }
      var sum := CheckedSum(draft.thresholds);
      if sum.None? || sum.value * 10 >= TWO_128 {
        return Some(BadPredicate(PredicateError.Malformed));
      }
      var floor := g.alpha * (sum.value * 10) * |draft.predicateDef.ops|;
      if floor >= TWO_128 {
        return Some(BadPredicate(PredicateError.Malformed));
      }
      if draft.bounty >= TWO_128 {
        return Some(BountyTooLarge);
      }
      return if draft.bounty < floor then Some(BountyBelowMinimum) else None;
    }

    method Publish(id: Bytes32, relayer: Address, sub: BatchSubmission) returns (r: Result<BatchRecord, RegistryError>)
      modifies this`petitions
      ensures State() == Apply(d, old(State()), On(id, PublishBatch(relayer, sub)))
      ensures r == if id !in old(petitions) then Err(UnknownPetition)
        else Petition.Publish(d, old(petitions)[id], relayer, sub, block).result
    {
      if id !in petitions {
        return Err(UnknownPetition);
      }
      var state := StepState(id);
      if state != SigningOpen {
        return Err(BadState(state));
      }
      var en := petitions[id];
      match BatchCheck(d, en.record, sub) {
        case Some(e) => return Err(e);
        case None =>
      }
      var executed := ExecuteRecords(d, en.record.classSet, en.trees, sub.records);
      if executed.Err? {
        return Err(executed.error);
      }
      var trees, p := executed.value, sub.public;
      if p.newRunningRoot != RootOf(d.imt, trees.running) {
        return Err(BadBatchProof("new_running_root"));
      }
      if p.newIdTagRoot != RootOf(d.imt, trees.idTag) {
        return Err(BadBatchProof("new_identity_tag_set_root"));
      }
      en := en.(trees := trees);
      petitions := petitions[id := en];
      if |en.batches| >= TWO_32 {
        return Err(BadBatchProof("batch index overflow"));
      }
      var vh := VersionedHash(d.blob, EncodedBlob(sub.records));
      var batch := BatchRecord(vh, p.priorRunningRoot, p.newRunningRoot, p.priorIdTagRoot, p.newIdTagRoot,
                               p.priorLeafCount, p.newLeafCount, relayer, block, true);
      var rec := en.record.(runningRoot := p.newRunningRoot, idTagRoot := p.newIdTagRoot, leafCount := p.newLeafCount);
      petitions := petitions[id := PetitionEntry(rec, en.batches + [batch], trees)];
      return Ok(batch);
    }

    method DisputeBatch(id: Bytes32, dispute: Dispute, blobs: Blobs)
      returns (r: Result<(Digest, Digest, nat), RegistryError>)
      modifies this`petitions
      ensures State() == Apply(d, old(State()), On(id, Contest(dispute, blobs)))
      ensures r == if id !in old(petitions) then Err(UnknownPetition)
        else Petition.DisputeBatch(d, blobs, old(petitions)[id], dispute, block).result
    {
      if id !in petitions {
        return Err(UnknownPetition);
      }
      var state := StepState(id);
      var en, k := petitions[id], dispute.batchIndex;
      if state != DisputeWindow || en.record.closeAt + RESOLUTION_DEADLINE_BLOCKS >= TWO_64 {
        return Err(BadState(state));
      }
      if block >= en.record.closeAt + RESOLUTION_DEADLINE_BLOCKS {
        return Err(DisputeWindowClosed);
      }
      if k >= |en.batches| {
        return Err(DisputeUnknownBatch);
      }
      if !en.batches[k].active {
        return Err(DisputeBatchAlreadyRepudiated);
      }
      var refused := VerifyOpenings(d, blobs, en.batches[k].versionedHash, dispute.openings);
      if refused.Some? {
        return Err(refused.value);
      }
      refused := ViolationRefusal(d, en.record.classSet, dispute);
      if refused.Some? {
        return Err(refused.value);
      }
      var fetched := FetchRecords(blobs, en.batches[..k]);
      if fetched.Err? {
        return Err(BlobFailure(fetched.error));
      }
      var scratch := ReplayRecords(d, fetched.value);
      if scratch.Err? {
        return Err(ImtFailure(scratch.error));
      }
      var back := RollBackToPredecessor(d, en.batches[..k]);
      var rec := en.record.(runningRoot := back.0, idTagRoot := back.1, leafCount := back.2);
      petitions := petitions[id := PetitionEntry(rec, Repudiated(en.batches, k), scratch.value)];
      return Ok(back);
    }

    method ResolvePetition(id: Bytes32, resolver: Address, sub: ResolutionSubmission)
      returns (r: Result<Payout, RegistryError>)
      modifies this`petitions
      ensures State() == Apply(d, old(State()), On(id, Resolve(resolver, sub)))
      ensures r == if id !in old(petitions) then Err(UnknownPetition)
        else Petition.ResolvePetition(d, old(petitions)[id], resolver, sub, block).result
    {
      if id !in petitions {
        return Err(UnknownPetition);
      }
      var state := StepState(id);
      var en, p := petitions[id], sub.public;
      if state != DisputeWindow || en.record.closeAt + RESOLUTION_DEADLINE_BLOCKS >= TWO_64
         || block < en.record.closeAt + RESOLUTION_DEADLINE_BLOCKS {
        return Err(BadState(state));
      }
      if !d.verifyResolution(sub.proof, p) {
        return Err(BadResolutionProof);
      }
      if ToU64(p.leafCount).None? {
        return Err(BadBatchProof("u64 range"));
      }
      var matches := MatchesState(en.record, p);
      if !matches {
        return Err(ResolutionStateMismatch);
      }
      var bits := NonZero(p.bPerClass);
      petitions := petitions[id := en.(record := en.record.(b := p.b != 0, bPerClass := bits, state := Resolved))];
      if en.record.bounty >= TWO_128 {
        return Err(BountyTooLarge);
      }
      return Ok(Payout(resolver, en.record.bounty, resolver, 0));
    }

    method MarkUnresolved(id: Bytes32, caller: Address, gasRebate: nat) returns (r: Result<Payout, RegistryError>)
      modifies this`petitions
      ensures State() == Apply(d, old(State()), On(id, Expire(caller, gasRebate)))
      ensures r == if id !in old(petitions) then Err(UnknownPetition)
        else Petition.MarkUnresolved(old(petitions)[id], caller, gasRebate, block).result
    {
      if id !in petitions {
        return Err(UnknownPetition);
      }
      var state := StepState(id);
      var en := petitions[id];
      var deadline := en.record.closeAt + RESOLUTION_DEADLINE_BLOCKS + MARK_UNRESOLVED_GRACE_BLOCKS;
      if deadline >= TWO_64 || block < deadline || state != DisputeWindow {
        return Err(BadState(state));
      }
      if en.record.bounty >= TWO_128 {
        return Err(BountyTooLarge);
      }
      var cap := en.record.bounty / 100;
      var rebate := if gasRebate <= cap then gasRebate else cap;
      petitions := petitions[id := en.(record := en.record.(runningRoot := TOMBSTONE_MARKER, state := Unresolved))];
      return Ok(Payout(en.record.organizer, en.record.bounty - rebate, caller, rebate));
    }
  }
}
