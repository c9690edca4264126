/** What stands behind every accepted step: which batches, resolutions and expiries the registry accepts, exactly, and
    that over every run each stored batch and each resolution is vouched for by a submission whose proof verified. */
module RegistryProofs {
  import opened Field
  import opened Wrappers
  import opened Imt
  import opened Predicate
  import opened Blob
  import opened Petition
  import opened PetitionInvariant
  import opened Registry
  import opened RegistryRuns
  import opened RegistryTerms

  // ----- publication -----

  /** The submission's proof verifies, and its public inputs are bound to the petition and to the blob. */
  ghost predicate Vouches(d: Deployment, r: PetitionRecord, sub: BatchSubmission) {
    var p := sub.public;
    && d.verifyBatch(sub.proof, p)
    && p.petitionId == r.petitionId % P && p.rRoot == r.rRoot % P && p.predicateHash == r.predicateHash
    && p.classIndex == r.classIndex && p.slot == r.slot % P
    && p.versionedHash == VersionedHash(d.blob, EncodedBlob(sub.records))
  }

  /** The public inputs go from the petition's state to that state and these trees, by the number of records. */
  ghost predicate Extends(d: Deployment, r: PetitionRecord, sub: BatchSubmission, after: Trees) {
    var p, n := sub.public, |sub.records|;
    && 1 <= n <= BATCH_SIZE_MAX && p.batchSize == n
    && p.priorRunningRoot == r.runningRoot && p.priorIdTagRoot == r.idTagRoot && p.priorLeafCount == r.leafCount
    && p.newLeafCount == r.leafCount + n < TWO_64
    && p.newRunningRoot == RootOf(d.imt, after.running) && p.newIdTagRoot == RootOf(d.imt, after.idTag)
  }

  lemma BindingCheckIff(d: Deployment, r: PetitionRecord, sub: BatchSubmission)
    requires |sub.records| <= RECORDS_PER_BLOB
    ensures BindingCheck(d, r, sub).None? <==> Vouches(d, r, sub)
  {
  }

  lemma StateCheckIff(r: PetitionRecord, p: BatchPublic, n: nat)
    ensures StateCheck(r, p, n).None? <==>
      && 1 <= n <= BATCH_SIZE_MAX && p.batchSize == n
      && p.priorRunningRoot == r.runningRoot && p.priorIdTagRoot == r.idTagRoot && p.priorLeafCount == r.leafCount
      && p.newLeafCount == r.leafCount + n < TWO_64
  {
  }

  /** The publication by its parts. */
  lemma PublishByParts(d: Deployment, en: PetitionEntry, relayer: Address, sub: BatchSubmission, block: nat)
    ensures var s, p := Stepped(en, block), sub.public;
            Publish(d, en, relayer, sub, block).result.Ok? <==>
              && s.record.state == SigningOpen && BatchCheck(d, s.record, sub).None?
              && Execute(d, s.record.classSet, None, s.trees, sub.records).Ok?
              && var t := Execute(d, s.record.classSet, None, s.trees, sub.records).value;
                 && p.newRunningRoot == RootOf(d.imt, t.running) && p.newIdTagRoot == RootOf(d.imt, t.idTag)
                 && |en.batches| < TWO_32
  {
  }

  /** Exactly the batches that are accepted: the petition is open, the proof verifies and is bound to petition and
      blob, the records are of the petition's classes in strict leaf order and can all be inserted, and the public
      inputs lead from the stored state to the state after them. */
  lemma PublishIff(d: Deployment, en: PetitionEntry, relayer: Address, sub: BatchSubmission, block: nat)
    ensures Publish(d, en, relayer, sub, block).result.Ok? <==>
      && Rank(en.record.state) <= 1 && block < en.record.closeAt
      && Vouches(d, en.record, sub)
      && InClassSet(en.record.classSet, sub.records) && Ascending(d, sub.records)
      && Replay(d, en.trees, sub.records).Ok?
      && Extends(d, en.record, sub, Replay(d, en.trees, sub.records).value)
      && |en.batches| < TWO_32
  {
    SettleExact(en.record.state, en.record.closeAt, block);
    PublishByParts(d, en, relayer, sub, block);
    ExecuteIsReplay(d, en.record.classSet, None, en.trees, sub.records);
    StateCheckIff(en.record, sub.public, |sub.records|);
    CheckOfStepped(d, en, sub, block);
    if |sub.records| <= RECORDS_PER_BLOB {
      BindingCheckIff(d, en.record, sub);
    }
  }

  lemma CheckOfStepped(d: Deployment, en: PetitionEntry, sub: BatchSubmission, block: nat)
    ensures BatchCheck(d, Stepped(en, block).record, sub).None? <==>
      BindingCheck(d, en.record, sub).None? && StateCheck(en.record, sub.public, |sub.records|).None?
    ensures BindingCheck(d, en.record, sub).None? ==> |sub.records| <= RECORDS_PER_BLOB
  {
  }

  /** What is stored of an accepted batch. */
  lemma PublishStores(d: Deployment, en: PetitionEntry, relayer: Address, sub: BatchSubmission, block: nat)
    requires Publish(d, en, relayer, sub, block).result.Ok?
    ensures var o, p := Publish(d, en, relayer, sub, block), sub.public;
            && o.result.value == BatchRecord(p.versionedHash, p.priorRunningRoot, p.newRunningRoot, p.priorIdTagRoot,
                                             p.newIdTagRoot, p.priorLeafCount, p.newLeafCount, relayer, block, true)
            && o.entry.batches == en.batches + [o.result.value]
            && Replay(d, en.trees, sub.records) == Ok(o.entry.trees)
            && o.entry.record == en.record.(runningRoot := p.newRunningRoot, idTagRoot := p.newIdTagRoot,
                                            leafCount := p.newLeafCount, state := SigningOpen)
  {
    PublishIff(d, en, relayer, sub, block);
    PublishSuccess(d, en, relayer, sub, block);
    ExecuteIsReplay(d, en.record.classSet, None, en.trees, sub.records);
  }

  // ----- closing -----

  /** The claim is about the petition as stored: predicate, credential root, running root, count, classes, thresholds.
      */
  ghost predicate Concerns(r: PetitionRecord, p: ResolutionPublic) {
    && p.predicateHash == r.predicateHash && p.rRoot == r.rRoot && p.runningRoot == r.runningRoot
    && p.leafCount == r.leafCount < TWO_64
    && |p.classSet| == |p.thresholds| == |p.bPerClass| == |r.classSet| == |r.thresholds|
    && forall i :: 0 <= i < |r.classSet| ==> p.classSet[i] == r.classSet[i] && p.thresholds[i] == r.thresholds[i] % P
  }

  lemma MatchesIff(r: PetitionRecord, p: ResolutionPublic)
    ensures ResolutionMatches(r, p) <==> Concerns(r, p)
  {
    assert forall i :: 0 <= i < |r.classSet| ==> r.classSet[i] % P == r.classSet[i];
  }

  lemma ResolveByParts(d: Deployment, en: PetitionEntry, resolver: Address, sub: ResolutionSubmission, block: nat)
    ensures ResolvePetition(d, en, resolver, sub, block).result.Ok? <==>
      && Settle(en.record.state, en.record.closeAt, block) == DisputeWindow
      && en.record.closeAt + RESOLUTION_DEADLINE_BLOCKS <= block
      && en.record.closeAt + RESOLUTION_DEADLINE_BLOCKS < TWO_64
      && d.verifyResolution(sub.proof, sub.public) && ResolutionMatches(Stepped(en, block).record, sub.public)
      && en.record.bounty < TWO_128
  {
  }

  lemma MatchesStepped(en: PetitionEntry, p: ResolutionPublic, block: nat)
    ensures ResolutionMatches(Stepped(en, block).record, p) <==> ResolutionMatches(en.record, p)
  {
  }

  /** Exactly the resolutions that are accepted: in the dispute window, after the deadline, with a proof that verifies
      and a claim about the petition as stored. */
  lemma ResolveIff(d: Deployment, en: PetitionEntry, resolver: Address, sub: ResolutionSubmission, block: nat)
    ensures ResolvePetition(d, en, resolver, sub, block).result.Ok? <==>
      && Settle(en.record.state, en.record.closeAt, block) == DisputeWindow
      && en.record.closeAt + RESOLUTION_DEADLINE_BLOCKS <= block
      && en.record.closeAt + RESOLUTION_DEADLINE_BLOCKS < TWO_64
      && d.verifyResolution(sub.proof, sub.public) && Concerns(en.record, sub.public)
      && en.record.bounty < TWO_128
  {
    ResolveByParts(d, en, resolver, sub, block);
    MatchesStepped(en, sub.public, block);
    MatchesIff(en.record, sub.public);
  }

  /** The claimed bits are stored, nothing else changes, and the bounty goes to the resolver. */
  lemma ResolveStores(d: Deployment, en: PetitionEntry, resolver: Address, sub: ResolutionSubmission, block: nat)
    requires ResolvePetition(d, en, resolver, sub, block).result.Ok?
    ensures var o := ResolvePetition(d, en, resolver, sub, block);
            && o.result.value == Payout(resolver, en.record.bounty, resolver, 0)
            && o.entry == en.(record := en.record.(b := o.entry.record.b, bPerClass := o.entry.record.bPerClass,
                                                   state := Resolved))
            && Claimed(o.entry.record, sub.public)
  {
  }

  /** The record carries the bits of the claim. */
  ghost predicate Claimed(r: PetitionRecord, p: ResolutionPublic) {
    && (r.b <==> p.b != 0) && |r.bPerClass| == |p.bPerClass|
    && forall i :: 0 <= i < |r.bPerClass| ==> (r.bPerClass[i] <==> p.bPerClass[i] != 0)
  }

  /** Exactly when a petition can be expired, and what becomes of it and of its bounty. */
  lemma ExpireIff(en: PetitionEntry, caller: Address, gasRebate: nat, block: nat)
    ensures var o := MarkUnresolved(en, caller, gasRebate, block);
            var deadline := en.record.closeAt + RESOLUTION_DEADLINE_BLOCKS + MARK_UNRESOLVED_GRACE_BLOCKS;
            && (o.result.Ok? <==>
                 && Settle(en.record.state, en.record.closeAt, block) == DisputeWindow
                 && deadline <= block && deadline < TWO_64 && en.record.bounty < TWO_128)
            && (o.result.Ok? ==>
                 && o.result.value.recipient == en.record.organizer && o.result.value.caller == caller
                 && o.result.value.rebate
                    == (if 100 * gasRebate <= en.record.bounty then gasRebate else en.record.bounty / 100)
                 && o.result.value.amount == en.record.bounty - o.result.value.rebate
                 && o.entry == en.(record := en.record.(runningRoot := TOMBSTONE_MARKER, state := Unresolved)))
  {
  }

  // ----- over runs -----

  /** What an outside observer files along a run: the submissions of all published batches, and of the resolution. */
  datatype Docket = Docket(batches: map<Bytes32, seq<BatchSubmission>>, claims: map<Bytes32, ResolutionSubmission>)

  function Filed(d: Deployment, en: PetitionEntry, subs: seq<BatchSubmission>, op: Operation,
                 block: nat): seq<BatchSubmission>
  {
    match op
    case PublishBatch(relayer, sub) => if Publish(d, en, relayer, sub, block).result.Ok? then subs + [sub] else subs
    case Contest(_, _) => subs
    case Resolve(_, _) => subs
    case Expire(_, _) => subs
  }

  function Claims(d: Deployment, id: Bytes32, en: PetitionEntry, claims: map<Bytes32, ResolutionSubmission>,
                  op: Operation,
                  block: nat): map<Bytes32, ResolutionSubmission>
  {
    match op
    case Resolve(resolver, sub) =>
      if ResolvePetition(d, en, resolver, sub, block).result.Ok? then claims[id := sub] else claims
    case PublishBatch(_, _) => claims
    case Contest(_, _) => claims
    case Expire(_, _) => claims
  }

  function File(d: Deployment, w: World, k: Docket, a: Action): Docket {
    match a
    case Tick(_) => k
    case UpdateAlpha(_) => k
    case Register(draft, firstSeen) => (
      match Registration(d, w, draft, firstSeen)
      case Err(_) => k
      case Ok((id, _)) => k.(batches := k.batches[id := []]))
    case On(id, op) =>
      if id !in w.petitions || id !in k.batches then k
      else Docket(k.batches[id := Filed(d, w.petitions[id], k.batches[id], op, w.block)],
                  Claims(d, id, w.petitions[id], k.claims, op, w.block))
  }

  /** The stored batch is the one the submission asked for, and the submission's proof vouches for it. */
  ghost predicate BatchVouched(d: Deployment, r: PetitionRecord, b: BatchRecord, sub: BatchSubmission) {
    && Vouches(d, r, sub)
    && b.versionedHash == sub.public.versionedHash
    && b.priorRunningRoot == sub.public.priorRunningRoot && b.newRunningRoot == sub.public.newRunningRoot
    && b.priorIdTagRoot == sub.public.priorIdTagRoot && b.newIdTagRoot == sub.public.newIdTagRoot
    && b.priorLeafCount == sub.public.priorLeafCount && b.newLeafCount == sub.public.newLeafCount
  }

  ghost predicate AllVouched(d: Deployment, en: PetitionEntry, subs: seq<BatchSubmission>) {
    && |subs| == |en.batches|
    && forall i {:trigger BatchVouched(d, en.record, en.batches[i], subs[i])} ::
         0 <= i < |subs| ==> BatchVouched(d, en.record, en.batches[i], subs[i])
  }

  /** A resolved petition carries the bits of a claim about it whose proof verified. */
  ghost predicate ClaimVouched(d: Deployment, id: Bytes32, r: PetitionRecord,
                               claims: map<Bytes32, ResolutionSubmission>)
  {
    r.state == Resolved ==>
      && id in claims && d.verifyResolution(claims[id].proof, claims[id].public)
      && Concerns(r, claims[id].public) && Claimed(r, claims[id].public)
  }

  ghost predicate EntryVouched(d: Deployment, id: Bytes32, en: PetitionEntry, subs: seq<BatchSubmission>,
                               claims: map<Bytes32, ResolutionSubmission>)
  {
    AllVouched(d, en, subs) && ClaimVouched(d, id, en.record, claims) && Terms(en.record).bounty < TWO_128
  }

  ghost predicate Vouched(d: Deployment, w: World, k: Docket) {
    && k.batches.Keys == w.petitions.Keys
    && forall id {:trigger EntryVouched(d, id, w.petitions[id], k.batches[id], k.claims)} ::
         id in w.petitions ==> EntryVouched(d, id, w.petitions[id], k.batches[id], k.claims)
  }

  /** The same batches, up to which are Active. */
  ghost predicate SameBatches(xs: seq<BatchRecord>, ys: seq<BatchRecord>) {
    |xs| == |ys| && forall i :: 0 <= i < |xs| ==> xs[i] == ys[i].(active := xs[i].active)
  }

  lemma VouchesSame(d: Deployment, x: PetitionRecord, y: PetitionRecord, sub: BatchSubmission)
    requires Terms(x) == Terms(y)
    ensures Vouches(d, x, sub) <==> Vouches(d, y, sub)
  {
    assert x.petitionId == Terms(x).petitionId && x.rRoot == Terms(x).rRoot
      && x.predicateHash == Terms(x).predicateHash;
    assert x.classIndex == Terms(x).classIndex && x.slot == Terms(x).slot;
  }

  lemma AllVouchedSame(d: Deployment, x: PetitionEntry, y: PetitionEntry, subs: seq<BatchSubmission>)
    requires AllVouched(d, x, subs) && Terms(x.record) == Terms(y.record) && SameBatches(y.batches, x.batches)
    ensures AllVouched(d, y, subs)
  {
    forall i | 0 <= i < |subs| ensures BatchVouched(d, y.record, y.batches[i], subs[i]) {
      assert BatchVouched(d, x.record, x.batches[i], subs[i]);
      VouchesSame(d, x.record, y.record, subs[i]);
      assert y.batches[i] == x.batches[i].(active := y.batches[i].active);
    }
  }

  lemma AllVouchedMore(d: Deployment, x: PetitionEntry, y: PetitionEntry, subs: seq<BatchSubmission>, b: BatchRecord,
                       sub: BatchSubmission)
    requires AllVouched(d, x, subs) && Terms(x.record) == Terms(y.record) && y.batches == x.batches + [b]
    requires BatchVouched(d, x.record, b, sub)
    ensures AllVouched(d, y, subs + [sub])
  {
    forall i | 0 <= i < |subs| + 1 ensures BatchVouched(d, y.record, y.batches[i], (subs + [sub])[i]) {
      VouchesSame(d, x.record, y.record, (subs + [sub])[i]);
      if i < |subs| {
        assert BatchVouched(d, x.record, x.batches[i], subs[i]);
      }
    }
  }

  lemma SteppedResolved(en: PetitionEntry, block: nat)
    ensures en.record.state == Resolved ==> Stepped(en, block) == en
    ensures Stepped(en, block).record.state == Resolved ==> en.record.state == Resolved
  {
    SettleExact(en.record.state, en.record.closeAt, block);
  }

  lemma PublishVouched(d: Deployment, id: Bytes32, en: PetitionEntry, subs: seq<BatchSubmission>,
                       claims: map<Bytes32, ResolutionSubmission>, relayer: Address, sub: BatchSubmission, block: nat)
    requires EntryVouched(d, id, en, subs, claims)
    ensures var o := Publish(d, en, relayer, sub, block);
            EntryVouched(d, id, o.entry, if o.result.Ok? then subs + [sub] else subs, claims)
  {
    var o := Publish(d, en, relayer, sub, block);
    PublishKeepsTerms(d, en, relayer, sub, block);
    SteppedResolved(en, block);
    if o.result.Ok? {
      PublishIff(d, en, relayer, sub, block);
      PublishStores(d, en, relayer, sub, block);
      AllVouchedMore(d, en, o.entry, subs, o.result.value, sub);
    } else {
      FailedPublishBatches(d, en, relayer, sub, block);
      AllVouchedSame(d, en, o.entry, subs);
    }
  }

  lemma FailedPublishBatches(d: Deployment, en: PetitionEntry, relayer: Address, sub: BatchSubmission, block: nat)
    requires Publish(d, en, relayer, sub, block).result.Err?
    ensures Publish(d, en, relayer, sub, block).entry.batches == en.batches
    ensures Publish(d, en, relayer, sub, block).entry.record == Stepped(en, block).record
  {
  }

  lemma DisputeVouched(d: Deployment, id: Bytes32, en: PetitionEntry, subs: seq<BatchSubmission>,
                       claims: map<Bytes32, ResolutionSubmission>, dispute: Dispute, blobs: Blobs, block: nat)
    requires EntryVouched(d, id, en, subs, claims)
    ensures EntryVouched(d, id, DisputeBatch(d, blobs, en, dispute, block).entry, subs, claims)
  {
    var o := DisputeBatch(d, blobs, en, dispute, block);
    DisputeKeepsTerms(d, blobs, en, dispute, block);
    SteppedResolved(en, block);
    if o.result.Ok? {
      DisputeSuccess(d, blobs, en, dispute, block);
    } else {
      DisputeFailure(d, blobs, en, dispute, block);
    }
    AllVouchedSame(d, en, o.entry, subs);
  }

  lemma ResolveVouched(d: Deployment, id: Bytes32, en: PetitionEntry, subs: seq<BatchSubmission>,
                       claims: map<Bytes32, ResolutionSubmission>, resolver: Address, sub: ResolutionSubmission,
                         block: nat)
    requires EntryVouched(d, id, en, subs, claims)
    ensures var o := ResolvePetition(d, en, resolver, sub, block);
            EntryVouched(d, id, o.entry, subs, if o.result.Ok? then claims[id := sub] else claims)
  {
    var o := ResolvePetition(d, en, resolver, sub, block);
    SteppedResolved(en, block);
    if o.result.Ok? {
      ResolveIff(d, en, resolver, sub, block);
      ResolveStores(d, en, resolver, sub, block);
    } else {
      FailedResolve(d, en, resolver, sub, block);
    }
    AllVouchedSame(d, en, o.entry, subs);
  }

  /** A refused resolution changes nothing, unless the bounty could not be paid. */
  lemma FailedResolve(d: Deployment, en: PetitionEntry, resolver: Address, sub: ResolutionSubmission, block: nat)
    requires ResolvePetition(d, en, resolver, sub, block).result.Err?
    ensures ResolvePetition(d, en, resolver, sub, block).entry == Stepped(en, block)
         || en.record.bounty >= TWO_128
  {
  }

  lemma ExpireVouched(d: Deployment, id: Bytes32, en: PetitionEntry, subs: seq<BatchSubmission>,
                      claims: map<Bytes32, ResolutionSubmission>, caller: Address, gasRebate: nat, block: nat)
    requires EntryVouched(d, id, en, subs, claims)
    ensures EntryVouched(d, id, MarkUnresolved(en, caller, gasRebate, block).entry, subs, claims)
  {
    SteppedResolved(en, block);
    ExpireIff(en, caller, gasRebate, block);
    AllVouchedSame(d, en, MarkUnresolved(en, caller, gasRebate, block).entry, subs);
  }

  lemma OperationVouched(d: Deployment, id: Bytes32, en: PetitionEntry, subs: seq<BatchSubmission>,
                         claims: map<Bytes32, ResolutionSubmission>, op: Operation, block: nat)
    requires EntryVouched(d, id, en, subs, claims)
    ensures EntryVouched(d, id, Touched(d, en, op, block), Filed(d, en, subs, op, block),
                         Claims(d, id, en, claims, op, block))
  {
    match op
    case PublishBatch(relayer, sub) => PublishVouched(d, id, en, subs, claims, relayer, sub, block);
    case Contest(dispute, blobs) => DisputeVouched(d, id, en, subs, claims, dispute, blobs, block);
    case Resolve(resolver, sub) => ResolveVouched(d, id, en, subs, claims, resolver, sub, block);
    case Expire(caller, gasRebate) => ExpireVouched(d, id, en, subs, claims, caller, gasRebate, block);
  }

  /** Replacing or adding one vouched petition, with claims that differ only for it, keeps all of them vouched. */
  lemma OneEntryVouched(d: Deployment, w: World, k: Docket, v: World, l: Docket, id: Bytes32, en: PetitionEntry,
                        subs: seq<BatchSubmission>)
    requires Vouched(d, w, k) && EntryVouched(d, id, en, subs, l.claims)
    requires v.petitions == w.petitions[id := en] && l.batches == k.batches[id := subs]
    requires forall n :: n != id ==>
      (n in l.claims <==> n in k.claims) && (n in k.claims ==> l.claims[n] == k.claims[n])
    ensures Vouched(d, v, l)
  {
    forall n | n in v.petitions ensures EntryVouched(d, n, v.petitions[n], l.batches[n], l.claims) {
      if n != id {
        assert EntryVouched(d, n, w.petitions[n], k.batches[n], k.claims);
      }
    }
  }

  lemma RegisterVouched(d: Deployment, w: World, k: Docket, draft: Draft, firstSeen: Option<nat>)
    requires Vouched(d, w, k) && Registration(d, w, draft, firstSeen).Ok?
    ensures Vouched(d, Apply(d, w, Register(draft, firstSeen)), File(d, w, k, Register(draft, firstSeen)))
  {
    RegistrationTerms(d, w, draft, firstSeen);
    RegistrationHolds(d, w, draft, firstSeen);
    var (id, en) := Registration(d, w, draft, firstSeen).value;
    var a := Register(draft, firstSeen);
    NewEntryVouched(d, w, draft, firstSeen, k.claims);
    OneEntryVouched(d, w, k, Apply(d, w, a), File(d, w, k, a), id, en, []);
  }

  lemma NewEntryVouched(d: Deployment, w: World, draft: Draft, firstSeen: Option<nat>,
                        claims: map<Bytes32, ResolutionSubmission>)
    ensures Registration(d, w, draft, firstSeen).Ok? ==>
            var (id, en) := Registration(d, w, draft, firstSeen).value; EntryVouched(d, id, en, [], claims)
  {
    if Registration(d, w, draft, firstSeen).Ok? {
      RegistrationTerms(d, w, draft, firstSeen);
      RegistrationHolds(d, w, draft, firstSeen);
      NewEntryHasNoBatches(d, w, draft, firstSeen);
    }
  }

  lemma NewEntryHasNoBatches(d: Deployment, w: World, draft: Draft, firstSeen: Option<nat>)
    ensures Registration(d, w, draft, firstSeen).Ok? ==> Registration(d, w, draft, firstSeen).value.1.batches == []
  {
  }

  lemma OnVouched(d: Deployment, w: World, k: Docket, id: Bytes32, op: Operation)
    requires Vouched(d, w, k) && id in w.petitions
    ensures Vouched(d, Apply(d, w, On(id, op)), File(d, w, k, On(id, op)))
  {
    var en, subs := w.petitions[id], k.batches[id];
    assert EntryVouched(d, id, en, subs, k.claims);
    OperationVouched(d, id, en, subs, k.claims, op, w.block);
    OneEntryVouched(d, w, k, Apply(d, w, On(id, op)), File(d, w, k, On(id, op)), id, Touched(d, en, op, w.block),
                    Filed(d, en, subs, op, w.block));
  }

  lemma StepVouched(d: Deployment, w: World, k: Docket, a: Action)
    requires Vouched(d, w, k)
    ensures Vouched(d, Apply(d, w, a), File(d, w, k, a))
  {
    match a
    case Tick(_) =>
    case UpdateAlpha(_) =>
    case Register(draft, firstSeen) =>
      if Registration(d, w, draft, firstSeen).Ok? {
        RegisterVouched(d, w, k, draft, firstSeen);
      }
    case On(id, op) =>
      if id in w.petitions {
        OnVouched(d, w, k, id, op);
      }
  }

  function DocketAfter(d: Deployment, w: World, k: Docket, actions: seq<Action>): Docket {
    if |actions| == 0 then k
    else
      var front := actions[..|actions| - 1];
      File(d, After(d, w, front), DocketAfter(d, w, k, front), actions[|actions| - 1])
  }

  /** Over every run, whatever the environment does: each stored batch was asked for by a submission whose proof
      verified against inputs bound to its petition and its blob, and each resolved petition carries the bits of a
      claim about it, as stored, whose proof verified. */
  lemma {:induction false} EveryRunVouched(d: Deployment, global: Global, block: nat, actions: seq<Action>)
    ensures Vouched(d, After(d, World(global, map[], block), actions),
                    DocketAfter(d, World(global, map[], block), Docket(map[], map[]), actions))
  {
    if |actions| != 0 {
      var w, k, front := World(global, map[], block), Docket(map[], map[]), actions[..|actions| - 1];
      EveryRunVouched(d, global, block, front);
      StepVouched(d, After(d, w, front), DocketAfter(d, w, k, front), actions[|actions| - 1]);
    }
  }

  // ----- the docket and the history -----

  function RecordsIn(subs: seq<BatchSubmission>): (hs: seq<seq<Record>>)
    ensures |hs| == |subs|
  {
    seq(|subs|, i requires 0 <= i < |subs| => subs[i].records)
  }

  ghost predicate HistoryFiled(g: Audit, k: Docket) {
    && g.history.Keys == g.paid.Keys == k.batches.Keys
    && forall id {:trigger g.history[id]} :: id in k.batches ==> g.history[id] == RecordsIn(k.batches[id])
  }

  lemma StepFiled(d: Deployment, w: World, g: Audit, k: Docket, a: Action)
    requires HistoryFiled(g, k) && k.batches.Keys == w.petitions.Keys
    ensures HistoryFiled(Track(d, w, g, a), File(d, w, k, a))
  {
    if a.On? && a.id in w.petitions && a.op.PublishBatch? {
      assert RecordsIn(k.batches[a.id] + [a.op.sub]) == RecordsIn(k.batches[a.id]) + [a.op.sub.records];
    }
  }

  /** The history of a petition, whose replay its roots and trees are, is that of the vouched submissions. */
  lemma {:induction false} EveryRunFiled(d: Deployment, global: Global, block: nat, actions: seq<Action>)
    ensures HistoryFiled(AuditAfter(d, World(global, map[], block), Audit(map[], map[]), actions),
                         DocketAfter(d, World(global, map[], block), Docket(map[], map[]), actions))
  {
    if |actions| != 0 {
      var w, front := World(global, map[], block), actions[..|actions| - 1];
      EveryRunFiled(d, global, block, front);
      EveryRunVouched(d, global, block, front);
      StepFiled(d, After(d, w, front), AuditAfter(d, w, Audit(map[], map[]), front),
                DocketAfter(d, w, Docket(map[], map[]), front), actions[|actions| - 1]);
    }
  }
}
