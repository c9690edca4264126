/** What a petition was registered with stays with it, and its lifecycle only moves on, over every run. */
module RegistryTerms {
  import opened Field
  import opened Wrappers
  import opened Imt
  import opened Predicate
  import PredicateCodec
  import CanonicalScalars
  import ClassBinding
  import opened Blob
  import opened Petition
  import opened PetitionInvariant
  import opened Registry
  import opened RegistryRuns

  /** The part of a petition that registration fixes. */
  function Terms(r: PetitionRecord): PetitionRecord {
    r.(runningRoot := 0, idTagRoot := 0, leafCount := 0, b := false, bPerClass := [], state := Registered)
  }

  lemma PublishKeepsTerms(d: Deployment, en: PetitionEntry, relayer: Address, sub: BatchSubmission, block: nat)
    ensures Terms(Publish(d, en, relayer, sub, block).entry.record) == Terms(en.record)
  {
  }

  lemma DisputeKeepsTerms(d: Deployment, blobs: Blobs, en: PetitionEntry, dispute: Dispute, block: nat)
    ensures Terms(DisputeBatch(d, blobs, en, dispute, block).entry.record) == Terms(en.record)
  {
  }

  /** No operation changes the terms of a petition, whether it succeeds or fails. */
  lemma OperationKeepsTerms(d: Deployment, en: PetitionEntry, op: Operation, block: nat)
    ensures Terms(Touched(d, en, op, block).record) == Terms(en.record)
  {
    match op
    case PublishBatch(relayer, sub) => PublishKeepsTerms(d, en, relayer, sub, block);
    case Contest(dispute, blobs) => DisputeKeepsTerms(d, blobs, en, dispute, block);
    case Resolve(_, _) =>
    case Expire(_, _) =>
  }

  /** A petition on proper terms: its own identifier, a slot that was the counter's once, and a stored predicate
      that decodes to one with a binding operand in the class set. */
  ghost predicate Proper(r: PetitionRecord, id: Bytes32, s: nat) {
    && r.petitionId == id && r.slot < s
    && PredicateCodec.Decoded(r.predicateDef).Ok?
    && ClassBinding.Registers(PredicateCodec.Decoded(r.predicateDef).value, r.classIndex, r.classSet)
  }

  type Petitions = map<Bytes32, PetitionEntry>

  ghost predicate ProperAt(ps: Petitions, id: Bytes32, s: nat) {
    id in ps ==> Proper(Terms(ps[id].record), id, s)
  }

  ghost predicate SlotsDiffer(ps: Petitions, a: Bytes32, b: Bytes32) {
    a in ps && b in ps && a != b ==> Terms(ps[a].record).slot != Terms(ps[b].record).slot
  }

  /** All petitions are on proper terms and no two share a slot. */
  ghost predicate AllDistinguished(ps: Petitions, s: nat) {
    && (forall id {:trigger ProperAt(ps, id, s)} :: ProperAt(ps, id, s))
    && (forall a, b {:trigger SlotsDiffer(ps, a, b)} :: SlotsDiffer(ps, a, b))
  }

  /** In addition, the slot counter never passes the number of ratchet slots. */
  ghost predicate Distinguished(w: World) {
    w.global.s <= FSRT_SLOT_COUNT && AllDistinguished(w.petitions, w.global.s)
  }

  /** What an accepted draft has passed, and what is stored of it. */
  lemma RegistrationTerms(d: Deployment, w: World, draft: Draft, firstSeen: Option<nat>)
    ensures Registration(d, w, draft, firstSeen).Ok? ==>
            var (id, en) := Registration(d, w, draft, firstSeen).value;
            && id !in w.petitions && Terms(en.record).slot == w.global.s < FSRT_SLOT_COUNT
              && Proper(Terms(en.record), id, w.global.s + 1)
            && PredicateCodec.Decoded(en.record.predicateDef) == Ok(draft.predicateDef)
            && w.block < en.record.closeAt <= w.block + MAX_SIGNING_WINDOW_BLOCKS
            && firstSeen.Some? && firstSeen.value + MIN_R_AGE_BLOCKS <= w.block
            && MinimumBounty(draft, w.global.alpha) <= en.record.bounty < TWO_128
  {
    RegistrationParts(d, w, draft, firstSeen);
    DraftTerms(draft, w.global.n);
    TimingTerms(draft, firstSeen, w.block);
    if Registration(d, w, draft, firstSeen).Ok? {
      var (id, en) := Registration(d, w, draft, firstSeen).value;
      InitialTerms(d, draft, en.record.predicateDef, id, w.global.s);
    }
  }

  /** The parts a registration is made of. */
  lemma RegistrationParts(d: Deployment, w: World, draft: Draft, firstSeen: Option<nat>)
    ensures Registration(d, w, draft, firstSeen).Ok? ==>
            var (id, en) := Registration(d, w, draft, firstSeen).value;
            && DraftError(draft, w.global.n).None? && TimingError(draft, firstSeen, w.block).None?
            && PredicateCodec.Encoded(draft.predicateDef) == Ok(en.record.predicateDef)
            && w.global.s < FSRT_SLOT_COUNT && id !in w.petitions
            && MinimumBounty(draft, w.global.alpha) <= draft.bounty < TWO_128
            && Terms(en.record) == Terms(InitialRecord(d, draft, en.record.predicateDef, id, w.global.s))
  {
  }

  lemma InitialTerms(d: Deployment, draft: Draft, encoded: seq<byte>, id: Bytes32, slot: nat)
    ensures var t := Terms(InitialRecord(d, draft, encoded, id, slot));
            && t.petitionId == id && t.slot == slot && t.predicateDef == encoded && t.classSet == draft.classSet
            && t.classIndex == draft.classIndex && t.closeAt == draft.closeAt && t.bounty == draft.bounty
  {
  }

  lemma DraftTerms(draft: Draft, n: nat)
    ensures DraftError(draft, n).None? ==>
      && PredicateCodec.Encoded(draft.predicateDef).Ok?
      && PredicateCodec.Decoded(PredicateCodec.Encoded(draft.predicateDef).value) == Ok(draft.predicateDef)
      && ClassBinding.Registers(draft.predicateDef, draft.classIndex, draft.classSet)
  {
    if DraftError(draft, n).None? {
      PredicateCodec.RoundTrip(draft.predicateDef);
    }
  }

  lemma TimingTerms(draft: Draft, firstSeen: Option<nat>, now: nat)
    ensures TimingError(draft, firstSeen, now).None? <==>
      && firstSeen.Some? && firstSeen.value + MIN_R_AGE_BLOCKS <= now
      && now < draft.closeAt <= now + MAX_SIGNING_WINDOW_BLOCKS
  {
  }

  /** Everything a registered petition is stored with. */
  lemma RegistrationStores(d: Deployment, w: World, draft: Draft, firstSeen: Option<nat>)
    ensures Registration(d, w, draft, firstSeen).Ok? ==>
            var (id, en) := Registration(d, w, draft, firstSeen).value;
            var r := en.record;
            && r.petitionId == id && r.slot == w.global.s && r.rRoot == draft.rRoot && r.organizer == draft.organizer
            && r.classSet == draft.classSet && r.thresholds == draft.thresholds && r.classIndex == draft.classIndex
            && r.closeAt == draft.closeAt && r.bounty == draft.bounty
            && PredicateCodec.Encoded(draft.predicateDef) == Ok(r.predicateDef)
            && r.predicateHash
               == d.predicateHash(CanonicalScalars.Scalars(r.predicateDef), id % P, draft.salt % P) % P
            && r.runningRoot == r.idTagRoot == RootOf(d.imt, [ZERO]) && r.leafCount == 0 && !r.b && r.bPerClass == []
            && r.state == SigningOpen && en.batches == [] && en.trees == FRESH
  {
    RegistrationParts(d, w, draft, firstSeen);
    RegistrationHolds(d, w, draft, firstSeen);
    if Registration(d, w, draft, firstSeen).Ok? {
      StoredEntry(d, w, draft, firstSeen);
    }
  }

  lemma StoredEntry(d: Deployment, w: World, draft: Draft, firstSeen: Option<nat>)
    requires Registration(d, w, draft, firstSeen).Ok?
    ensures var (id, en) := Registration(d, w, draft, firstSeen).value;
            en == Stepped(PetitionEntry(InitialRecord(d, draft, en.record.predicateDef, id, w.global.s), [], FRESH),
                          w.block)
  {
  }

  /** The draft alone is in order. */
  ghost predicate GoodDraft(draft: Draft, n: nat) {
    && Validate(draft.predicateDef).None?
    && |draft.classSet| >= 1 && |draft.thresholds| == |draft.classSet| && draft.classIndex < n
    && (forall i :: 0 <= i < |draft.thresholds| ==> draft.thresholds[i] >= 1)
    && (forall i, j :: 0 <= i < j < |draft.classSet| ==> draft.classSet[i] < draft.classSet[j])
    && ClassBinding.Registers(draft.predicateDef, draft.classIndex, draft.classSet)
  }

  lemma GoodDraftIff(draft: Draft, n: nat)
    ensures DraftError(draft, n).None? <==> GoodDraft(draft, n)
  {
    if StrictlyIncreasing(draft.classSet) {
      forall i, j | 0 <= i < j < |draft.classSet| ensures draft.classSet[i] < draft.classSet[j] {
        IncreasingPairs(draft.classSet, i, j);
      }
    }
    assert 0 in draft.thresholds <==> exists i :: 0 <= i < |draft.thresholds| && draft.thresholds[i] == 0;
  }

  /** The bounty covers ten expected signatures per threshold unit, for each operator, at the going rate. */
  ghost predicate Covered(draft: Draft, g: Global) {
    && g.alphaMin <= g.alpha <= g.alphaMax && Sum(draft.thresholds) * 10 < TWO_128
    && g.alpha * (Sum(draft.thresholds) * 10) * |draft.predicateDef.ops| <= draft.bounty < TWO_128
  }

  lemma CoveredIff(draft: Draft, g: Global)
    ensures BountyError(draft, g).None? <==> Covered(draft, g)
  {
  }

  lemma RegistrationByParts(d: Deployment, w: World, draft: Draft, firstSeen: Option<nat>)
    ensures Registration(d, w, draft, firstSeen).Ok? <==>
      && DraftError(draft, w.global.n).None? && TimingError(draft, firstSeen, w.block).None?
      && Identification(d, w, draft).Ok? && BountyError(draft, w.global).None?
  {
  }

  /** The identifier: a hash of organizer, slot, predicate and close block, cut to 248 bits. */
  function IdentifierOf(d: Deployment, draft: Draft, encoded: seq<byte>, slot: nat): nat {
    var hash := d.predicateHash(CanonicalScalars.Scalars(encoded), 0, draft.salt % P) % P;
    d.petitionId(draft.organizer, slot, hash, draft.closeAt) % TWO_248
  }

  /** Exactly the drafts that are registered. */
  lemma RegistersIff(d: Deployment, w: World, draft: Draft, firstSeen: Option<nat>)
    ensures Registration(d, w, draft, firstSeen).Ok? <==>
      && GoodDraft(draft, w.global.n)
      && firstSeen.Some? && firstSeen.value + MIN_R_AGE_BLOCKS <= w.block
      && w.block < draft.closeAt <= w.block + MAX_SIGNING_WINDOW_BLOCKS
      && w.global.s < FSRT_SLOT_COUNT
      && IdentifierOf(d, draft, PredicateCodec.PredicateBytes(draft.predicateDef), w.global.s) !in w.petitions
      && Covered(draft, w.global)
  {
    RegistrationByParts(d, w, draft, firstSeen);
    GoodDraftIff(draft, w.global.n);
    TimingTerms(draft, firstSeen, w.block);
    CoveredIff(draft, w.global);
    PredicateCodec.EncodeNeverTooLarge(draft.predicateDef);
  }

  /** The sum of thresholds is what its name says. */
  lemma {:induction false} SumSplits(s: seq<u64>, t: seq<u64>)
    ensures Sum([]) == 0 && (|s| == 1 ==> Sum(s) == s[0]) && Sum(s + t) == Sum(s) + Sum(t)
  {
    if |s| == 0 {
      assert s + t == t;
    } else {
      SumSplits(s[1..], t);
      assert (s + t)[1..] == s[1..] + t;
    }
  }

  /** Replacing one petition by one on the same terms keeps all of them distinguished. */
  lemma ReplacedKeeps(ps: Petitions, s: nat, id: Bytes32, en: PetitionEntry)
    requires AllDistinguished(ps, s) && id in ps && Terms(en.record) == Terms(ps[id].record)
    ensures AllDistinguished(ps[id := en], s)
  {
    forall n {:trigger ProperAt(ps[id := en], n, s)} ensures ProperAt(ps[id := en], n, s) {
      assert ProperAt(ps, n, s);
    }
    forall a, b {:trigger SlotsDiffer(ps[id := en], a, b)} ensures SlotsDiffer(ps[id := en], a, b) {
      assert SlotsDiffer(ps, a, b);
    }
  }

  lemma AddedKeeps(ps: Petitions, s: nat, id: Bytes32, en: PetitionEntry)
    requires AllDistinguished(ps, s) && id !in ps && Terms(en.record).slot == s && Proper(Terms(en.record), id, s + 1)
    ensures AllDistinguished(ps[id := en], s + 1)
  {
    forall n {:trigger ProperAt(ps[id := en], n, s + 1)} ensures ProperAt(ps[id := en], n, s + 1) {
      assert ProperAt(ps, n, s);
    }
    forall a, b {:trigger SlotsDiffer(ps[id := en], a, b)} ensures SlotsDiffer(ps[id := en], a, b) {
      assert SlotsDiffer(ps, a, b) && ProperAt(ps, a, s) && ProperAt(ps, b, s);
    }
  }

  lemma RegisterKeepsDistinguished(d: Deployment, w: World, draft: Draft, firstSeen: Option<nat>)
    requires Distinguished(w)
    ensures Distinguished(Apply(d, w, Register(draft, firstSeen)))
  {
    RegistrationTerms(d, w, draft, firstSeen);
    if Registration(d, w, draft, firstSeen).Ok? {
      var (id, en) := Registration(d, w, draft, firstSeen).value;
      GrownKeeps(w, Apply(d, w, Register(draft, firstSeen)), id, en);
    }
  }

  lemma GrownKeeps(w: World, v: World, id: Bytes32, en: PetitionEntry)
    requires Distinguished(w) && v.petitions == w.petitions[id := en] && v.global.s == w.global.s + 1
    requires id !in w.petitions && Terms(en.record).slot == w.global.s < FSRT_SLOT_COUNT
    requires Proper(Terms(en.record), id, w.global.s + 1)
    ensures Distinguished(v)
  {
    AddedKeeps(w.petitions, w.global.s, id, en);
  }

  lemma StepKeepsDistinguished(d: Deployment, w: World, a: Action)
    requires Distinguished(w)
    ensures Distinguished(Apply(d, w, a))
  {
    match a
    case Tick(_) =>
    case UpdateAlpha(_) =>
    case Register(draft, firstSeen) => RegisterKeepsDistinguished(d, w, draft, firstSeen);
    case On(id, op) =>
      if id in w.petitions {
        OperationKeepsTerms(d, w.petitions[id], op, w.block);
        ReplacedKeeps(w.petitions, w.global.s, id, Touched(d, w.petitions[id], op, w.block));
      }
  }

  /** In every reachable state, whatever the environment does, petitions have different slots. */
  lemma {:induction false} EveryRunDistinguished(d: Deployment, global: Global, block: nat, actions: seq<Action>)
    requires global.s <= FSRT_SLOT_COUNT
    ensures Distinguished(After(d, World(global, map[], block), actions))
  {
    if |actions| == 0 {
      assert AllDistinguished(map[], global.s);
    } else {
      var front := actions[..|actions| - 1];
      EveryRunDistinguished(d, global, block, front);
      StepKeepsDistinguished(d, After(d, World(global, map[], block), front), actions[|actions| - 1]);
    }
  }

  // ----- the rate over runs -----

  ghost predicate RateInBounds(g: Global) {
    g.alphaMin <= g.alpha <= g.alphaMax
  }

  /** A rate is taken exactly if it lies within the bounds, and nothing else in the registry changes it. */
  lemma RateStep(d: Deployment, w: World, a: Action)
    ensures Apply(d, w, a).global.alphaMin == w.global.alphaMin && Apply(d, w, a).global.alphaMax == w.global.alphaMax
    ensures Apply(d, w, a).global.alpha ==
            if a.UpdateAlpha? && w.global.alphaMin <= a.alpha <= w.global.alphaMax then a.alpha else w.global.alpha
  {
  }

  /** Over every run from a rate within its bounds, no registration is refused for the rate. */
  lemma {:induction false} EveryRunRateInBounds(d: Deployment, w: World, actions: seq<Action>, draft: Draft,
                                                firstSeen: Option<nat>)
    requires RateInBounds(w.global)
    ensures RateInBounds(After(d, w, actions).global)
    ensures Registration(d, After(d, w, actions), draft, firstSeen) != Err(AlphaOutOfBounds)
  {
    if |actions| != 0 {
      var front := actions[..|actions| - 1];
      EveryRunRateInBounds(d, w, front, draft, firstSeen);
      RateStep(d, After(d, w, front), actions[|actions| - 1]);
    }
    RefusedForRate(d, After(d, w, actions), draft, firstSeen);
  }

  lemma RefusedForRate(d: Deployment, w: World, draft: Draft, firstSeen: Option<nat>)
    requires RateInBounds(w.global)
    ensures Registration(d, w, draft, firstSeen) != Err(AlphaOutOfBounds)
  {
  }

  // ----- the lifecycle over runs -----

  /** `y` continues the petition `x`: same terms, no earlier stage, and unchanged once closed. */
  ghost predicate Continues(x: PetitionEntry, y: PetitionEntry) {
    && Terms(y.record) == Terms(x.record) && Rank(x.record.state) <= Rank(y.record.state)
    && (Terminal(x.record.state) ==> y == x)
  }

  lemma StepContinues(d: Deployment, w: World, g: Audit, a: Action, id: Bytes32)
    requires IndexableTree(d) && Consistent(d, w, g) && id in w.petitions
    ensures id in Apply(d, w, a).petitions && Continues(w.petitions[id], Apply(d, w, a).petitions[id])
  {
    match a
    case Tick(_) =>
    case UpdateAlpha(_) =>
    case Register(draft, firstSeen) =>
      if Registration(d, w, draft, firstSeen).Ok? {
        RegistrationHolds(d, w, draft, firstSeen);
      }
    case On(n, op) =>
      if n == id {
        assert EntryConsistent(d, w.petitions[id], g.history[id], g.paid[id], w.block);
        OperationOrderly(d, w.petitions[id], g.history[id], op, w.block);
        OperationKeepsTerms(d, w.petitions[id], op, w.block);
      }
  }

  lemma {:induction false} RunKeeps(d: Deployment, w: World, g: Audit, actions: seq<Action>)
    requires IndexableTree(d) && Consistent(d, w, g) && AllowedRun(d, w, g, actions)
    ensures Consistent(d, After(d, w, actions), AuditAfter(d, w, g, actions))
  {
    if |actions| != 0 {
      var front := actions[..|actions| - 1];
      RunKeeps(d, w, g, front);
      StepKeeps(d, After(d, w, front), AuditAfter(d, w, g, front), actions[|actions| - 1]);
    }
  }

  /** From any consistent state on, over every allowed run: a petition is never lost, keeps its terms, never goes
      back in its lifecycle, and once resolved or unresolved never changes again. */
  lemma {:induction false} EveryRunContinues(d: Deployment, w: World, g: Audit, actions: seq<Action>, id: Bytes32)
    requires IndexableTree(d) && Consistent(d, w, g) && AllowedRun(d, w, g, actions) && id in w.petitions
    ensures id in After(d, w, actions).petitions && Continues(w.petitions[id], After(d, w, actions).petitions[id])
  {
    if |actions| != 0 {
      var front := actions[..|actions| - 1];
      EveryRunContinues(d, w, g, front, id);
      RunKeeps(d, w, g, front);
      StepContinues(d, After(d, w, front), AuditAfter(d, w, g, front), actions[|actions| - 1], id);
    }
  }
}
